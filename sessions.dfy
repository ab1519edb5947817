/** The login gate: the process-wide token -> {username, exp} session map with
    sliding expiry, `require_login`, logout, and the checks of `api_login`. The clock
    reading and the fresh random token are passed in. */
module Sessions {
  import opened Wrappers

  /** `SESSION_TTL`: seven days, in seconds. */
  const SessionTtl: real := (7 * 24 * 3600) as real

  /** The one password every remote user logs in with. */
  const PlaintextPassword: string := "123456"

  const UnknownUserError: string := "用户名不存在"
  const WrongPasswordError: string := "密码错误"

  datatype Session = Session(username: string, exp: real)

  /** What looking a cookie up answers, and the session map afterwards. */
  datatype Lookup = Lookup(user: Option<string>, sessions: map<string, Session>)

  /** `_get_user_from_cookie`: no cookie, an empty one or an unknown token answers
      `None`; an expired session (`exp < now`) is removed; otherwise its expiry is
      moved to `now + SESSION_TTL` and its user answered. */
  function LookupSession(sessions: map<string, Session>, cookie: Option<string>, now: real): Lookup {
    if cookie.None? || cookie.value == [] then Lookup(None, sessions)
    else if cookie.value !in sessions then Lookup(None, sessions)
    else
      var tok := cookie.value;
      var s := sessions[tok];
      if s.exp < now then Lookup(None, sessions - {tok})
      else Lookup(Some(s.username), sessions[tok := Session(s.username, now + SessionTtl)])
  }

  /** The session map after `/logout` with the given cookie. */
  function LoggedOut(sessions: map<string, Session>, cookie: Option<string>): map<string, Session> {
    if cookie.Some? && cookie.value != [] then sessions - {cookie.value} else sessions
  }

  /** The first failing check of `api_login`, if any: the user name before the password. */
  function CredentialError(users: set<string>, username: string, password: string): (r: Option<string>)
    ensures r.None? <==> username in users && password == PlaintextPassword
    ensures username !in users ==> r == Some(UnknownUserError)
    ensures username in users && password != PlaintextPassword ==> r == Some(WrongPasswordError)
  {
    if username !in users then Some(UnknownUserError)
    else if password != PlaintextPassword then Some(WrongPasswordError)
    else None
  }

  datatype HttpError = HttpError(status: int, detail: string)

  datatype LoginResponse =
    | LoggedIn(user: string, cookie: string, maxAge: real)
    | LoginFailed(error: string)

  class SessionStore {
    /** `_SESSIONS`. */
    var sessions: map<string, Session>

    constructor ()
      ensures sessions == map[]
    {
      sessions := map[];
    }

    /** `_create_session`: stores the fresh token `tok` for `username`, expiring one
        TTL after `now`. */
    method CreateSession(username: string, now: real, tok: string) returns (t: string)
      modifies this
      ensures t == tok
      ensures sessions == old(sessions)[tok := Session(username, now + SessionTtl)]
    {
      sessions := sessions[tok := Session(username, now + SessionTtl)];
      t := tok;
    }

    /** `_get_user_from_cookie`. */
    method UserFromCookie(cookie: Option<string>, now: real) returns (u: Option<string>)
      modifies this
      ensures Lookup(u, sessions) == LookupSession(old(sessions), cookie, now)
    {
      if cookie.None? || cookie.value == [] {
        return None;
      }
      var tok := cookie.value;
      if tok !in sessions {
        return None;
      }
      var sess := sessions[tok];
      if sess.exp < now {
        sessions := sessions - {tok};
        return None;
      }
      sessions := sessions[tok := Session(sess.username, now + SessionTtl)];
      u := Some(sess.username);
    }

    /** `require_login`: 401 unless the cookie names a live session of a non-empty user. */
    method RequireLogin(cookie: Option<string>, now: real) returns (r: Result<string, HttpError>)
      modifies this
      ensures var l := LookupSession(old(sessions), cookie, now);
        && sessions == l.sessions
        && (l.user.None? || l.user.value == [] ==> r == Failure(HttpError(401, "unauthorized")))
        && (l.user.Some? && l.user.value != [] ==> r == Success(l.user.value))
    {
      var u := UserFromCookie(cookie, now);
      if u.None? || u.value == [] {
        return Failure(HttpError(401, "unauthorized"));
      }
      r := Success(u.value);
    }

    /** `/logout`: forgets the cookie's session, if there is one. */
    method Logout(cookie: Option<string>)
      modifies this
      ensures sessions == LoggedOut(old(sessions), cookie)
    {
      if cookie.Some? && cookie.value != [] {
        sessions := sessions - {cookie.value};
      }
    }

    /** `api_login`: `users` is the remote user list, `tok` the fresh random token. */
    method ApiLogin(users: set<string>, username: string, password: string, now: real, tok: string)
      returns (resp: LoginResponse)
      modifies this
      ensures CredentialError(users, username, password).Some? ==>
                resp == LoginFailed(CredentialError(users, username, password).value)
                && sessions == old(sessions)
      ensures CredentialError(users, username, password).None? ==>
                resp == LoggedIn(username, tok, SessionTtl)
                && sessions == old(sessions)[tok := Session(username, now + SessionTtl)]
    {
      if username !in users {
        return LoginFailed(UnknownUserError);
      }
      if password != PlaintextPassword {
        return LoginFailed(WrongPasswordError);
      }
      var t := CreateSession(username, now, tok);
      resp := LoggedIn(username, t, SessionTtl);
    }
  }

  /** Looking up a missing, empty or unknown token answers `None` and changes nothing. */
  lemma UnknownTokenChangesNothing(sessions: map<string, Session>, cookie: Option<string>, now: real)
    requires cookie.None? || cookie.value == [] || cookie.value !in sessions
    ensures LookupSession(sessions, cookie, now) == Lookup(None, sessions)
  {
  }

  /** An expired session is removed, and only it; a session whose expiry is exactly
      `now` is still live. */
  lemma ExpiryIsStrict(sessions: map<string, Session>, tok: string, now: real)
    requires tok != [] && tok in sessions
    ensures sessions[tok].exp < now ==>
              LookupSession(sessions, Some(tok), now) == Lookup(None, sessions - {tok})
              && (sessions - {tok}).Keys == sessions.Keys - {tok}
    ensures sessions[tok].exp == now ==>
              LookupSession(sessions, Some(tok), now).user == Some(sessions[tok].username)
  {
  }

  /** A successful lookup renews the session: it stays live for a full TTL after the
      lookup, keeps its user, and every other session is untouched. */
  lemma LookupRenews(sessions: map<string, Session>, tok: string, now: real, later: real)
    requires LookupSession(sessions, Some(tok), now).user.Some?
    requires now <= later <= now + SessionTtl
    ensures var l := LookupSession(sessions, Some(tok), now);
      && l.sessions.Keys == sessions.Keys
      && (forall t | t in sessions && t != tok :: l.sessions[t] == sessions[t])
      && LookupSession(l.sessions, Some(tok), later).user == l.user
  {
  }

  /** A session created at `now` is answered by every lookup up to one TTL later,
      and a lookup after that removes it. */
  lemma CreatedSessionLifetime(sessions: map<string, Session>, username: string, now: real, tok: string, t: real)
    requires tok != []
    ensures var created := sessions[tok := Session(username, now + SessionTtl)];
      && (t <= now + SessionTtl ==> LookupSession(created, Some(tok), t).user == Some(username))
      && (t > now + SessionTtl ==> LookupSession(created, Some(tok), t) == Lookup(None, created - {tok}))
  {
  }

  /** Logging out twice is logging out once, and a logged-out token is no longer answered. */
  lemma LogoutIdempotent(sessions: map<string, Session>, cookie: Option<string>, now: real)
    ensures LoggedOut(LoggedOut(sessions, cookie), cookie) == LoggedOut(sessions, cookie)
    ensures LookupSession(LoggedOut(sessions, cookie), cookie, now).user.None?
  {
  }

  /** An unknown user name is rejected whatever the password. */
  lemma UnknownUserRejectedFirst(users: set<string>, username: string, password: string)
    requires username !in users
    ensures CredentialError(users, username, password) == Some(UnknownUserError)
    ensures CredentialError(users, username, password) == CredentialError(users, username, PlaintextPassword)
  {
  }
}
