/** `sanitize_sid`: the session identifier used as a storage namespace. */
module SessionIds {
  import opened Wrappers

  /** The identifier that an empty or fully stripped input collapses to. */
  const DefaultSid: string := "public"

  /** `str.isalnum`, restricted to ASCII letters and digits. */
  predicate IsAlnum(c: char) {
    'a' <= c <= 'z' || 'A' <= c <= 'Z' || '0' <= c <= '9'
  }

  /** The characters a sanitized identifier may contain. */
  predicate IsSidChar(c: char) {
    IsAlnum(c) || c == '_' || c == '-'
  }

  predicate IsSidString(s: string) {
    forall i | 0 <= i < |s| :: IsSidChar(s[i])
  }

  /** The comprehension `[c for c in sid if c.isalnum() or c in ("_", "-")]`. */
  function Keep(s: string): (r: string)
    ensures IsSidString(r)
    ensures |r| <= |s|
  {
    if s == [] then [] else (if IsSidChar(s[0]) then [s[0]] else []) + Keep(s[1..])
  }

  /** `sanitize_sid`: `None` and the empty string, like input with nothing to keep,
      become the default identifier. */
  function SanitizeSid(sid: Option<string>): (r: string)
    ensures r != [] && IsSidString(r)
    ensures sid.None? || Keep(sid.value) == [] ==> r == DefaultSid
    ensures sid.Some? && Keep(sid.value) != [] ==> r == Keep(sid.value)
  {
    if sid.None? || sid.value == [] then DefaultSid
    else
      var s := Keep(sid.value);
      if s == [] then DefaultSid else s
  }

  /** `a` is obtained from `b` by deleting characters. */
  predicate IsSubsequence(a: string, b: string)
    decreases |b|
  {
    a == [] ||
    (b != [] && ((a[0] == b[0] && IsSubsequence(a[1..], b[1..])) || IsSubsequence(a, b[1..])))
  }

  /** Filtering distributes over concatenation. */
  lemma {:induction false} KeepAppend(a: string, b: string)
    ensures Keep(a + b) == Keep(a) + Keep(b)
  {
    if a == [] {
      assert a + b == b;
    } else {
      var head := if IsSidChar(a[0]) then [a[0]] else [];
      calc {
        Keep(a + b);
        { assert (a + b)[0] == a[0] && (a + b)[1..] == a[1..] + b; }
        head + Keep(a[1..] + b);
        { KeepAppend(a[1..], b); }
        head + (Keep(a[1..]) + Keep(b));
        (head + Keep(a[1..])) + Keep(b);
        Keep(a) + Keep(b);
      }
    }
  }

  /** The kept characters appear in the input, in their original order. */
  lemma {:induction false} KeepIsSubsequence(s: string)
    ensures IsSubsequence(Keep(s), s)
  {
    if s != [] {
      KeepIsSubsequence(s[1..]);
      if IsSidChar(s[0]) {
        assert Keep(s)[0] == s[0] && Keep(s)[1..] == Keep(s[1..]);
      } else {
        assert Keep(s) == Keep(s[1..]);
      }
    }
  }

  /** Every allowed character is kept as often as it occurs; no other character survives. */
  lemma {:induction false} KeepCounts(s: string, c: char)
    ensures multiset(Keep(s))[c] == if IsSidChar(c) then multiset(s)[c] else 0
  {
    if s != [] {
      KeepCounts(s[1..], c);
      assert s == [s[0]] + s[1..];
      assert multiset(s) == multiset([s[0]]) + multiset(s[1..]);
    }
  }

  /** An input made only of allowed characters is left as it is, and only such an input. */
  lemma {:induction false} KeepFixedPoint(s: string)
    ensures Keep(s) == s <==> IsSidString(s)
  {
    if s != [] {
      KeepFixedPoint(s[1..]);
      if !IsSidChar(s[0]) {
        assert |Keep(s)| < |s|;
      }
    }
  }

  /** Sanitizing an already sanitized identifier changes nothing. */
  lemma SanitizeIdempotent(sid: Option<string>)
    ensures SanitizeSid(Some(SanitizeSid(sid))) == SanitizeSid(sid)
  {
    KeepFixedPoint(SanitizeSid(sid));
  }

  /** A sanitized identifier never contains a path separator, so it names one directory. */
  lemma SanitizedHasNoSeparator(sid: Option<string>, i: nat)
    requires i < |SanitizeSid(sid)|
    ensures SanitizeSid(sid)[i] != '/' && SanitizeSid(sid)[i] != '.'
  {
  }
}
