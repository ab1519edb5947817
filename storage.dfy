/** The per-session storage layout under the data root, the filesystem it lives on,
    and the lookup of a stored snapshot by extension priority. */
module Storage {
  import opened Wrappers
  import opened SessionIds

  type Path = string
  type Bytes = seq<bv8>

  /** `DATA_ROOT`, created when the service starts. */
  const DataRoot: Path := "calibration_data"

  /** The extensions a snapshot may have, in the order they are tried. */
  const SnapshotExts: seq<string> := ["png", "jpg", "jpeg", "webp"]

  /** `os.path.join(a, b)` on POSIX: an absolute `b` replaces `a`. */
  function Join(a: Path, b: Path): (p: Path)
    ensures |b| > 0 && b[0] == '/' ==> p == b
    ensures !(|b| > 0 && b[0] == '/') ==> |p| >= |a| + |b| && p[..|a|] == a && p[|p| - |b|..] == b
  {
    if |b| > 0 && b[0] == '/' then b
    else if a == [] || a[|a| - 1] == '/' then a + b
    else a + "/" + b
  }

  /** What `os.makedirs(p, exist_ok=True)` makes exist: `p` and every prefix of it
      that ends just before a separator. */
  function Ancestors(p: Path): (r: set<Path>)
    ensures p != [] ==> p in r
    ensures forall q | q in r :: q != [] && q <= p
  {
    assert p != [] ==> p[..|p|] == p;
    set i | 0 < i <= |p| && (i == |p| || p[i] == '/') :: p[..i]
  }

  /** Joining a relative component onto a directory that does not end in a separator
      inserts exactly one separator. */
  lemma JoinComponent(a: Path, b: Path)
    requires a != [] && a[|a| - 1] != '/' && b != [] && b[0] != '/'
    ensures Join(a, b) == a + "/" + b
  {
  }

  /** The four paths `get_user_dirs` returns. */
  datatype UserDirs = UserDirs(base: Path, snapshots: Path, annotated: Path, json: Path)

  function UserDirsOf(sid: string): UserDirs {
    var base := Join(DataRoot, sid);
    UserDirs(base, Join(base, "snapshots"), Join(base, "annotated"), Join(base, "json"))
  }

  /** The directories `get_user_dirs` makes exist. */
  function Provisioned(sid: string): set<Path> {
    var d := UserDirsOf(sid);
    Ancestors(d.snapshots) + Ancestors(d.annotated) + Ancestors(d.json)
  }

  /** A name that `os.path.join` appends as one new component. */
  predicate IsComponent(s: string) {
    s != [] && forall i | 0 <= i < |s| :: s[i] != '/'
  }

  /** `calibration_data/<sid>` and `calibration_data/<sid>/<sub>`, written out. */
  function SessionDir(sid: string): Path {
    DataRoot + "/" + sid
  }

  function SubDir(sid: string, sub: string): Path {
    SessionDir(sid) + "/" + sub
  }

  /** For a session identifier that is one path component, `get_user_dirs` returns
      `calibration_data/<sid>` and its sub-directories `snapshots`, `annotated`, `json`. */
  lemma UserDirsLayout(sid: string)
    requires IsComponent(sid)
    ensures UserDirsOf(sid) == UserDirs(SessionDir(sid), SubDir(sid, "snapshots"),
                                        SubDir(sid, "annotated"), SubDir(sid, "json"))
  {
    assert DataRoot[|DataRoot| - 1] == 'a';
    JoinComponent(DataRoot, sid);
    var base := SessionDir(sid);
    assert base[|base| - 1] == sid[|sid| - 1];
    JoinComponent(base, "snapshots");
    JoinComponent(base, "annotated");
    JoinComponent(base, "json");
  }

  lemma {:induction false} AncestorsOfSubDir(sid: string, sub: string)
    requires IsComponent(sid) && IsComponent(sub)
    ensures Ancestors(SubDir(sid, sub)) == {DataRoot, SessionDir(sid), SubDir(sid, sub)}
  {
    var p := SubDir(sid, sub);
    var n := |DataRoot|;
    assert forall i | 0 <= i < n :: p[i] == DataRoot[i] && p[i] != '/';
    assert forall i | n < i < n + 1 + |sid| :: p[i] == sid[i - n - 1];
    assert forall i | n + 1 + |sid| < i < |p| :: p[i] == sub[i - n - 2 - |sid|];
    assert p[..n] == DataRoot;
    assert p[..n + 1 + |sid|] == SessionDir(sid);
    assert p[..|p|] == p;
    assert p[n] == '/' && p[n + 1 + |sid|] == '/';
    forall q | q in Ancestors(p)
      ensures q in {DataRoot, SessionDir(sid), p}
    {
      var i :| 0 < i <= |p| && (i == |p| || p[i] == '/') && q == p[..i];
    }
  }

  lemma SubNamesAreComponents()
    ensures IsComponent("snapshots") && IsComponent("annotated") && IsComponent("json")
  {
    assert "snapshots" == ['s', 'n', 'a', 'p', 's', 'h', 'o', 't', 's'];
    assert "annotated" == ['a', 'n', 'n', 'o', 't', 'a', 't', 'e', 'd'];
    assert "json" == ['j', 's', 'o', 'n'];
  }

  /** `get_user_dirs` for a session identifier that is one path component creates exactly
      the session directory, its three sub-directories and (if missing) the data root. */
  lemma ProvisionedLayout(sid: string)
    requires IsComponent(sid)
    ensures Provisioned(sid) == {DataRoot, SessionDir(sid), SubDir(sid, "snapshots"),
                                 SubDir(sid, "annotated"), SubDir(sid, "json")}
  {
    UserDirsLayout(sid);
    SubNamesAreComponents();
    AncestorsOfSubDir(sid, "snapshots");
    AncestorsOfSubDir(sid, "annotated");
    AncestorsOfSubDir(sid, "json");
  }

  /** The leading run of `s` up to (not including) the first separator. */
  function FirstComponent(s: string): (r: string)
    ensures |r| <= |s|
  {
    if s == [] || s[0] == '/' then [] else [s[0]] + FirstComponent(s[1..])
  }

  lemma {:induction false} FirstComponentOf(c: string, rest: string)
    requires forall i | 0 <= i < |c| :: c[i] != '/'
    ensures FirstComponent(c + "/" + rest) == c
  {
    if c != [] {
      assert (c + "/" + rest)[1..] == c[1..] + "/" + rest;
      FirstComponentOf(c[1..], rest);
    }
  }

  /** The session a path under the data root belongs to. */
  function SessionOfPath(p: Path): Option<string> {
    var n := |DataRoot| + 1;
    if |p| >= n && p[..n] == DataRoot + "/" then Some(FirstComponent(p[n..])) else None
  }

  /** Every file in a session's snapshot directory is attributed to that session, so
      two sessions never share a snapshot file: the identifier is the namespace. */
  lemma SnapshotBelongsToSession(sid: string, name: string)
    requires IsComponent(sid) && IsComponent(name)
    ensures SessionOfPath(Join(UserDirsOf(sid).snapshots, name)) == Some(sid)
  {
    UserDirsLayout(sid);
    var snap := SubDir(sid, "snapshots");
    assert snap[|snap| - 1] == 's';
    JoinComponent(snap, name);
    var p := snap + "/" + name;
    var n := |DataRoot| + 1;
    assert p[..n] == DataRoot + "/";
    assert p[n..] == sid + "/" + ("snapshots/" + name);
    FirstComponentOf(sid, "snapshots/" + name);
  }

  lemma SessionsAreDisjoint(sid1: string, sid2: string, name1: string, name2: string)
    requires IsComponent(sid1) && IsComponent(sid2) && sid1 != sid2
    requires IsComponent(name1) && IsComponent(name2)
    ensures Join(UserDirsOf(sid1).snapshots, name1) != Join(UserDirsOf(sid2).snapshots, name2)
  {
    SnapshotBelongsToSession(sid1, name1);
    SnapshotBelongsToSession(sid2, name2);
  }

  /** The file `<snapDir>/<id>.<ext>` tried for the extension at position `k`. */
  function Candidate(snapDir: Path, id: string, k: nat): Path
    requires k < |SnapshotExts|
  {
    Join(snapDir, id + "." + SnapshotExts[k])
  }

  /** The position, in priority order, of the first candidate that exists, or `None`:
      the `next(...)` over the candidates in `save_calibration`. */
  function FindSnapshot(existing: set<Path>, snapDir: Path, id: string): (r: Option<nat>)
    ensures r.Some? ==> r.value < |SnapshotExts| && Candidate(snapDir, id, r.value) in existing
    ensures r.Some? ==> forall k | 0 <= k < r.value :: Candidate(snapDir, id, k) !in existing
    ensures r.None? ==> forall k | 0 <= k < |SnapshotExts| :: Candidate(snapDir, id, k) !in existing
  {
    FindFrom(existing, snapDir, id, 0)
  }

  function FindFrom(existing: set<Path>, snapDir: Path, id: string, k: nat): (r: Option<nat>)
    requires k <= |SnapshotExts|
    ensures r.Some? ==> k <= r.value < |SnapshotExts| && Candidate(snapDir, id, r.value) in existing
    ensures r.Some? ==> forall j | k <= j < r.value :: Candidate(snapDir, id, j) !in existing
    ensures r.None? ==> forall j | k <= j < |SnapshotExts| :: Candidate(snapDir, id, j) !in existing
    decreases |SnapshotExts| - k
  {
    if k == |SnapshotExts| then None
    else if Candidate(snapDir, id, k) in existing then Some(k)
    else FindFrom(existing, snapDir, id, k + 1)
  }

  /** The `for e in (...)` loop with `break` in `calibrate_page`: the extension of the
      first candidate that exists. */
  method LookupExt(existing: set<Path>, snapDir: Path, id: string) returns (ext: Option<string>)
    ensures FindSnapshot(existing, snapDir, id).None? ==> ext == None
    ensures FindSnapshot(existing, snapDir, id).Some? ==>
              ext == Some(SnapshotExts[FindSnapshot(existing, snapDir, id).value])
  {
    ext := None;
    var k := 0;
    while k < |SnapshotExts|
      invariant 0 <= k <= |SnapshotExts|
      invariant forall j | 0 <= j < k :: Candidate(snapDir, id, j) !in existing
    {
      var e := SnapshotExts[k];
      if Join(snapDir, id + "." + e) in existing {
        ext := Some(e);
        return;
      }
      k := k + 1;
    }
  }

  /** The local filesystem: the directories and the files (with their bytes) that exist. */
  class FileStore {
    var dirs: set<Path>
    var files: map<Path, Bytes>

    /** What `os.path.exists` answers true for. */
    function Existing(): set<Path>
      reads this
    {
      dirs + files.Keys
    }

    /** The filesystem as found at start-up, after `os.makedirs(DATA_ROOT, exist_ok=True)`. */
    constructor (dirs0: set<Path>, files0: map<Path, Bytes>)
      ensures dirs == dirs0 + Ancestors(DataRoot) && files == files0
    {
      dirs := dirs0 + Ancestors(DataRoot);
      files := files0;
    }

    /** `os.makedirs(p, exist_ok=True)`. */
    method MakeDirs(p: Path)
      modifies this
      ensures dirs == old(dirs) + Ancestors(p) && files == old(files)
    {
      dirs := dirs + Ancestors(p);
    }

    /** `open(p, "wb").write(data)`: creates or overwrites the file. */
    method WriteFile(p: Path, data: Bytes)
      modifies this
      ensures files == old(files)[p := data] && dirs == old(dirs)
    {
      files := files[p := data];
    }
  }

  /** `get_user_dirs(sid)`: computes the session's directories and makes them exist.
      Calling it again changes nothing. */
  method GetUserDirs(fs: FileStore, sid: string) returns (d: UserDirs)
    modifies fs
    ensures d == UserDirsOf(sid)
    ensures fs.dirs == old(fs.dirs) + Provisioned(sid) && fs.files == old(fs.files)
    ensures Provisioned(sid) <= old(fs.dirs) ==> fs.dirs == old(fs.dirs)
  {
    d := UserDirsOf(sid);
    fs.MakeDirs(d.snapshots);
    fs.MakeDirs(d.annotated);
    fs.MakeDirs(d.json);
  }

  /** What `calibrate_page` answers: the page for the snapshot's public address, or 404. */
  datatype CalibratePage = Page(imageUrl: string) | SnapshotNotFound(status: int)

  /** The file resolution of `calibrate_page`; the HTML it fills in is not modelled. */
  method CalibratePageLookup(fs: FileStore, sidIn: Option<string>, id: string) returns (page: CalibratePage)
    modifies fs
    ensures fs.dirs == old(fs.dirs) + Provisioned(SanitizeSid(sidIn)) && fs.files == old(fs.files)
    ensures var r := FindSnapshot(fs.Existing(), UserDirsOf(SanitizeSid(sidIn)).snapshots, id);
      && (r.None? ==> page == SnapshotNotFound(404))
      && (r.Some? ==> page == Page("/calib/" + SanitizeSid(sidIn) + "/snapshots/" + id + "." + SnapshotExts[r.value]))
  {
    var sid := SanitizeSid(sidIn);
    var d := GetUserDirs(fs, sid);
    var ext := LookupExt(fs.Existing(), d.snapshots, id);
    if ext.None? {
      return SnapshotNotFound(404);
    }
    page := Page("/calib/" + sid + "/snapshots/" + id + "." + ext.value);
  }
}
