/** `upload_snapshot`: store a captured frame sent as a data URL
    (`data:<type>;base64,<body>`) under the session's snapshot directory. */
module Upload {
  import opened Wrappers
  import opened SessionIds
  import opened Timestamp
  import opened Storage

  /** `str.lower`, restricted to ASCII letters. */
  function LowerChar(c: char): char {
    if 'A' <= c <= 'Z' then (c as int - 'A' as int + 'a' as int) as char else c
  }

  /** No capital letter survives; each capital becomes the letter 32 code points
      above it, and every other character is kept in place. */
  function Lower(s: string): (r: string)
    ensures |r| == |s|
    ensures forall i | 0 <= i < |r| :: !('A' <= r[i] <= 'Z')
    ensures forall i | 0 <= i < |s| :: 'A' <= s[i] <= 'Z' ==> r[i] as int == s[i] as int + 32
    ensures forall i | 0 <= i < |s| :: !('A' <= s[i] <= 'Z') ==> r[i] == s[i]
  {
    seq(|s|, i requires 0 <= i < |s| => LowerChar(s[i]))
  }

  /** Lower-casing an already lower-cased text changes nothing. */
  lemma {:induction false} LowerIdempotent(s: string)
    ensures Lower(Lower(s)) == Lower(s)
  {
    var r := Lower(s);
    forall i | 0 <= i < |r| ensures Lower(r)[i] == r[i] {
      assert !('A' <= r[i] <= 'Z');
    }
  }

  /** Python's `sub in s` on strings. */
  predicate Contains(s: string, sub: string) {
    sub <= s || (s != [] && Contains(s[1..], sub))
  }

  /** `s.split(",", 1)` when `s` holds a comma: the text before the first comma and the rest. */
  function SplitAtComma(s: string): (r: (string, string))
    requires ',' in s
    ensures r.0 + "," + r.1 == s
    ensures ',' !in r.0
  {
    if s[0] == ',' then ("", s[1..])
    else
      var (h, rest) := SplitAtComma(s[1..]);
      ([s[0]] + h, rest)
  }

  /** The file extension chosen from the data URL's header. */
  function ExtFromHeader(header: string): (ext: string)
    ensures var h := Lower(header);
      && (ext == SnapshotExts[1] <==> Contains(h, "jpeg") || Contains(h, "jpg"))
      && (ext == SnapshotExts[3] <==> !Contains(h, "jpeg") && !Contains(h, "jpg") && Contains(h, "webp"))
      && (ext == SnapshotExts[0] <==> !Contains(h, "jpeg") && !Contains(h, "jpg") && !Contains(h, "webp"))
  {
    var h := Lower(header);
    if Contains(h, "jpeg") || Contains(h, "jpg") then "jpg"
    else if Contains(h, "webp") then "webp"
    else "png"
  }

  /** `{ts}.{ext}` under the session's snapshot directory. */
  function SnapshotFile(sid: string, ts: string, ext: string): Path {
    Join(UserDirsOf(sid).snapshots, ts + "." + ext)
  }

  /** The public address returned for a stored snapshot. */
  function ImageUrl(sid: string, ts: string, ext: string): string {
    "/calib/" + sid + "/snapshots/" + ts + "." + ext
  }

  /** The file the `/calib` static mount serves for a request path: the data root
      joined with the rest of the path. */
  function ServedFile(url: string): (r: Option<Path>)
    ensures r.Some? <==> "/calib/" <= url
    ensures r.Some? ==> r.value == DataRoot + "/" + url[|"/calib/"|..]
  {
    if |url| >= 7 && url[..7] == "/calib/" then Some(DataRoot + "/" + url[7..]) else None
  }

  datatype UploadResponse =
    | Uploaded(id: string, imageUrl: string)
    | UploadFailed(error: string)

  /** `upload_snapshot`. The clock reading `now` and the base64 decoder are passed in;
      a decoding failure carries the decoder's message, as `str(e)` does. */
  method UploadSnapshot(fs: FileStore, imageData: string, sidIn: Option<string>, now: DateTime,
                        b64decode: string -> Result<Bytes, string>)
    returns (resp: UploadResponse)
    requires Valid(now)
    modifies fs
    ensures ',' !in imageData ==>
              resp == UploadFailed("invalid dataURL") && fs.dirs == old(fs.dirs) && fs.files == old(fs.files)
    ensures ',' in imageData ==>
              var sid := SanitizeSid(sidIn);
              var (header, body) := SplitAtComma(imageData);
              var ts := NowId(now);
              var ext := ExtFromHeader(header);
              && fs.dirs == old(fs.dirs) + Provisioned(sid)
              && (b64decode(body).Failure? ==>
                    resp == UploadFailed(b64decode(body).error) && fs.files == old(fs.files))
              && (b64decode(body).Success? ==>
                    && resp == Uploaded(ts, ImageUrl(sid, ts, ext))
                    && fs.files == old(fs.files)[SnapshotFile(sid, ts, ext) := b64decode(body).value])
  {
    if ',' !in imageData {
      return UploadFailed("invalid dataURL");
    }
    var sid := SanitizeSid(sidIn);
    var dirs := GetUserDirs(fs, sid);
    var (header, body) := SplitAtComma(imageData);
    var ext := ExtFromHeader(header);
    var decoded := b64decode(body);
    if decoded.Failure? {
      return UploadFailed(decoded.error);
    }
    var ts := NowId(now);
    fs.WriteFile(Join(dirs.snapshots, ts + "." + ext), decoded.value);
    resp := Uploaded(ts, ImageUrl(sid, ts, ext));
  }

  /** The header is exactly the text before the first comma, and the body all that follows it. */
  lemma {:induction false} SplitAtFirstComma(header: string, body: string)
    requires ',' !in header
    ensures SplitAtComma(header + "," + body) == (header, body)
  {
    var s := header + "," + body;
    if header == [] {
      assert s[0] == ',' && s[1..] == body;
    } else {
      assert s[0] == header[0] && s[1..] == header[1..] + "," + body;
      SplitAtFirstComma(header[1..], body);
      assert [header[0]] + header[1..] == header;
    }
  }

  /** The extension is one that the snapshot lookup tries. */
  lemma ExtIsLookedUp(header: string)
    ensures ExtFromHeader(header) in SnapshotExts
    ensures ExtFromHeader(header) != SnapshotExts[2]
  {
  }

  /** The header's letter case does not matter. */
  lemma {:induction false} ExtIgnoresCase(header: string)
    ensures ExtFromHeader(Lower(header)) == ExtFromHeader(header)
  {
    assert Lower(Lower(header)) == Lower(header);
  }

  /** The returned address is served from the file that was written, and the identifier
      in it is the 15-character `YYYYMMDD_HHMMSS` stem. */
  lemma UrlServesWrittenFile(sid: Option<string>, now: DateTime, header: string)
    requires Valid(now)
    ensures var s := SanitizeSid(sid);
            var ts := NowId(now);
            var ext := ExtFromHeader(header);
            && IsIdShape(ts)
            && ServedFile(ImageUrl(s, ts, ext)) == Some(SnapshotFile(s, ts, ext))
  {
    var ts := NowId(now);
    assert (ts + "." + ExtFromHeader(header))[0] == ts[0];
    ServedFileOf(SanitizeSid(sid), ts, ExtFromHeader(header));
  }

  lemma ServedFileOf(sid: string, ts: string, ext: string)
    requires IsComponent(sid) && ts != [] && ts[0] != '/'
    ensures ServedFile(ImageUrl(sid, ts, ext)) == Some(SnapshotFile(sid, ts, ext))
  {
    SnapshotFileLayout(sid, ts, ext);
    ServedFileOfUrl(sid, ts, ext);
  }

  lemma SnapshotFileLayout(sid: string, ts: string, ext: string)
    requires IsComponent(sid) && ts != [] && ts[0] != '/'
    ensures SnapshotFile(sid, ts, ext) == SubDir(sid, "snapshots") + "/" + (ts + "." + ext)
  {
    var snap := SubDir(sid, "snapshots");
    var name := ts + "." + ext;
    UserDirsLayout(sid);
    assert snap[|snap| - 1] == 's' && name[0] == ts[0];
    JoinComponent(snap, name);
  }

  lemma ServedFileOfUrl(sid: string, ts: string, ext: string)
    ensures ServedFile(ImageUrl(sid, ts, ext)) == Some(SubDir(sid, "snapshots") + "/" + (ts + "." + ext))
  {
    var rest := sid + "/snapshots/" + ts + "." + ext;
    var url := "/calib/" + rest;
    assert ImageUrl(sid, ts, ext) == url;
    assert url[..7] == "/calib/" && url[7..] == rest;
    assert DataRoot + "/" + rest == SubDir(sid, "snapshots") + "/" + (ts + "." + ext) by {
      assert "/snapshots/" == "/" + "snapshots" + "/";
    }
  }

  /** A snapshot just written is found again by the lookup under its identifier: the
      lookup yields a stored file of that identifier whose extension comes no later in
      priority order, and the written file itself exactly when no file of an earlier
      extension exists. */
  lemma UploadedSnapshotIsFound(existing: set<Path>, sid: string, ts: string, header: string)
    requires SnapshotFile(sid, ts, ExtFromHeader(header)) in existing
    ensures var r := FindSnapshot(existing, UserDirsOf(sid).snapshots, ts);
      && r.Some?
      && Candidate(UserDirsOf(sid).snapshots, ts, r.value) in existing
      && forall k | 0 <= k < |SnapshotExts| && SnapshotExts[k] == ExtFromHeader(header) ::
           && Candidate(UserDirsOf(sid).snapshots, ts, k) == SnapshotFile(sid, ts, ExtFromHeader(header))
           && r.value <= k
           && (r.value == k <==> forall j | 0 <= j < k :: Candidate(UserDirsOf(sid).snapshots, ts, j) !in existing)
  {
    var snap := UserDirsOf(sid).snapshots;
    var ext := ExtFromHeader(header);
    var k := if ext == "png" then 0 else if ext == "jpg" then 1 else 3;
    assert SnapshotExts[k] == ext && Candidate(snap, ts, k) in existing;
  }
}
