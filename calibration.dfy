/** `save_calibration`: validate and clamp ten normalized points, locate the stored
    snapshot, and plan the annotation drawn on it under the (sid, id) lock. The image
    library is represented by two functions passed in; what is drawn is modelled as a
    list of drawing commands. */
module Calibration {
  import opened Wrappers
  import opened Decimal
  import opened SessionIds
  import opened Storage
  import opened Locks

  /** The number of points a calibration needs. */
  const PointCount: nat := 10

  /** A point in normalized frame coordinates. */
  datatype Point = Point(x: real, y: real)

  /** `0.0 if v < 0 else 1.0 if v > 1 else v`: the point of [0, 1] nearest to `v`. */
  function Clamp(v: real): (r: real)
    ensures 0.0 <= r <= 1.0
    ensures 0.0 <= v <= 1.0 ==> r == v
    ensures v < 0.0 ==> r == 0.0
    ensures v > 1.0 ==> r == 1.0
  {
    if v < 0.0 then 0.0 else if v > 1.0 then 1.0 else v
  }

  function Dist(a: real, b: real): real {
    if a <= b then b - a else a - b
  }

  /** No value of [0, 1] lies closer to `v` than its clamp. */
  lemma ClampIsNearest(v: real, u: real)
    requires 0.0 <= u <= 1.0
    ensures Dist(Clamp(v), v) <= Dist(u, v)
  {
  }

  lemma ClampIdempotent(v: real)
    ensures Clamp(Clamp(v)) == Clamp(v)
  {
  }

  lemma ClampMonotonic(v: real, w: real)
    requires v <= w
    ensures Clamp(v) <= Clamp(w)
  {
  }

  function ClampPoint(p: seq<real>): (q: Point)
    requires |p| == 2
  {
    Point(Clamp(p[0]), Clamp(p[1]))
  }

  /** The index of the first entry that is not a pair of numbers, if any. */
  function FirstMalformed(raw: seq<seq<real>>): (r: Option<nat>)
    ensures r.Some? ==> r.value < |raw| && |raw[r.value]| != 2
    ensures r.Some? ==> forall j | 0 <= j < r.value :: |raw[j]| == 2
    ensures r.None? ==> forall j | 0 <= j < |raw| :: |raw[j]| == 2
  {
    FirstMalformedFrom(raw, 0)
  }

  function FirstMalformedFrom(raw: seq<seq<real>>, k: nat): (r: Option<nat>)
    requires k <= |raw|
    ensures r.Some? ==> k <= r.value < |raw| && |raw[r.value]| != 2
    ensures r.Some? ==> forall j | k <= j < r.value :: |raw[j]| == 2
    ensures r.None? ==> forall j | k <= j < |raw| :: |raw[j]| == 2
    decreases |raw| - k
  {
    if k == |raw| then None
    else if |raw[k]| != 2 then Some(k)
    else FirstMalformedFrom(raw, k + 1)
  }

  function InvalidPointError(i: nat): string {
    "point[" + ToString(i) + "] invalid"
  }

  /** The outcome of the validation in `save_calibration`: the count is checked first,
      then each entry in order; the accepted points are clamped into the unit square. */
  function CheckPoints(raw: seq<seq<real>>): (r: Result<seq<Point>, string>)
  {
    if |raw| != PointCount then Failure("need 10 points")
    else match FirstMalformed(raw)
      case Some(i) => Failure(InvalidPointError(i))
      case None => Success(seq(|raw|, i requires 0 <= i < |raw| && |raw[i]| == 2 => ClampPoint(raw[i])))
  }

  /** The validating loop of `save_calibration` that builds `pts` entry by entry. */
  method ValidatePoints(raw: seq<seq<real>>) returns (r: Result<seq<Point>, string>)
    ensures r == CheckPoints(raw)
  {
    if |raw| != PointCount {
      return Failure("need 10 points");
    }
    var pts: seq<Point> := [];
    var i := 0;
    while i < |raw|
      invariant 0 <= i <= |raw|
      invariant |pts| == i
      invariant forall j | 0 <= j < i :: |raw[j]| == 2 && pts[j] == ClampPoint(raw[j])
    {
      if |raw[i]| != 2 {
        return Failure(InvalidPointError(i));
      }
      var x, y := raw[i][0], raw[i][1];
      x := if x < 0.0 then 0.0 else if x > 1.0 then 1.0 else x;
      y := if y < 0.0 then 0.0 else if y > 1.0 then 1.0 else y;
      pts := pts + [Point(x, y)];
      i := i + 1;
    }
    assert FirstMalformed(raw).None?;
    assert pts == seq(|raw|, i requires 0 <= i < |raw| && |raw[i]| == 2 => ClampPoint(raw[i]));
    return Success(pts);
  }

  /** The three ways validation ends, in the order the checks are made. */
  lemma CheckOrder(raw: seq<seq<real>>)
    ensures |raw| != PointCount ==> CheckPoints(raw) == Failure("need 10 points")
    ensures |raw| == PointCount ==> forall i | 0 <= i < |raw| && |raw[i]| != 2 &&
              (forall j | 0 <= j < i :: |raw[j]| == 2) :: CheckPoints(raw) == Failure(InvalidPointError(i))
    ensures CheckPoints(raw).Success? <==> |raw| == PointCount && forall i | 0 <= i < |raw| :: |raw[i]| == 2
  {
    if |raw| == PointCount {
      forall i | 0 <= i < |raw| && |raw[i]| != 2 && (forall j | 0 <= j < i :: |raw[j]| == 2)
        ensures CheckPoints(raw) == Failure(InvalidPointError(i))
      {
        var f := FirstMalformed(raw);
        assert f.Some? && f.value == i;
      }
    }
  }

  /** Accepted points are the input's points, in order, each coordinate clamped into [0, 1]. */
  lemma AcceptedPointsAreClamped(raw: seq<seq<real>>)
    requires CheckPoints(raw).Success?
    ensures var pts := CheckPoints(raw).value;
      && |pts| == PointCount
      && forall i | 0 <= i < |pts| ::
           && |raw[i]| == 2
           && pts[i] == Point(Clamp(raw[i][0]), Clamp(raw[i][1]))
           && 0.0 <= pts[i].x <= 1.0 && 0.0 <= pts[i].y <= 1.0
  {
  }

  /** The points as the caller would send them again. */
  function AsRaw(pts: seq<Point>): (raw: seq<seq<real>>)
    ensures |raw| == |pts|
  {
    seq(|pts|, i requires 0 <= i < |pts| => [pts[i].x, pts[i].y])
  }

  /** Sending back the echoed points is accepted and gives the same points: clamping
      twice is clamping once. */
  lemma EchoIsStable(raw: seq<seq<real>>)
    requires CheckPoints(raw).Success?
    ensures CheckPoints(AsRaw(CheckPoints(raw).value)) == CheckPoints(raw)
  {
    var pts := CheckPoints(raw).value;
    var again := AsRaw(pts);
    assert forall i | 0 <= i < |again| :: |again[i]| == 2;
    assert FirstMalformed(again).None?;
    var pts2 := CheckPoints(again).value;
    forall i | 0 <= i < |pts|
      ensures pts2[i] == pts[i]
    {
      ClampIdempotent(raw[i][0]);
      ClampIdempotent(raw[i][1]);
    }
    assert pts2 == pts;
  }

  /** Python's `int(v)`: truncation toward zero. */
  function Truncate(v: real): (n: int)
    ensures v >= 0.0 ==> 0 <= n && n as real <= v < n as real + 1.0
    ensures v < 0.0 ==> n <= 0 && n as real - 1.0 < v <= n as real
  {
    if v >= 0.0 then v.Floor else -((-v).Floor)
  }

  /** `int(v * size)`: a normalized coordinate mapped to a pixel index. */
  function Pixel(v: real, size: nat): int {
    Truncate(v * size as real)
  }

  /** A coordinate in [0, 1] lands in [0, size] and less than one pixel below its
      exact position. */
  lemma PixelInFrame(v: real, size: nat)
    requires 0.0 <= v <= 1.0
    ensures 0 <= Pixel(v, size) <= size
    ensures Pixel(v, size) as real <= v * size as real < Pixel(v, size) as real + 1.0
  {
    var t := v * size as real;
    assert 0.0 <= t <= size as real by {
      assert (1.0 - v) * size as real >= 0.0;
    }
  }

  /** The centre of the frame maps to pixel `size / 2`, within one pixel of the exact centre. */
  lemma CentreMapsToMiddle(size: nat)
    ensures Pixel(0.5, size) == size / 2
  {
    var q, m := size / 2, size % 2;
    assert size == 2 * q + m;
    assert 0.5 * size as real == q as real + 0.5 * m as real;
  }

  datatype PixelPt = PixelPt(x: int, y: int)
  datatype ImageSize = ImageSize(width: nat, height: nat)

  /** `poly`: the points in pixel coordinates of an image of the given size. */
  function Poly(pts: seq<Point>, size: ImageSize): (poly: seq<PixelPt>)
    ensures |poly| == |pts|
  {
    seq(|pts|, i requires 0 <= i < |pts| => PixelPt(Pixel(pts[i].x, size.width), Pixel(pts[i].y, size.height)))
  }

  /** Clamped points map to pixels of the image (the right and bottom edge included). */
  lemma PolyInFrame(pts: seq<Point>, size: ImageSize)
    requires forall i | 0 <= i < |pts| :: 0.0 <= pts[i].x <= 1.0 && 0.0 <= pts[i].y <= 1.0
    ensures forall i | 0 <= i < |pts| ::
      0 <= Poly(pts, size)[i].x <= size.width && 0 <= Poly(pts, size)[i].y <= size.height
  {
    forall i | 0 <= i < |pts|
      ensures 0 <= Poly(pts, size)[i].x <= size.width && 0 <= Poly(pts, size)[i].y <= size.height
    {
      PixelInFrame(pts[i].x, size.width);
      PixelInFrame(pts[i].y, size.height);
    }
  }

  datatype Rgb = Rgb(r: int, g: int, b: int)
  const Red: Rgb := Rgb(255, 0, 0)

  /** An ellipse's bounding box `(left, top, right, bottom)`. */
  datatype Box = Box(left: int, top: int, right: int, bottom: int)

  /** The three `ImageDraw` calls the annotation uses (`color` is the `fill` argument of
      `line` and `text`). */
  datatype DrawCmd =
    | Line(xy: seq<PixelPt>, color: Rgb, width: nat)
    | Ellipse(box: Box, outline: Option<Rgb>, fill: Option<Rgb>, width: nat)
    | Text(at: PixelPt, text: string, color: Rgb)

  /** The ring marker's radius `R`, the centre dot's radius, and the label's offset. */
  const RingRadius: int := 10
  const DotRadius: int := 3
  const LabelDx: int := 12
  const LabelDy: int := -14

  function BoxAround(p: PixelPt, radius: int): Box {
    Box(p.x - radius, p.y - radius, p.x + radius, p.y + radius)
  }

  /** The commands drawn for point `i`: ring, dot, then its 1-based number. */
  function PointMarkers(p: PixelPt, i: nat): (cmds: seq<DrawCmd>)
    ensures |cmds| == 3
  {
    [ Ellipse(BoxAround(p, RingRadius), Some(Red), None, 3),
      Ellipse(BoxAround(p, DotRadius), None, Some(Red), 1),
      Text(PixelPt(p.x + LabelDx, p.y + LabelDy), ToString(i + 1), Red) ]
  }

  /** The markers of the first `n` points, in drawing order. */
  function Markers(poly: seq<PixelPt>, n: nat): (cmds: seq<DrawCmd>)
    requires n <= |poly|
    ensures |cmds| == 3 * n
  {
    if n == 0 then [] else Markers(poly, n - 1) + PointMarkers(poly[n - 1], n - 1)
  }

  /** The closing polyline, drawn when there are at least two points. */
  function Outline(poly: seq<PixelPt>): seq<DrawCmd> {
    if |poly| >= 2 then [Line(poly + [poly[0]], Red, 3)] else []
  }

  /** Everything drawn on the snapshot, in drawing order. */
  function DrawPlan(poly: seq<PixelPt>): (cmds: seq<DrawCmd>)
    ensures |cmds| == |Outline(poly)| + 3 * |poly|
  {
    Outline(poly) + Markers(poly, |poly|)
  }

  /** The drawing loop `for i, (x, y) in enumerate(poly)`, preceded by the polyline. */
  method PlanDrawing(poly: seq<PixelPt>) returns (cmds: seq<DrawCmd>)
    ensures cmds == DrawPlan(poly)
  {
    cmds := [];
    if |poly| >= 2 {
      cmds := [Line(poly + [poly[0]], Red, 3)];
    }
    var i := 0;
    while i < |poly|
      invariant 0 <= i <= |poly|
      invariant cmds == Outline(poly) + Markers(poly, i)
    {
      var p := poly[i];
      var ring := Ellipse(Box(p.x - RingRadius, p.y - RingRadius, p.x + RingRadius, p.y + RingRadius), Some(Red), None, 3);
      var dot := Ellipse(Box(p.x - DotRadius, p.y - DotRadius, p.x + DotRadius, p.y + DotRadius), None, Some(Red), 1);
      var caption := Text(PixelPt(p.x + LabelDx, p.y + LabelDy), ToString(i + 1), Red);
      assert [ring, dot, caption] == PointMarkers(p, i);
      assert Markers(poly, i + 1) == Markers(poly, i) + PointMarkers(p, i);
      cmds := cmds + [ring, dot, caption];
      i := i + 1;
    }
  }

  /** Within the markers of the first `n` points, those of point `i` sit at `3 * i`. */
  lemma {:induction false} MarkersAt(poly: seq<PixelPt>, n: nat, i: nat, k: nat)
    requires i < n <= |poly| && k < 3
    ensures Markers(poly, n)[3 * i + k] == PointMarkers(poly[i], i)[k]
  {
    if i < n - 1 {
      MarkersAt(poly, n - 1, i, k);
    }
  }

  /** The polyline visits the points in order and returns to the first: the edge
      `poly[i] -> poly[(i + 1) % n]` is drawn for every `i`, the closing one included. */
  lemma OutlineIsClosed(poly: seq<PixelPt>, i: nat)
    requires |poly| >= 2 && i < |poly|
    ensures var cmd := DrawPlan(poly)[0];
      && cmd == Line(cmd.xy, Red, 3)
      && |cmd.xy| == |poly| + 1
      && cmd.xy[|poly|] == cmd.xy[0]
      && cmd.xy[i] == poly[i] && cmd.xy[i + 1] == poly[(i + 1) % |poly|]
  {
    var line := Outline(poly)[0];
    assert DrawPlan(poly)[0] == line;
    NextIndex(i, |poly|);
  }

  /** The successor of an index around a cycle of length `n`. */
  lemma NextIndex(i: nat, n: nat)
    requires i < n
    ensures (i + 1) % n == if i + 1 < n then i + 1 else 0
  {
    if i + 1 == n {
      assert (i + 1) % n == n % n == 0;
    }
  }

  /** Point `i` gets a ring and a dot centred on it and the label `str(i + 1)` above
      and to the right of it; labels tell the points apart. */
  lemma MarkersOfPoint(poly: seq<PixelPt>, i: nat)
    requires i < |poly|
    ensures var cmds := DrawPlan(poly);
      var j := |Outline(poly)| + 3 * i;
      var p := poly[i];
      && j + 2 < |cmds|
      && cmds[j] == Ellipse(Box(p.x - 10, p.y - 10, p.x + 10, p.y + 10), Some(Red), None, 3)
      && cmds[j + 1] == Ellipse(Box(p.x - 3, p.y - 3, p.x + 3, p.y + 3), None, Some(Red), 1)
      && cmds[j + 2] == Text(PixelPt(p.x + 12, p.y - 14), ToString(i + 1), Red)
      && Value(ToString(i + 1)) == i + 1
  {
    PlanAt(poly, i, 0);
    PlanAt(poly, i, 1);
    PlanAt(poly, i, 2);
    ValueOfToString(i + 1);
  }

  lemma PlanAt(poly: seq<PixelPt>, i: nat, k: nat)
    requires i < |poly| && k < 3
    ensures DrawPlan(poly)[|Outline(poly)| + 3 * i + k] == PointMarkers(poly[i], i)[k]
  {
    MarkersAt(poly, |poly|, i, k);
  }

  /** The calibration data returned inline: the zoom factor unchanged and the clamped points. */
  datatype CalibrationJson = CalibrationJson(zoomf: string, points: seq<Point>)

  datatype SaveResponse =
    | Saved(id: string, jsonInline: CalibrationJson, imageDataUrl: string, jsonUrl: string, imageUrl: string)
    | SaveFailed(error: string)

  /** What the locked stage of `save_calibration` answers for a located snapshot. A
      failure of `openImage` or `encodeJpeg` is the `TypeName: message` description of
      the exception it raised. */
  function RenderResponse(id: string, zoomf: string, pts: seq<Point>, path: Path,
                          openImage: Path -> Result<ImageSize, string>,
                          encodeJpeg: (Path, seq<DrawCmd>) -> Result<string, string>): (r: SaveResponse)
    ensures r.Saved? ==> r.id == id && r.jsonInline == CalibrationJson(zoomf, pts)
    ensures r.Saved? ==> "data:image/jpeg;base64," <= r.imageDataUrl
    ensures openImage(path).Failure? ==> r == SaveFailed(openImage(path).error)
  {
    match openImage(path)
    case Failure(e) => SaveFailed(e)
    case Success(size) =>
      match encodeJpeg(path, DrawPlan(Poly(pts, size)))
      case Failure(e) => SaveFailed(e)
      case Success(b64) =>
        Saved(id, CalibrationJson(zoomf, pts), "data:image/jpeg;base64," + b64, "json已保存", "jpeg已保存")
  }

  /** The session, the accepted points and the located snapshot file. */
  datatype SaveTarget = SaveTarget(sid: string, points: seq<Point>, snapshot: Path)

  /** The stage of `save_calibration` before the lock: validation, the session's
      directories, and the snapshot lookup. */
  method PrepareSave(fs: FileStore, id: string, raw: seq<seq<real>>, sidIn: Option<string>)
    returns (r: Result<SaveTarget, string>)
    modifies fs
    ensures CheckPoints(raw).Failure? ==>
              r == Failure(CheckPoints(raw).error) && fs.dirs == old(fs.dirs) && fs.files == old(fs.files)
    ensures CheckPoints(raw).Success? ==>
              var sid := SanitizeSid(sidIn);
              var found := FindSnapshot(fs.Existing(), UserDirsOf(sid).snapshots, id);
              && fs.dirs == old(fs.dirs) + Provisioned(sid) && fs.files == old(fs.files)
              && (found.None? ==> r == Failure("snapshot not found"))
              && (found.Some? ==>
                    r == Success(SaveTarget(sid, CheckPoints(raw).value,
                                            Candidate(UserDirsOf(sid).snapshots, id, found.value))))
  {
    var checked := ValidatePoints(raw);
    if checked.Failure? {
      return Failure(checked.error);
    }
    var sid := SanitizeSid(sidIn);
    var dirs := GetUserDirs(fs, sid);
    var found := FindSnapshot(fs.Existing(), dirs.snapshots, id);
    if found.None? {
      return Failure("snapshot not found");
    }
    r := Success(SaveTarget(sid, checked.value, Candidate(dirs.snapshots, id, found.value)));
  }

  /** The stage of `save_calibration` inside `async with get_lock(sid, id)`. */
  method RenderLocked(registry: LockRegistry, target: SaveTarget, id: string, zoomf: string,
                      openImage: Path -> Result<ImageSize, string>,
                      encodeJpeg: (Path, seq<DrawCmd>) -> Result<string, string>)
    returns (resp: SaveResponse)
    requires registry.Valid()
    modifies registry
    ensures registry.Valid()
    ensures (target.sid, id) in registry.locks
    ensures registry.locks == old(registry.locks)[(target.sid, id) := registry.locks[(target.sid, id)]]
    ensures (target.sid, id) in old(registry.locks) ==> registry.locks == old(registry.locks)
    ensures resp == RenderResponse(id, zoomf, target.points, target.snapshot, openImage, encodeJpeg)
  {
    var lock := registry.GetLock(target.sid, id);
    var json := CalibrationJson(zoomf, target.points);
    var image := openImage(target.snapshot);
    if image.Failure? {
      return SaveFailed(image.error);
    }
    var poly := Poly(target.points, image.value);
    var cmds := PlanDrawing(poly);
    var encoded := encodeJpeg(target.snapshot, cmds);
    if encoded.Failure? {
      return SaveFailed(encoded.error);
    }
    resp := Saved(id, json, "data:image/jpeg;base64," + encoded.value, "json已保存", "jpeg已保存");
  }

  /** `save_calibration`. `openImage` gives the stored image's size, `encodeJpeg` the
      base64 text of the JPEG after drawing the commands on it; either may fail, and its
      failure is the description `TypeName: message` of the exception raised, which is
      returned as the error. Every rejection happens before a lock is taken, and a lock
      already stored for `(sid, id)` is the one taken again. */
  method SaveCalibration(fs: FileStore, registry: LockRegistry, id: string, zoomf: string,
                         raw: seq<seq<real>>, sidIn: Option<string>,
                         openImage: Path -> Result<ImageSize, string>,
                         encodeJpeg: (Path, seq<DrawCmd>) -> Result<string, string>)
    returns (resp: SaveResponse)
    requires registry.Valid()
    modifies fs, registry
    ensures registry.Valid()
    ensures CheckPoints(raw).Failure? ==>
              && resp == SaveFailed(CheckPoints(raw).error)
              && fs.dirs == old(fs.dirs) && fs.files == old(fs.files)
              && registry.locks == old(registry.locks)
    ensures CheckPoints(raw).Success? ==>
              fs.dirs == old(fs.dirs) + Provisioned(SanitizeSid(sidIn)) && fs.files == old(fs.files)
    ensures CheckPoints(raw).Success? ==>
              var sid := SanitizeSid(sidIn);
              var found := FindSnapshot(fs.Existing(), UserDirsOf(sid).snapshots, id);
              && (found.None? ==>
                    resp == SaveFailed("snapshot not found") && registry.locks == old(registry.locks))
              && (found.Some? ==>
                    var path := Candidate(UserDirsOf(sid).snapshots, id, found.value);
                    && (sid, id) in registry.locks
                    && registry.locks == old(registry.locks)[(sid, id) := registry.locks[(sid, id)]]
                    && ((sid, id) in old(registry.locks) ==> registry.locks == old(registry.locks))
                    && resp == RenderResponse(id, zoomf, CheckPoints(raw).value, path, openImage, encodeJpeg))
    ensures resp.Saved? ==>
              && CheckPoints(raw).Success?
              && resp.id == id && resp.jsonInline == CalibrationJson(zoomf, CheckPoints(raw).value)
  {
    var target := PrepareSave(fs, id, raw, sidIn);
    if target.Failure? {
      return SaveFailed(target.error);
    }
    resp := RenderLocked(registry, target.value, id, zoomf, openImage, encodeJpeg);
  }
}
