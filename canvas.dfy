/** The client's drawing state (client/canvas.js): the point reducer, the
    local stroke builder (`isDrawing`, `currentPath`, `pendingStroke`), the
    self-echo matcher and the per-author overlay of live path segments.
    Pixels are not modelled: an operation that draws returns what it draws. */
module CanvasClient {
  import opened Common

  /** The self-echo window: timestamps closer than this many milliseconds match. */
  const MatchWindowMs: int := 100

  /** The reducer's distance when a stroke is finished. */
  const EndStrokeMinDistance: real := 1.5

  /** Colour and size multiplier of the eraser. */
  const EraserColor: string := "#ffffff"

  /** `Math.sqrt(dx * dx + dy * dy) >= minDistance`, compared on squares;
      a distance of zero or less keeps every point. */
  function FarEnough(prev: Point, curr: Point, minDistance: real): (far: bool)
    ensures minDistance <= 0.0 ==> far
  {
    minDistance <= 0.0 ||
    (curr.x - prev.x) * (curr.x - prev.x) + (curr.y - prev.y) * (curr.y - prev.y) >= minDistance * minDistance
  }

  lemma PositiveSquare(d: real)
    requires d > 0.0
    ensures d * d > 0.0
  {
  }

  /** With a positive distance, a point that repeats the last kept one is
      never far enough. */
  lemma RepeatedPointIsDropped(p: Point, minDistance: real)
    requires minDistance > 0.0
    ensures !FarEnough(p, p, minDistance)
  {
    PositiveSquare(minDistance);
    assert (p.x - p.x) * (p.x - p.x) == 0.0 * 0.0;
  }

  /** The reducer's partial result once it has looked at the interior points
      `pts[1..i]`: the first point, then each point far enough from the last
      one kept. */
  function Kept(pts: seq<Point>, minDistance: real, i: nat): (k: seq<Point>)
    requires 1 <= i <= |pts|
    ensures 1 <= |k| <= i
    ensures k[0] == pts[0]
    ensures Subsequence(k, pts[..i])
    ensures forall j :: 1 <= j < |k| ==> FarEnough(k[j - 1], k[j], minDistance)
    decreases i
  {
    if i == 1 then
      assert pts[..1] == [pts[0]];
      [pts[0]]
    else
      var k0 := Kept(pts, minDistance, i - 1);
      assert pts[..i] == pts[..i - 1] + [pts[i - 1]];
      SubsequenceExtend(k0, pts[..i - 1], pts[i - 1]);
      if FarEnough(k0[|k0| - 1], pts[i - 1], minDistance) then
        assert (k0 + [pts[i - 1]])[..|k0|] == k0;
        k0 + [pts[i - 1]]
      else k0
  }

  /** The reducer `optimizePath` as a value: short paths are kept as they
      are; otherwise the first point, the greedily kept interior points, and
      the last point. */
  function ReducePath(pts: seq<Point>, minDistance: real): (r: seq<Point>)
    ensures |pts| <= 2 ==> r == pts
    ensures |pts| > 2 ==> |r| >= 2 && r[0] == pts[0] && r[|r| - 1] == pts[|pts| - 1]
    ensures |r| <= |pts|
    ensures Subsequence(r, pts)
    ensures forall j :: 1 <= j < |r| - 1 ==> FarEnough(r[j - 1], r[j], minDistance)
  {
    if |pts| <= 2 then
      SubsequenceReflexive(pts);
      pts
    else
      var n := |pts|;
      var k := Kept(pts, minDistance, n - 1);
      assert pts[..n - 1] + [pts[n - 1]] == pts;
      assert (k + [pts[n - 1]])[..|k|] == k;
      k + [pts[n - 1]]
  }

  lemma {:induction false} SubsequenceReflexive(s: seq<Point>)
    ensures Subsequence(s, s)
  {
    if s != [] {
      SubsequenceReflexive(s[..|s| - 1]);
    }
  }

  /** One step of the pass: the next point is appended exactly when it is far
      enough from the last point kept so far. */
  lemma KeptStep(pts: seq<Point>, minDistance: real, i: nat)
    requires 2 <= i <= |pts|
    ensures var k0 := Kept(pts, minDistance, i - 1);
      Kept(pts, minDistance, i) ==
        if FarEnough(k0[|k0| - 1], pts[i - 1], minDistance) then k0 + [pts[i - 1]] else k0
  {
  }

  /** The last point the pass has kept is one of the points it has looked at. */
  lemma {:induction false} KeptEndsAtInputPoint(pts: seq<Point>, minDistance: real, i: nat)
    requires 1 <= i <= |pts|
    ensures Kept(pts, minDistance, i)[|Kept(pts, minDistance, i)| - 1] in pts[..i]
    decreases i
  {
    if i > 1 {
      KeptEndsAtInputPoint(pts, minDistance, i - 1);
      KeptStep(pts, minDistance, i);
      assert pts[..i] == pts[..i - 1] + [pts[i - 1]];
    }
  }

  /** On a path whose consecutive points are all far enough apart, the
      reducer keeps every point it looks at. */
  lemma {:induction false} KeptOfSpacedPath(s: seq<Point>, minDistance: real, i: nat)
    requires 1 <= i <= |s|
    requires forall j :: 1 <= j < i ==> FarEnough(s[j - 1], s[j], minDistance)
    ensures Kept(s, minDistance, i) == s[..i]
  {
    if i > 1 {
      KeptOfSpacedPath(s, minDistance, i - 1);
      KeptStep(s, minDistance, i);
      assert FarEnough(s[i - 2], s[i - 1], minDistance);
      assert s[..i - 1] + [s[i - 1]] == s[..i];
    }
  }

  /** An interior point far enough from every point before it is always
      kept, whichever of those points the pass kept last. */
  lemma {:induction false} KeptContainsIsolatedPoint(pts: seq<Point>, minDistance: real, i: nat, j: nat)
    requires 1 <= j < i <= |pts|
    requires forall m :: 0 <= m < j ==> FarEnough(pts[m], pts[j], minDistance)
    ensures pts[j] in Kept(pts, minDistance, i)
    decreases i
  {
    if i > j + 1 {
      KeptContainsIsolatedPoint(pts, minDistance, i - 1, j);
    } else {
      var k0 := Kept(pts, minDistance, j);
      KeptEndsAtInputPoint(pts, minDistance, j);
      var m :| 0 <= m < j && pts[..j][m] == k0[|k0| - 1];
      assert FarEnough(k0[|k0| - 1], pts[j], minDistance);
      KeptStep(pts, minDistance, j + 1);
    }
  }

  /** The reducer keeps every interior point that is far enough from all the
      points before it, and always both ends. */
  lemma ReducePathKeepsIsolatedPoints(pts: seq<Point>, minDistance: real, j: nat)
    requires 0 < j < |pts| - 1
    requires forall m :: 0 <= m < j ==> FarEnough(pts[m], pts[j], minDistance)
    ensures pts[j] in ReducePath(pts, minDistance)
  {
    KeptContainsIsolatedPoint(pts, minDistance, |pts| - 1, j);
  }

  /** A path whose consecutive interior points are already spaced by the
      distance comes back unchanged. */
  lemma ReducePathOfSpacedPath(pts: seq<Point>, minDistance: real)
    requires forall j :: 1 <= j < |pts| - 1 ==> FarEnough(pts[j - 1], pts[j], minDistance)
    ensures ReducePath(pts, minDistance) == pts
  {
    if |pts| > 2 {
      var n := |pts|;
      KeptOfSpacedPath(pts, minDistance, n - 1);
      assert pts[..n - 1] + [pts[n - 1]] == pts;
    }
  }

  /** Reducing an already reduced path with the same distance changes nothing. */
  lemma ReducePathIdempotent(pts: seq<Point>, minDistance: real)
    ensures ReducePath(ReducePath(pts, minDistance), minDistance) == ReducePath(pts, minDistance)
  {
    ReducePathOfSpacedPath(ReducePath(pts, minDistance), minDistance);
  }

  /** `optimizePath`: one left-to-right pass pushing onto `optimized`. */
  method OptimizePath(points: seq<Point>, minDistance: real) returns (optimized: seq<Point>)
    ensures optimized == ReducePath(points, minDistance)
  {
    if |points| <= 2 {
      return points;
    }
    optimized := [points[0]];
    var i := 1;
    while i < |points| - 1
      invariant 1 <= i <= |points| - 1
      invariant optimized == Kept(points, minDistance, i)
    {
      var prev := optimized[|optimized| - 1];
      var curr := points[i];
      if FarEnough(prev, curr, minDistance) {
        optimized := optimized + [curr];
      }
      i := i + 1;
    }
    optimized := optimized + [points[|points| - 1]];
  }

  /** A finished local stroke. */
  datatype Stroke = Stroke(opId: Option<string>, userId: Option<string>, points: seq<Point>,
                           color: string, size: real, ts: int)

  /** The stroke as the object handed to the socket layer. */
  function StrokePayload(s: Stroke): (p: Payload)
    ensures p.Obj? && p.kind == Some("stroke") && p.points == Arr(s.points)
    ensures p.opId == s.opId && p.userId == s.userId && p.ts == Some(s.ts)
  {
    Obj(Some("stroke"), s.opId, s.userId, Arr(s.points), Some(s.color), Some(s.size), Some(s.ts))
  }

  /** An author's live segment, as kept in `activePathSegments`. */
  datatype Segment = Segment(points: seq<Point>, color: Option<string>, size: Option<real>)

  /** What `drawRemote` did with an incoming payload. */
  datatype EchoOutcome =
    | NotAStroke
    | Absorbed(opId: Option<string>)
    | Drawn(points: seq<Point>, color: Option<string>, size: Option<real>)

  /** The self-echo test: a pending stroke exists, the point counts agree and
      the timestamps differ by less than the window. A missing timestamp
      never matches (`Math.abs(ts - undefined)` is NaN). */
  function IsSelfEcho(pending: Option<Stroke>, p: Payload): (matched: bool)
    requires HasPoints(p, 0)
    ensures pending.None? || p.ts.None? ==> !matched
    ensures matched ==> |pending.value.points| == |p.points.pts|
    ensures matched ==> -MatchWindowMs < pending.value.ts - p.ts.value < MatchWindowMs
    ensures pending.Some? && |pending.value.points| == |p.points.pts| && p.ts == Some(pending.value.ts) ==> matched
  {
    && pending.Some?
    && |pending.value.points| == |p.points.pts|
    && p.ts.Some?
    && Abs(pending.value.ts - p.ts.value) < MatchWindowMs
  }

  /** The module state of canvas.js. */
  class Canvas {
    var isDrawing: bool
    var currentPath: seq<Point>
    var pendingStroke: Option<Stroke>
    var activePathSegments: map<string, Segment>
    var strokeColor: string
    var strokeSize: real
    var erasing: bool

    /** A gesture is in progress exactly when points are being accumulated;
        a pending stroke always has points; every overlay has at least two. */
    ghost predicate Valid()
      reads this
    {
      && (isDrawing <==> currentPath != [])
      && (pendingStroke.Some? ==> pendingStroke.value.points != [])
      && (forall u :: u in activePathSegments ==> |activePathSegments[u].points| >= 2)
    }

    constructor ()
      ensures Valid()
      ensures !isDrawing && currentPath == [] && pendingStroke == None && activePathSegments == map[]
      ensures strokeColor == "#000" && strokeSize == 4.0 && !erasing
    {
      isDrawing := false;
      currentPath := [];
      pendingStroke := None;
      activePathSegments := map[];
      strokeColor := "#000";
      strokeSize := 4.0;
      erasing := false;
    }

    /** `getCurrentColor`: white while erasing. */
    function CurrentColor(): (c: string)
      reads this
      ensures erasing ==> c == EraserColor
      ensures !erasing ==> c == strokeColor
    {
      if erasing then EraserColor else strokeColor
    }

    /** `getCurrentSize`: doubled while erasing. */
    function CurrentSize(): (s: real)
      reads this
      ensures erasing ==> s == strokeSize * 2.0
      ensures !erasing ==> s == strokeSize
    {
      if erasing then strokeSize * 2.0 else strokeSize
    }

    method SetColor(c: string)
      modifies this`strokeColor
      ensures strokeColor == c
    {
      strokeColor := c;
    }

    method SetSize(s: real)
      modifies this`strokeSize
      ensures strokeSize == s
    {
      strokeSize := s;
    }

    method SetEraser(flag: bool)
      modifies this`erasing
      ensures erasing == flag
    {
      erasing := flag;
    }

    /** `startLocalPath`: start drawing from a single point, whatever the
        state was. */
    method StartLocalPath(p: Point)
      requires Valid()
      modifies this`isDrawing, this`currentPath
      ensures Valid()
      ensures isDrawing && currentPath == [p]
    {
      isDrawing := true;
      currentPath := [p];
    }

    /** `extendLocalPath`: a no-op when not drawing; otherwise append exactly
        one point and draw the preview from the previous last point to it. */
    method ExtendLocalPath(p: Point) returns (preview: seq<Point>)
      requires Valid()
      modifies this`currentPath
      ensures Valid()
      ensures !isDrawing ==> currentPath == old(currentPath) && preview == []
      ensures isDrawing ==>
        && currentPath == old(currentPath) + [p]
        && preview == [old(currentPath)[|old(currentPath)| - 1], p]
    {
      preview := [];
      if !isDrawing {
        return;
      }
      if |currentPath| > 0 {
        preview := [currentPath[|currentPath| - 1], p];
      }
      currentPath := currentPath + [p];
    }

    /** `endLocalPath`: nothing when not drawing; otherwise stop drawing,
        reduce the path with distance 1.5 into a stroke with no `opId`, make it
        the one pending stroke, drop this user's own live overlay, and return
        the stroke. `now` is the clock, `selfId` the socket layer's user id. */
    method EndLocalPath(now: int, selfId: Option<string>) returns (s: Option<Stroke>)
      requires Valid()
      modifies this`isDrawing, this`currentPath, this`pendingStroke, this`activePathSegments
      ensures Valid()
      ensures !old(isDrawing) ==>
        && s == None
        && isDrawing == old(isDrawing) && currentPath == old(currentPath)
        && pendingStroke == old(pendingStroke) && activePathSegments == old(activePathSegments)
      ensures old(isDrawing) ==>
        && !isDrawing && currentPath == []
        && s == Some(Stroke(None, None, ReducePath(old(currentPath), EndStrokeMinDistance),
                            CurrentColor(), CurrentSize(), now))
        && pendingStroke == s
        && activePathSegments ==
             if Truthy(selfId) then old(activePathSegments) - {selfId.value} else old(activePathSegments)
    {
      if !isDrawing {
        return None;
      }
      isDrawing := false;
      var optimizedPath := OptimizePath(currentPath, EndStrokeMinDistance);
      var stroke := Stroke(None, None, optimizedPath, CurrentColor(), CurrentSize(), now);
      currentPath := [];
      pendingStroke := Some(stroke);
      if Truthy(selfId) {
        activePathSegments := activePathSegments - {selfId.value};
      }
      return Some(stroke);
    }

    /** `drawRemote`: a stroke that matches the pending one is absorbed (its
        `opId` adopted, the pending slot cleared, nothing drawn); any other
        stroke clears its author's live overlay and is drawn, leaving the
        pending stroke alone. Payloads of other types do nothing. */
    method DrawRemote(p: Payload) returns (o: EchoOutcome)
      requires Valid() && HasPoints(p, 0)
      modifies this`pendingStroke, this`activePathSegments
      ensures Valid()
      ensures p.kind != Some("stroke") ==>
        o == NotAStroke && pendingStroke == old(pendingStroke) && activePathSegments == old(activePathSegments)
      ensures p.kind == Some("stroke") && IsSelfEcho(old(pendingStroke), p) ==>
        o == Absorbed(p.opId) && pendingStroke == None && activePathSegments == old(activePathSegments)
      ensures p.kind == Some("stroke") && !IsSelfEcho(old(pendingStroke), p) ==>
        && o == Drawn(p.points.pts, p.color, p.size)
        && pendingStroke == old(pendingStroke)
        && activePathSegments ==
             if Truthy(p.userId) then old(activePathSegments) - {p.userId.value} else old(activePathSegments)
    {
      if p.kind != Some("stroke") {
        return NotAStroke;
      }
      if IsSelfEcho(pendingStroke, p) {
        pendingStroke := None;
        return Absorbed(p.opId);
      }
      if Truthy(p.userId) {
        activePathSegments := activePathSegments - {p.userId.value};
      }
      return Drawn(p.points.pts, p.color, p.size);
    }

    /** `drawPathSegment`: replace only the sender's overlay entry; a payload
        without a user id or with fewer than two points changes nothing. */
    method DrawPathSegment(p: Payload)
      requires Valid()
      modifies this`activePathSegments
      ensures Valid()
      ensures p.Obj? && Truthy(p.userId) && HasPoints(p, 2) ==>
        activePathSegments == old(activePathSegments)[p.userId.value := Segment(p.points.pts, p.color, p.size)]
      ensures !(p.Obj? && Truthy(p.userId) && HasPoints(p, 2)) ==>
        activePathSegments == old(activePathSegments)
    {
      if p.Obj? && Truthy(p.userId) && HasPoints(p, 2) {
        activePathSegments := activePathSegments[p.userId.value := Segment(p.points.pts, p.color, p.size)];
      }
    }
  }
}
