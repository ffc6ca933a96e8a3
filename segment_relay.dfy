/** The pointer handlers of the client (client/main.js): a gesture's opId,
    and the live segment relay that throttles path segments (strictly more
    than 30 ms apart), buffers them, and lets a single timer send only the
    latest one. Time is the parameter `now`; the runtime's armed timers are
    the map `timers` from id to due time, and a timer going off is the
    method `FireTimer`. */
module SegmentRelay {
  import opened Common
  import opened CanvasClient
  import opened Socket

  const PathSegmentThrottleMs: int := 30
  const BatchIntervalMs: int := 50

  /** The segment buffered on a pointer move: the last two path points with
      the gesture's opId and the current colour and size. */
  function SegmentOf(opId: Option<string>, lastTwo: seq<Point>, color: string, size: real): (p: Payload)
    ensures p.Obj? && p.kind == Some("path_segment") && p.opId == opId && p.points == Arr(lastTwo)
    ensures p.userId == None
  {
    Obj(Some("path_segment"), opId, None, Arr(lastTwo), Some(color), Some(size), None)
  }

  class PointerInput {
    const canvas: Canvas
    const ws: WsClient
    var lastPathSegmentSent: int
    var pathSegmentBuffer: seq<Payload>
    var batchTimer: Option<nat>
    var timers: map<nat, int>
    var nextTimerId: nat
    var currentStrokeOpId: Option<string>

    /** At most one timer is armed, it is the one `batchTimer` names, and it
        is armed exactly while segments wait in the buffer; every buffered
        segment is a path segment of at least two points. */
    ghost predicate Valid()
      reads this, canvas
    {
      && canvas.Valid()
      && (batchTimer.None? ==> timers == map[] && pathSegmentBuffer == [])
      && (batchTimer.Some? ==> timers.Keys == {batchTimer.value} && pathSegmentBuffer != [])
      && nextTimerId > 0
      && (forall t :: t in timers ==> 0 < t < nextTimerId)
      && (forall k :: 0 <= k < |pathSegmentBuffer| ==>
            HasPoints(pathSegmentBuffer[k], 2) && pathSegmentBuffer[k].kind == Some("path_segment"))
    }

    constructor (canvas: Canvas, ws: WsClient)
      requires canvas.Valid()
      ensures Valid() && this.canvas == canvas && this.ws == ws
      ensures lastPathSegmentSent == 0 && pathSegmentBuffer == [] && batchTimer == None
      ensures timers == map[] && currentStrokeOpId == None
    {
      this.canvas := canvas;
      this.ws := ws;
      lastPathSegmentSent := 0;
      pathSegmentBuffer := [];
      batchTimer := None;
      timers := map[];
      nextTimerId := 1;
      currentStrokeOpId := None;
    }

    /** `pointerdown`: a new opId `op_<random>` for the gesture, and a new
        local path. */
    method PointerDown(p: Point, random: string)
      requires Valid()
      modifies this`currentStrokeOpId, canvas`isDrawing, canvas`currentPath
      ensures Valid()
      ensures currentStrokeOpId == Some("op_" + random)
      ensures canvas.isDrawing && canvas.currentPath == [p]
    {
      currentStrokeOpId := Some("op_" + random);
      canvas.StartLocalPath(p);
    }

    /** `pointermove`: extend the path and send the cursor; if the path was
        being drawn and more than 30 ms passed since the last buffered
        segment, buffer the last two points and arm the timer unless one is
        armed already. */
    method PointerMove(p: Point, now: int) returns (cursor: Option<Cursor>)
      requires Valid()
      modifies this`lastPathSegmentSent, this`pathSegmentBuffer, this`batchTimer, this`timers,
               this`nextTimerId, canvas`currentPath
      ensures Valid()
      ensures |timers| <= 1
      ensures cursor == ws.SendCursor(p.x, p.y)
      ensures canvas.currentPath ==
        if old(canvas.isDrawing) then old(canvas.currentPath) + [p] else old(canvas.currentPath)
      ensures old(canvas.isDrawing) && now - old(lastPathSegmentSent) > PathSegmentThrottleMs ==>
        && pathSegmentBuffer == old(pathSegmentBuffer) +
             [SegmentOf(currentStrokeOpId, [old(canvas.currentPath)[|old(canvas.currentPath)| - 1], p],
                        canvas.CurrentColor(), canvas.CurrentSize())]
        && lastPathSegmentSent == now
        && batchTimer.Some?
        && (old(batchTimer).Some? ==> batchTimer == old(batchTimer) && timers == old(timers))
        && (old(batchTimer).None? ==> timers == map[batchTimer.value := now + BatchIntervalMs])
      ensures !(old(canvas.isDrawing) && now - old(lastPathSegmentSent) > PathSegmentThrottleMs) ==>
        && pathSegmentBuffer == old(pathSegmentBuffer) && lastPathSegmentSent == old(lastPathSegmentSent)
        && batchTimer == old(batchTimer) && timers == old(timers)
    {
      var wasDrawing := canvas.isDrawing;
      var _ := canvas.ExtendLocalPath(p);
      cursor := ws.SendCursor(p.x, p.y);
      if wasDrawing && now - lastPathSegmentSent > PathSegmentThrottleMs {
        var path := canvas.currentPath;
        if |path| >= 2 {
          var lastTwo := path[|path| - 2..];
          assert lastTwo == [path[|path| - 2], p];
          pathSegmentBuffer := pathSegmentBuffer +
            [SegmentOf(currentStrokeOpId, lastTwo, canvas.CurrentColor(), canvas.CurrentSize())];
          lastPathSegmentSent := now;
          if batchTimer.None? {
            batchTimer := Some(nextTimerId);
            timers := map[nextTimerId := now + BatchIntervalMs];
            nextTimerId := nextTimerId + 1;
          }
        }
      }
    }

    /** The timer callback: send only the latest buffered segment, empty the
        buffer and disarm. */
    method FireTimer(id: nat, now: int) returns (sent: Option<Payload>)
      requires Valid() && id in timers && now >= timers[id]
      modifies this`pathSegmentBuffer, this`batchTimer, this`timers
      ensures Valid()
      ensures old(pathSegmentBuffer) != []
      ensures sent == ws.EmitPathSegment(old(pathSegmentBuffer)[|old(pathSegmentBuffer)| - 1])
      ensures sent.Some? <==> ws.isConnected
      ensures pathSegmentBuffer == [] && batchTimer == None && timers == map[]
    {
      sent := None;
      if |pathSegmentBuffer| > 0 {
        var latest := pathSegmentBuffer[|pathSegmentBuffer| - 1];
        sent := ws.EmitPathSegment(latest);
        pathSegmentBuffer := [];
      }
      batchTimer := None;
      timers := map[];
    }

    /** `pointerup`: cancel the armed timer and drop the buffer (no trailing
        segment), finish the local stroke, send it under the gesture's opId,
        and forget that opId. */
    method PointerUp(now: int) returns (sent: Option<Payload>)
      requires Valid()
      modifies this`pathSegmentBuffer, this`batchTimer, this`timers, this`currentStrokeOpId,
               canvas`isDrawing, canvas`currentPath, canvas`pendingStroke, canvas`activePathSegments
      ensures Valid()
      ensures timers == map[] && batchTimer == None && pathSegmentBuffer == []
      ensures currentStrokeOpId == None
      ensures !canvas.isDrawing && canvas.currentPath == []
      ensures !old(canvas.isDrawing) ==>
        && sent == None && canvas.pendingStroke == old(canvas.pendingStroke)
        && canvas.activePathSegments == old(canvas.activePathSegments)
      ensures old(canvas.isDrawing) ==>
        && canvas.pendingStroke == Some(Stroke(None, None, ReducePath(old(canvas.currentPath), EndStrokeMinDistance),
                                               canvas.CurrentColor(), canvas.CurrentSize(), now))
        && canvas.activePathSegments ==
             (if Truthy(ws.currentUserId) then old(canvas.activePathSegments) - {ws.currentUserId.value}
              else old(canvas.activePathSegments))
        && sent == ws.EmitStroke(StrokePayload(canvas.pendingStroke.value.(
                     opId := if Truthy(old(currentStrokeOpId)) then old(currentStrokeOpId) else None)))
        && (sent.Some? <==> ws.isConnected)
    {
      if batchTimer.Some? {
        timers := timers - {batchTimer.value};
        batchTimer := None;
      }
      pathSegmentBuffer := [];
      var stroke := canvas.EndLocalPath(now, ws.currentUserId);
      sent := None;
      if stroke.Some? {
        var s := stroke.value.(opId := OrElse(currentStrokeOpId, stroke.value.opId));
        sent := ws.EmitStroke(StrokePayload(s));
      }
      currentStrokeOpId := None;
    }
  }
}
