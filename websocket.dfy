/** The client's socket layer (client/websocket.js): connection state, the
    guards on inbound `init`, `draw_event` and `cursor` events, and the
    guards and stamping on outbound strokes and path segments. An emit is
    returned as the payload that would be sent. */
module Socket {
  import opened Common
  import opened CanvasClient

  /** Where an inbound `draw_event` goes. */
  datatype Route = Ignore | ToDrawRemote | ToDrawPathSegment

  /** The `draw_event` guard: no payload or no `type` is dropped; a stroke
      goes to `drawRemote` only with a non-empty points array; a path segment
      goes to `drawPathSegment` only with at least two points; any other type
      is ignored. */
  function DrawRoute(p: Payload): (r: Route)
    ensures p.NonObject? || !Truthy(p.kind) ==> r == Ignore
    ensures r == ToDrawRemote <==> p.Obj? && p.kind == Some("stroke") && HasPoints(p, 1)
    ensures r == ToDrawPathSegment <==> p.Obj? && p.kind == Some("path_segment") && HasPoints(p, 2)
  {
    if p.NonObject? || !Truthy(p.kind) then Ignore
    else if p.kind == Some("stroke") then
      if HasPoints(p, 1) then ToDrawRemote else Ignore
    else if p.kind == Some("path_segment") then
      if HasPoints(p, 2) then ToDrawPathSegment else Ignore
    else Ignore
  }

  /** The `init` message, as far as the core reads it. */
  datatype InitMsg = NoInit | InitMsg(userId: Option<string>, color: Option<string>)

  /** What the `draw_event` handler did. */
  datatype Dispatched = Dropped | Remote(outcome: EchoOutcome) | SegmentShown

  class WsClient {
    var isConnected: bool
    var currentUserId: Option<string>
    var currentUserColor: Option<string>

    constructor ()
      ensures !isConnected && currentUserId == None && currentUserColor == None
    {
      isConnected := false;
      currentUserId := None;
      currentUserColor := None;
    }

    /** The `connect` handler. */
    method OnConnect()
      modifies this`isConnected
      ensures isConnected
    {
      isConnected := true;
    }

    /** The `disconnect` handler: only the flag changes. */
    method OnDisconnect()
      modifies this`isConnected
      ensures !isConnected
    {
      isConnected := false;
    }

    /** The `init` handler: without a user id nothing changes; otherwise the
        id is adopted and the colour defaults to black. */
    method OnInit(data: InitMsg)
      modifies this`currentUserId, this`currentUserColor
      ensures !(data.InitMsg? && Truthy(data.userId)) ==>
        currentUserId == old(currentUserId) && currentUserColor == old(currentUserColor)
      ensures data.InitMsg? && Truthy(data.userId) ==>
        && currentUserId == data.userId
        && currentUserColor == (if Truthy(data.color) then data.color else Some("#000000"))
    {
      if data.NoInit? || !Truthy(data.userId) {
        return;
      }
      currentUserId := data.userId;
      currentUserColor := OrElse(data.color, Some("#000000"));
    }

    /** The `cursor` guard: a cursor is shown only when it carries a user id
        and both coordinates, and does not come from this client itself. */
    function CursorShown(c: Cursor): (shown: bool)
      reads this
      ensures shown ==> c.x.Some? && c.y.Some? && c.userId != currentUserId
      ensures !Truthy(c.userId) ==> !shown
      ensures Truthy(c.userId) && c.x.Some? && c.y.Some? && c.userId != currentUserId ==> shown
    {
      Truthy(c.userId) && c.x.Some? && c.y.Some? && c.userId != currentUserId
    }

    /** `emitStroke`: nothing when disconnected or without a non-empty points
        array; otherwise the stroke stamped with this client's user id, its
        type defaulting to `stroke`. */
    function EmitStroke(stroke: Payload): (sent: Option<Payload>)
      reads this
      ensures sent.Some? <==> isConnected && HasPoints(stroke, 1)
      ensures sent.Some? ==>
        && sent.value == stroke.(userId := currentUserId,
                                 kind := if Truthy(stroke.kind) then stroke.kind else Some("stroke"))
    {
      if !isConnected || !HasPoints(stroke, 1) then None
      else Some(stroke.(userId := currentUserId, kind := OrElse(stroke.kind, Some("stroke"))))
    }

    /** `emitPathSegment`: nothing when disconnected or with fewer than two
        points; otherwise the segment stamped with this client's user id, its
        type defaulting to `path_segment`. */
    function EmitPathSegment(segment: Payload): (sent: Option<Payload>)
      reads this
      ensures sent.Some? <==> isConnected && HasPoints(segment, 2)
      ensures sent.Some? ==>
        && sent.value == segment.(userId := currentUserId,
                                  kind := if Truthy(segment.kind) then segment.kind else Some("path_segment"))
    {
      if !isConnected || !HasPoints(segment, 2) then None
      else Some(segment.(userId := currentUserId, kind := OrElse(segment.kind, Some("path_segment"))))
    }

    /** `sendCursor`: the position goes out only while connected. */
    function SendCursor(x: real, y: real): (sent: Option<Cursor>)
      reads this
      ensures sent.Some? <==> isConnected
      ensures sent.Some? ==> sent.value.x == Some(x) && sent.value.y == Some(y)
    {
      if isConnected then Some(Cursor(None, Some(x), Some(y), None)) else None
    }

    /** The `draw_event` handler: route the payload, then hand it to the
        canvas; a dropped payload never touches the canvas. */
    method OnDrawEvent(canvas: Canvas, p: Payload) returns (d: Dispatched)
      requires canvas.Valid()
      modifies canvas`pendingStroke, canvas`activePathSegments
      ensures canvas.Valid()
      ensures DrawRoute(p) == Ignore ==>
        d == Dropped
        && canvas.pendingStroke == old(canvas.pendingStroke)
        && canvas.activePathSegments == old(canvas.activePathSegments)
      ensures DrawRoute(p) == ToDrawPathSegment ==>
        && d == SegmentShown && canvas.pendingStroke == old(canvas.pendingStroke)
        && canvas.activePathSegments ==
             if Truthy(p.userId) then old(canvas.activePathSegments)[p.userId.value := Segment(p.points.pts, p.color, p.size)]
             else old(canvas.activePathSegments)
      ensures DrawRoute(p) == ToDrawRemote ==>
        && d.Remote?
        && (IsSelfEcho(old(canvas.pendingStroke), p) ==>
              && d.outcome == Absorbed(p.opId) && canvas.pendingStroke == None
              && canvas.activePathSegments == old(canvas.activePathSegments))
        && (!IsSelfEcho(old(canvas.pendingStroke), p) ==>
              && d.outcome == Drawn(p.points.pts, p.color, p.size)
              && canvas.pendingStroke == old(canvas.pendingStroke)
              && canvas.activePathSegments ==
                   if Truthy(p.userId) then old(canvas.activePathSegments) - {p.userId.value}
                   else old(canvas.activePathSegments))
    {
      match DrawRoute(p)
      case Ignore =>
        d := Dropped;
      case ToDrawRemote =>
        var o := canvas.DrawRemote(p);
        d := Remote(o);
      case ToDrawPathSegment =>
        canvas.DrawPathSegment(p);
        d := SegmentShown;
    }
  }
}
