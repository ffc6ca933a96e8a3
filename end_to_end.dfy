/** Properties that connect the client and the server: what one side emits,
    the other side's guards accept, and an author's own stroke comes back as
    an echo that the matcher absorbs instead of drawing a second time. */
module EndToEnd {
  import opened Common
  import opened ActionLog
  import opened Server
  import opened CanvasClient
  import opened Socket

  /** The body of the server's `draw_event` broadcast of a log entry, as the
      client reads it: the stroke's own fields, its `type` still `stroke`. */
  function EchoPayload(e: Action): (p: Payload)
    ensures p.Obj? && p.kind == Some("stroke") && p.points == Arr(e.points)
    ensures p.opId == e.opId && p.userId == e.userId && p.ts == e.ts
  {
    Obj(Some("stroke"), e.opId, e.userId, Arr(e.points), e.color, e.size, e.ts)
  }

  /** Everything the server sends on as a `draw_event` passes the client's
      guard: an appended stroke reaches `drawRemote`, a relayed path segment
      reaches `drawPathSegment`. */
  lemma ServerOutputPassesClientGate(p: Payload, socketId: string, freshId: string, now: int)
    requires freshId != "" && now != 0
    ensures RouteDraw(p, socketId).AppendStroke? ==>
      DrawRoute(EchoPayload(Stamp(RouteDraw(p, socketId).action, freshId, now))) == ToDrawRemote
    ensures RouteDraw(p, socketId).RelayToOthers? ==>
      DrawRoute(RouteDraw(p, socketId).payload) == ToDrawPathSegment
  {
  }

  /** A stroke the client sends is appended by the server with its points
      (cut to 10 000), its opId and its timestamp. */
  lemma SentStrokeIsAppended(ws: WsClient, s: Stroke, socketId: string)
    requires ws.isConnected && s.points != []
    ensures ws.EmitStroke(StrokePayload(s)).Some?
    ensures var d := RouteDraw(ws.EmitStroke(StrokePayload(s)).value, socketId);
      && d.AppendStroke?
      && d.action.points == Truncate(s.points)
      && d.action.opId == s.opId && d.action.ts == Some(s.ts)
      && d.action.userId == (if Truthy(ws.currentUserId) then ws.currentUserId else Some(socketId))
  {
  }

  /** A path segment the timer sends is relayed by the server to the other
      members, and each of them files it under the sender's id in its overlay. */
  lemma SentSegmentReachesPeers(ws: WsClient, seg: Payload, socketId: string)
    requires ws.isConnected && HasPoints(seg, 2) && seg.kind == Some("path_segment")
    requires socketId != ""
    ensures ws.EmitPathSegment(seg).Some?
    ensures var d := RouteDraw(ws.EmitPathSegment(seg).value, socketId);
      && d.RelayToOthers?
      && DrawRoute(d.payload) == ToDrawPathSegment
      && Truthy(d.payload.userId)
      && d.payload.points == seg.points
  {
  }

  /** The self-echo: the author's pending stroke, sent and appended, comes
      back with the same point count and the same timestamp, so the author's
      matcher absorbs it; a client with no pending stroke draws it. Strokes
      of at most 10 000 points with a non-zero timestamp. */
  lemma {:induction false} SelfEchoIsAbsorbed(ws: WsClient, pending: Stroke, opId: Option<string>,
                                               socketId: string, freshId: string, now: int)
    requires ws.isConnected && pending.points != [] && |pending.points| <= MaxStrokePoints
    requires pending.ts != 0 && freshId != "" && now != 0
    ensures ws.EmitStroke(StrokePayload(pending.(opId := opId))).Some?
    ensures var d := RouteDraw(ws.EmitStroke(StrokePayload(pending.(opId := opId))).value, socketId);
      && d.AppendStroke?
      && var echo := EchoPayload(Stamp(d.action, freshId, now));
      && IsSelfEcho(Some(pending), echo)
      && !IsSelfEcho(None, echo)
      && echo.points.pts == pending.points
  {
    SentStrokeIsAppended(ws, pending.(opId := opId), socketId);
  }

  /** A stroke of more than 10 000 points is cut by the server, so its echo
      never matches the author's pending stroke: the author draws it a second
      time and the pending slot stays filled. */
  lemma {:induction false} LongStrokeEchoIsNotAbsorbed(ws: WsClient, pending: Stroke, socketId: string,
                                                        freshId: string, now: int)
    requires ws.isConnected && |pending.points| > MaxStrokePoints
    requires freshId != "" && now != 0
    ensures ws.EmitStroke(StrokePayload(pending)).Some?
    ensures var d := RouteDraw(ws.EmitStroke(StrokePayload(pending)).value, socketId);
      && d.AppendStroke?
      && !IsSelfEcho(Some(pending), EchoPayload(Stamp(d.action, freshId, now)))
  {
    SentStrokeIsAppended(ws, pending, socketId);
  }

  function Entry(id: string): Action {
    Action(Some(id), Some("u"), [Point(0.0, 0.0)], None, None, Some(1), false)
  }

  /** Three strokes s1, s2, s3; undo takes s3 away, undo again takes s2;
      redo brings s2 back; appending s4 empties the redo stack, so the next
      redo returns nothing. */
  lemma UndoRedoScenario()
    ensures
      var l0 := Log([Entry("s1"), Entry("s2"), Entry("s3")], []);
      var (l1, u1) := UndoStep(l0);
      var (l2, u2) := UndoStep(l1);
      var (l3, r3) := RedoStep(l2);
      var l4 := Log(l3.actions + [Entry("s4")], []);
      && u1 == Some(Entry("s3").(undone := true)) && Active(l1.actions) == [Entry("s1"), Entry("s2")]
      && u2 == Some(Entry("s2").(undone := true)) && Active(l2.actions) == [Entry("s1")]
      && r3 == Some(Entry("s2")) && Active(l3.actions) == [Entry("s1"), Entry("s2")]
      && RedoStep(l4).1 == None
  {
    var e1, e2, e3 := Entry("s1"), Entry("s2"), Entry("s3");
    var l0 := Log([e1, e2, e3], []);
    HighestActiveAt(l0.actions, 2);
    var l1 := Log([e1, e2, e3.(undone := true)], [2]);
    assert l0.actions[2 := e3.(undone := true)] == l1.actions;
    assert UndoStep(l0) == (l1, Some(e3.(undone := true)));
    HighestActiveAt(l1.actions, 1);
    var l2 := Log([e1, e2.(undone := true), e3.(undone := true)], [2, 1]);
    assert l1.actions[1 := e2.(undone := true)] == l2.actions;
    assert l1.redoStack + [1] == l2.redoStack;
    assert UndoStep(l1) == (l2, Some(e2.(undone := true)));
    assert LogInv(l2);
    assert l2.actions[1 := e2] == l1.actions;
    assert RedoStep(l2) == (l1, Some(e2));
    assert [e1, e2, e3.(undone := true)][..2] == [e1, e2];
    ActiveIgnoresUndoneTail(l1.actions, 2);
    assert [e1, e2.(undone := true), e3.(undone := true)][..1] == [e1];
    ActiveIgnoresUndoneTail(l2.actions, 1);
  }
}
