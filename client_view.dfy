/** What a client's canvas shows of its room's log, and how the events the
    server broadcasts change it. The canvas is abstracted to the list of log
    entries whose strokes it has drawn, in drawing order; for the author of
    a stroke, the locally drawn stroke stands for the entry once its echo
    has been absorbed. A client is in step with the room when this list is
    the room's active history. */
module ClientView {
  import opened Common
  import opened ActionLog
  import opened Server

  /** The server events client/websocket.js registers a handler for. */
  const HandledEvents: set<string> :=
    {"connect", "disconnect", "reconnect", "reconnect_attempt", "connect_error", "init",
     "draw_event", "cursor", "user_left", "user_joined", "users_update", "full_state"}

  /** The client as written: `init` and `full_state` replay the history they
      carry; a broadcast log entry is drawn on top; every other event,
      including the two the client has no handler for, `action_undone` and
      `action_redone`, leaves the canvas as it is. */
  function ApplyAsWritten(shown: seq<Action>, e: Emit): (r: seq<Action>)
    ensures e.event !in HandledEvents ==> r == shown
    ensures e.event == "action_undone" || e.event == "action_redone" ==> r == shown
    ensures e.event == "draw_event" && e.body.ActionBody? ==> r == shown + [e.body.action]
    ensures e.event == "full_state" && e.body.HistoryBody? ==> r == e.body.actions
  {
    if e.event == "init" && e.body.InitBody? then e.body.history
    else if e.event == "full_state" && e.body.HistoryBody? then e.body.actions
    else if e.event == "draw_event" && e.body.ActionBody? then shown + [e.body.action]
    else shown
  }

  /** The canvas after a sequence of emits, in order, as written. */
  function ApplyAllAsWritten(shown: seq<Action>, es: seq<Emit>): seq<Action>
    decreases |es|
  {
    if es == [] then shown else ApplyAllAsWritten(ApplyAsWritten(shown, es[0]), es[1..])
  }

  /** The canvas without the most recent entry carrying `opId`. */
  function RemoveLastWithOpId(shown: seq<Action>, opId: Option<string>): (r: seq<Action>)
    ensures |r| == |shown| || |r| == |shown| - 1
    ensures shown != [] && shown[|shown| - 1].opId == opId ==> r == shown[..|shown| - 1]
    ensures (forall k :: 0 <= k < |shown| ==> shown[k].opId != opId) ==> r == shown
  {
    if shown == [] then []
    else if shown[|shown| - 1].opId == opId then shown[..|shown| - 1]
    else RemoveLastWithOpId(shown[..|shown| - 1], opId) + [shown[|shown| - 1]]
  }

  /** The client with the two missing handlers: `action_undone` takes the
      undone entry off the canvas, `action_redone` draws the entry again. */
  function Apply(shown: seq<Action>, e: Emit): (r: seq<Action>)
    ensures e.event == "action_undone" && e.body.UndoneBody? ==> r == RemoveLastWithOpId(shown, e.body.opId)
    ensures e.event == "action_redone" && e.body.RedoneBody? ==> r == shown + [e.body.action]
    ensures e.event != "action_undone" && e.event != "action_redone" ==> r == ApplyAsWritten(shown, e)
  {
    if e.event == "action_undone" && e.body.UndoneBody? then RemoveLastWithOpId(shown, e.body.opId)
    else if e.event == "action_redone" && e.body.RedoneBody? then shown + [e.body.action]
    else ApplyAsWritten(shown, e)
  }

  /** The canvas after a sequence of emits, in order, with the handlers added. */
  function ApplyAll(shown: seq<Action>, es: seq<Emit>): seq<Action>
    decreases |es|
  {
    if es == [] then shown else ApplyAll(Apply(shown, es[0]), es[1..])
  }

  /** As written, a client in step with the room falls out of step at the
      first undo that takes an entry away: its canvas still shows the entry. */
  lemma {:induction false} UndoLeavesCanvasStale(l: Log)
    requires Active(l.actions) != []
    ensures ApplyAllAsWritten(Active(l.actions), UndoReply(UndoStep(l).1)) == Active(l.actions)
    ensures Active(UndoStep(l).0.actions) != Active(l.actions)
  {
    UndoRemovesLatestActive(l);
    var es := UndoReply(UndoStep(l).1);
    assert ApplyAllAsWritten(Active(l.actions), es) == ApplyAllAsWritten(Active(l.actions), es[1..]);
  }

  /** As written, a redo never reaches the canvas of any client either. */
  lemma {:induction false} RedoLeavesCanvasStale(l: Log)
    requires LogInv(l) && l.redoStack != []
    ensures ApplyAllAsWritten(Active(l.actions), RedoReply(RedoStep(l).1)) == Active(l.actions)
    ensures Active(RedoStep(l).0.actions) != Active(l.actions)
  {
    RedoAppendsToActive(l);
    var es := RedoReply(RedoStep(l).1);
    assert ApplyAllAsWritten(Active(l.actions), es) == ApplyAllAsWritten(Active(l.actions), es[1..]);
  }

  /** The concrete case: one stroke, one undo; the room's history is empty,
      the client still shows the stroke. */
  lemma SingleStrokeUndoIsNotShown(e: Action)
    requires !e.undone
    ensures ApplyAllAsWritten([e], UndoReply(UndoStep(Log([e], [])).1)) == [e]
    ensures Active(UndoStep(Log([e], [])).0.actions) == []
  {
    assert Active([e]) == [e];
    UndoLeavesCanvasStale(Log([e], []));
    UndoRemovesLatestActive(Log([e], []));
  }

  /** With the handlers added, a client in step with the room stays in step
      through an undo, whether or not it took an entry away. */
  lemma {:induction false} UndoKeepsCanvasInStep(l: Log)
    ensures ApplyAll(Active(l.actions), UndoReply(UndoStep(l).1)) == Active(UndoStep(l).0.actions)
  {
    UndoRemovesLatestActive(l);
    var act := Active(l.actions);
    var es := UndoReply(UndoStep(l).1);
    if UndoStep(l).1.Some? {
      assert ApplyAll(act, es) == ApplyAll(Apply(act, es[0]), es[1..]);
      assert Apply(act, es[0]) == act[..|act| - 1];
    }
  }

  /** With the handlers added, a client in step with the room stays in step
      through a redo. */
  lemma {:induction false} RedoKeepsCanvasInStep(l: Log)
    requires LogInv(l)
    ensures ApplyAll(Active(l.actions), RedoReply(RedoStep(l).1)) == Active(RedoStep(l).0.actions)
  {
    if l.redoStack != [] {
      RedoAppendsToActive(l);
      var es := RedoReply(RedoStep(l).1);
      assert ApplyAll(Active(l.actions), es) == ApplyAll(Apply(Active(l.actions), es[0]), es[1..]);
    }
  }

  /** A broadcast stroke keeps a client in step, with or without the added
      handlers: it is appended to the log and drawn on top. */
  lemma {:induction false} DrawKeepsCanvasInStep(l: Log, e: Action)
    requires !e.undone
    ensures Apply(Active(l.actions), Emit("draw_event", WholeRoom, ActionBody(e))) == Active(l.actions + [e])
    ensures ApplyAsWritten(Active(l.actions), Emit("draw_event", WholeRoom, ActionBody(e))) == Active(l.actions + [e])
  {
    AppendKeepsInv(l, e);
  }
}
