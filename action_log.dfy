/** A room's action log (server/drawing-state.js): an append-only list of
    drawing actions, each with an `undone` flag, and one global redo stack.
    The redo stack holds the very entries of the log (the source pushes the
    same objects), so here it holds their indices. */
module ActionLog {
  import opened Common

  /** One log entry: the stroke fields the server keeps, plus `undone`. */
  datatype Action = Action(opId: Option<string>, userId: Option<string>, points: seq<Point>,
                           color: Option<string>, size: Option<real>, ts: Option<int>,
                           undone: bool)

  /** The entry `addAction` makes of `a`: a truthy `opId` and `ts` are kept,
      missing or falsy ones are filled with a fresh id and the clock, and the
      entry starts out active. */
  function Stamp(a: Action, freshId: string, now: int): (e: Action)
    requires freshId != "" && now != 0
    ensures Truthy(e.opId) && TruthyInt(e.ts) && !e.undone
    ensures Truthy(a.opId) ==> e.opId == a.opId
    ensures !Truthy(a.opId) ==> e.opId == Some(freshId)
    ensures TruthyInt(a.ts) ==> e.ts == a.ts
    ensures !TruthyInt(a.ts) ==> e.ts == Some(now)
    ensures e.userId == a.userId && e.points == a.points && e.color == a.color && e.size == a.size
  {
    a.(opId := if Truthy(a.opId) then a.opId else Some(freshId),
       ts := if TruthyInt(a.ts) then a.ts else Some(now),
       undone := false)
  }

  /** The whole log as a value: the entries in append order and the redo
      stack, whose top is its last element. */
  datatype Log = Log(actions: seq<Action>, redoStack: seq<nat>)

  /** The log's invariant: every redo-stack entry is an undone entry of the
      log; the stack strictly decreases from bottom to top (so no entry is on
      it twice); and every active entry lies below the stack's top. */
  ghost predicate LogInv(l: Log) {
    && (forall j :: 0 <= j < |l.redoStack| ==>
          l.redoStack[j] < |l.actions| && l.actions[l.redoStack[j]].undone)
    && (forall j, k :: 0 <= j < k < |l.redoStack| ==> l.redoStack[j] > l.redoStack[k])
    && (l.redoStack != [] ==>
          forall i :: 0 <= i < |l.actions| && !l.actions[i].undone ==> i < l.redoStack[|l.redoStack| - 1])
  }

  /** The index of the most recent active entry, if any. */
  function HighestActive(s: seq<Action>): (o: Option<nat>)
    ensures o.None? ==> forall i :: 0 <= i < |s| ==> s[i].undone
    ensures o.Some? ==> o.value < |s| && !s[o.value].undone
    ensures o.Some? ==> forall k :: o.value < k < |s| ==> s[k].undone
  {
    if s == [] then None
    else if !s[|s| - 1].undone then Some(|s| - 1)
    else HighestActive(s[..|s| - 1])
  }

  /** The active entries, in append order (the source's `filter`). */
  function Active(s: seq<Action>): (r: seq<Action>)
    ensures |r| <= |s|
    ensures forall a :: a in r ==> !a.undone
  {
    if s == [] then []
    else if s[|s| - 1].undone then Active(s[..|s| - 1])
    else Active(s[..|s| - 1]) + [s[|s| - 1]]
  }

  /** The positions of the active entries, increasing. */
  function ActiveIndices(s: seq<Action>): (idx: seq<nat>)
    ensures forall k :: 0 <= k < |idx| ==> idx[k] < |s| && !s[idx[k]].undone
    ensures forall j, k :: 0 <= j < k < |idx| ==> idx[j] < idx[k]
    ensures forall i :: 0 <= i < |s| && !s[i].undone ==> i in idx
  {
    if s == [] then []
    else if s[|s| - 1].undone then ActiveIndices(s[..|s| - 1])
    else ActiveIndices(s[..|s| - 1]) + [|s| - 1]
  }

  /** `Active(s)` is exactly `s` read at the active positions, in order: it
      contains every active entry, no undone one, and keeps append order. */
  lemma {:induction false} ActiveSelection(s: seq<Action>)
    ensures |Active(s)| == |ActiveIndices(s)|
    ensures forall k :: 0 <= k < |Active(s)| ==> Active(s)[k] == s[ActiveIndices(s)[k]]
  {
    if s != [] {
      ActiveSelection(s[..|s| - 1]);
    }
  }

  /** Entries after position `n` that are all undone do not show in `Active`. */
  lemma {:induction false} ActiveIgnoresUndoneTail(s: seq<Action>, n: nat)
    requires n <= |s|
    requires forall k :: n <= k < |s| ==> s[k].undone
    ensures Active(s) == Active(s[..n])
    decreases |s| - n
  {
    if n < |s| {
      assert s[..|s| - 1][..n] == s[..n];
      ActiveIgnoresUndoneTail(s[..|s| - 1], n);
    } else {
      assert s[..n] == s;
    }
  }

  /** An active entry followed only by undone ones is the most recent active one. */
  lemma {:induction false} HighestActiveAt(s: seq<Action>, t: nat)
    requires t < |s| && !s[t].undone
    requires forall k :: t < k < |s| ==> s[k].undone
    ensures HighestActive(s) == Some(t)
    decreases |s|
  {
    if t < |s| - 1 {
      HighestActiveAt(s[..|s| - 1], t);
    }
  }

  /** `undo`: flip the most recent active entry to undone, push it on the
      redo stack and return it; change nothing and return nothing when no
      entry is active. Exactly one entry changes, and it is the newest
      active one. */
  function UndoStep(l: Log): (r: (Log, Option<Action>))
    ensures |r.0.actions| == |l.actions|
    ensures r.1.None? <==> forall i :: 0 <= i < |l.actions| ==> l.actions[i].undone
    ensures r.1.None? ==> r.0 == l
    ensures r.1.Some? ==>
      && |r.0.redoStack| == |l.redoStack| + 1
      && r.0.redoStack[..|l.redoStack|] == l.redoStack
      && var i := r.0.redoStack[|l.redoStack|];
      && i < |l.actions| && !l.actions[i].undone
      && (forall k :: i < k < |l.actions| ==> l.actions[k].undone)
      && r.1.value == l.actions[i].(undone := true)
      && r.0.actions == l.actions[i := r.1.value]
  {
    match HighestActive(l.actions)
    case None => (l, None)
    case Some(i) =>
      var flipped := l.actions[i].(undone := true);
      (Log(l.actions[i := flipped], l.redoStack + [i]), Some(flipped))
  }

  /** `redo`: pop the redo stack, flip that entry back to active and return
      it; return nothing when the stack is empty. */
  function RedoStep(l: Log): (r: (Log, Option<Action>))
    requires LogInv(l)
    ensures |r.0.actions| == |l.actions|
    ensures r.1.None? <==> l.redoStack == []
    ensures r.1.None? ==> r.0 == l
    ensures r.1.Some? ==>
      && var t := l.redoStack[|l.redoStack| - 1];
      && r.0.redoStack == l.redoStack[..|l.redoStack| - 1]
      && l.actions[t].undone
      && r.1.value == l.actions[t].(undone := false)
      && r.0.actions == l.actions[t := r.1.value]
  {
    if l.redoStack == [] then (l, None)
    else
      var t := l.redoStack[|l.redoStack| - 1];
      var restored := l.actions[t].(undone := false);
      (Log(l.actions[t := restored], l.redoStack[..|l.redoStack| - 1]), Some(restored))
  }

  /** Appending an entry (which empties the redo stack) keeps the invariant,
      and the entry becomes the last active one. */
  lemma AppendKeepsInv(l: Log, e: Action)
    requires !e.undone
    ensures LogInv(Log(l.actions + [e], []))
    ensures Active(l.actions + [e]) == Active(l.actions) + [e]
  {
    assert (l.actions + [e])[..|l.actions|] == l.actions;
  }

  /** `undo` keeps the log's length and the invariant. */
  lemma UndoKeepsInv(l: Log)
    requires LogInv(l)
    ensures |UndoStep(l).0.actions| == |l.actions|
    ensures LogInv(UndoStep(l).0)
  {
  }

  /** `redo` keeps the log's length and the invariant. */
  lemma RedoKeepsInv(l: Log)
    requires LogInv(l)
    ensures |RedoStep(l).0.actions| == |l.actions|
    ensures LogInv(RedoStep(l).0)
  {
    if l.redoStack != [] {
      var n := |l.redoStack|;
      var t := l.redoStack[n - 1];
      var l' := RedoStep(l).0;
      if n > 1 {
        var t2 := l.redoStack[n - 2];
        assert t2 > t;
        forall i | 0 <= i < |l'.actions| && !l'.actions[i].undone
          ensures i < t2
        {
          if i != t {
            assert !l.actions[i].undone;
          }
        }
      }
    }
  }

  /** `undo` returns nothing exactly when no entry is active; otherwise it
      removes the last entry of the active list and returns that entry,
      flagged undone. */
  lemma {:induction false} UndoRemovesLatestActive(l: Log)
    ensures UndoStep(l).1.None? <==> Active(l.actions) == []
    ensures UndoStep(l).1.Some? ==>
      var act := Active(l.actions);
      && Active(UndoStep(l).0.actions) == act[..|act| - 1]
      && UndoStep(l).1.value == act[|act| - 1].(undone := true)
  {
    var s := l.actions;
    match HighestActive(s)
    case None =>
      ActiveIgnoresUndoneTail(s, 0);
    case Some(i) =>
      var s' := s[i := s[i].(undone := true)];
      ActiveIgnoresUndoneTail(s, i + 1);
      ActiveIgnoresUndoneTail(s', i + 1);
      assert s[..i + 1][..i] == s[..i] == s'[..i + 1][..i];
      assert Active(s) == Active(s[..i]) + [s[i]];
  }

  /** `redo` on a non-empty stack always returns an entry, and that entry,
      flagged active again, becomes the last entry of the active list. */
  lemma {:induction false} RedoAppendsToActive(l: Log)
    requires LogInv(l) && l.redoStack != []
    ensures RedoStep(l).1.Some?
    ensures Active(RedoStep(l).0.actions) == Active(l.actions) + [RedoStep(l).1.value]
    ensures RedoStep(l).1.value == l.actions[l.redoStack[|l.redoStack| - 1]].(undone := false)
  {
    var s := l.actions;
    var t := l.redoStack[|l.redoStack| - 1];
    var s' := RedoStep(l).0.actions;
    ActiveIgnoresUndoneTail(s, t);
    ActiveIgnoresUndoneTail(s', t + 1);
    assert s'[..t + 1][..t] == s[..t];
    assert Active(s'[..t + 1]) == Active(s[..t]) + [s'[t]];
  }

  /** `undo` followed by `redo`, with no append in between, gives back the
      very same log and returns the undone entry as it was. */
  lemma UndoThenRedoRestores(l: Log)
    requires LogInv(l) && UndoStep(l).1.Some?
    ensures LogInv(UndoStep(l).0)
    ensures RedoStep(UndoStep(l).0).0 == l
    ensures RedoStep(UndoStep(l).0).1 == Some(l.actions[HighestActive(l.actions).value])
  {
    UndoKeepsInv(l);
    var i := HighestActive(l.actions).value;
    var s := l.actions;
    assert s[i := s[i].(undone := true)][i := s[i]] == s;
    assert (l.redoStack + [i])[..|l.redoStack|] == l.redoStack;
  }

  /** `redo` followed by `undo` gives back the very same log: the entry just
      redone is the most recent active one, so `undo` picks it again. */
  lemma RedoThenUndoRestores(l: Log)
    requires LogInv(l) && l.redoStack != []
    ensures UndoStep(RedoStep(l).0).0 == l
    ensures UndoStep(RedoStep(l).0).1 == Some(l.actions[l.redoStack[|l.redoStack| - 1]])
  {
    var n := |l.redoStack|;
    var t := l.redoStack[n - 1];
    var s' := RedoStep(l).0.actions;
    forall k | t < k < |s'|
      ensures s'[k].undone
    {
      assert s'[k] == l.actions[k];
    }
    HighestActiveAt(s', t);
    assert s'[t := s'[t].(undone := true)] == l.actions;
    assert l.redoStack[..n - 1] + [t] == l.redoStack;
  }

  /** The log of one room, as the server holds it. */
  class DrawingState {
    var actions: seq<Action>
    var redoStack: seq<nat>

    ghost predicate Valid()
      reads this
    {
      LogInv(Log(actions, redoStack))
    }

    function Model(): Log
      reads this
    {
      Log(actions, redoStack)
    }

    constructor ()
      ensures Valid()
      ensures actions == [] && redoStack == []
    {
      actions := [];
      redoStack := [];
    }

    /** `addAction`: append exactly one stamped, active entry at the end,
        leave every earlier entry alone, and empty the redo stack. */
    method AddAction(a: Action, freshId: string, now: int) returns (e: Action)
      requires Valid()
      requires freshId != "" && now != 0
      modifies this
      ensures Valid()
      ensures e == Stamp(a, freshId, now)
      ensures actions == old(actions) + [e]
      ensures redoStack == []
      ensures GetActions() == old(GetActions()) + [e]
    {
      e := Stamp(a, freshId, now);
      AppendKeepsInv(Model(), e);
      actions := actions + [e];
      redoStack := [];
    }

    /** `getActions`: the active entries, in append order. */
    function GetActions(): (r: seq<Action>)
      reads this
      ensures |r| == |ActiveIndices(actions)|
      ensures forall k :: 0 <= k < |r| ==> r[k] == actions[ActiveIndices(actions)[k]]
    {
      ActiveSelection(actions);
      Active(actions)
    }

    /** `undo`: scan from the newest entry backwards for an active one. */
    method Undo() returns (r: Option<Action>)
      requires Valid()
      modifies this
      ensures Valid()
      ensures Model() == UndoStep(old(Model())).0
      ensures r == UndoStep(old(Model())).1
      ensures |actions| == |old(actions)|
    {
      UndoKeepsInv(Model());
      var i := |actions|;
      while i > 0
        invariant 0 <= i <= |actions|
        invariant forall k :: i <= k < |actions| ==> actions[k].undone
      {
        i := i - 1;
        if !actions[i].undone {
          HighestActiveAt(actions, i);
          var flipped := actions[i].(undone := true);
          actions := actions[i := flipped];
          redoStack := redoStack + [i];
          return Some(flipped);
        }
      }
      assert HighestActive(actions) == None;
      return None;
    }

    /** `redo`: pop the redo stack and flag that entry active again. */
    method Redo() returns (r: Option<Action>)
      requires Valid()
      modifies this
      ensures Valid()
      ensures Model() == RedoStep(old(Model())).0
      ensures r == RedoStep(old(Model())).1
      ensures |actions| == |old(actions)|
    {
      RedoKeepsInv(Model());
      if redoStack == [] {
        return None;
      }
      var t := redoStack[|redoStack| - 1];
      redoStack := redoStack[..|redoStack| - 1];
      var restored := actions[t].(undone := false);
      actions := actions[t := restored];
      return Some(restored);
    }
  }
}
