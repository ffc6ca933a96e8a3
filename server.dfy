/** The server's per-connection handlers (server/server.js): validation of
    inbound events, updates of the room's log and user map, and routing of
    the replies. A socket emit is an `Emit` record naming the event, the
    audience and the body; the transport itself is not modelled. */
module Server {
  import opened Common
  import opened ActionLog
  import opened Rooms

  /** Strokes longer than this are cut down to their first this-many points. */
  const MaxStrokePoints: nat := 10000

  /** Who receives an emit: `io.to(room)` reaches every socket in the room,
      the sender included (it joined on connection); `socket.to(room)` every
      socket in the room but the sender; `socket.emit` the sender alone. */
  datatype Audience = WholeRoom | OthersInRoom | SenderOnly

  datatype UserEntry = UserEntry(userId: string, color: string)

  datatype Body =
    | ActionBody(action: Action)
    | PayloadBody(payload: Payload)
    | UndoneBody(opId: Option<string>)
    | RedoneBody(opId: Option<string>, action: Action)
    | HistoryBody(actions: seq<Action>)
    | InitBody(userId: string, color: string, history: seq<Action>, users: set<UserEntry>)
    | JoinedBody(userId: string, color: string)
    | LeftBody(userId: string)
    | UsersBody(users: set<UserEntry>)
    | CursorBody(cursor: Cursor)

  datatype Emit = Emit(event: string, to: Audience, body: Body)

  /** `socket.handshake.query.room || 'main'`. */
  function RoomName(query: Option<string>): (n: string)
    ensures Truthy(query) ==> n == query.value
    ensures !Truthy(query) ==> n == "main"
  {
    if Truthy(query) then query.value else "main"
  }

  /** The `usersList` sent on join and on every membership change: one entry
      per user, carrying that user's colour. Key order is not modelled. */
  function UsersList(users: map<string, User>): (r: set<UserEntry>)
    ensures forall e :: e in r <==> e.userId in users && users[e.userId].color == e.color
  {
    set id | id in users :: UserEntry(id, users[id].color)
  }

  /** `payload.points.slice(0, 10000)` when the stroke is longer than that. */
  function Truncate(pts: seq<Point>): (r: seq<Point>)
    ensures |r| == if |pts| <= MaxStrokePoints then |pts| else MaxStrokePoints
    ensures r == pts[..|r|]
  {
    if |pts| > MaxStrokePoints then pts[..MaxStrokePoints] else pts
  }

  /** What the `draw_event` handler does with a payload. */
  datatype DrawDecision = Drop | AppendStroke(action: Action) | RelayToOthers(payload: Payload)

  /** The validation and routing of `draw_event`: non-objects are dropped;
      `userId` defaults to the socket id; a stroke needs a non-empty points
      array, is cut to 10 000 points and goes to the log; a path segment needs
      at least two points and is relayed unchanged otherwise; any other type
      has no effect. */
  function RouteDraw(p: Payload, socketId: string): (d: DrawDecision)
    ensures p.NonObject? ==> d == Drop
    ensures d.AppendStroke? <==> p.Obj? && p.kind == Some("stroke") && HasPoints(p, 1)
    ensures d.RelayToOthers? <==> p.Obj? && p.kind == Some("path_segment") && HasPoints(p, 2)
    ensures p.Obj? && p.kind != Some("stroke") && p.kind != Some("path_segment") ==> d == Drop
    ensures d.AppendStroke? ==>
      && 1 <= |d.action.points| <= MaxStrokePoints
      && |d.action.points| <= |p.points.pts|
      && d.action.points == p.points.pts[..|d.action.points|]
      && (|p.points.pts| <= MaxStrokePoints ==> d.action.points == p.points.pts)
      && d.action.points == Truncate(p.points.pts)
      && d.action.userId == (if Truthy(p.userId) then p.userId else Some(socketId))
      && d.action.opId == p.opId && d.action.ts == p.ts
      && d.action.color == p.color && d.action.size == p.size
    ensures d.RelayToOthers? ==>
      d.payload == p.(userId := if Truthy(p.userId) then p.userId else Some(socketId))
  {
    if p.NonObject? then Drop
    else
      var q := p.(userId := OrElse(p.userId, Some(socketId)));
      if q.kind == Some("stroke") then
        if !HasPoints(q, 1) then Drop
        else AppendStroke(Action(q.opId, q.userId, Truncate(q.points.pts), q.color, q.size, q.ts, false))
      else if q.kind == Some("path_segment") then
        if !HasPoints(q, 2) then Drop
        else RelayToOthers(q)
      else Drop
  }

  /** The `connection` handler: find or create the room, register the user
      with a palette colour, send `init` (the active history and the user
      list) to the new socket, and announce the user to the room. */
  method OnConnection(mgr: RoomManager, query: Option<string>, socketId: string, pick: nat)
    returns (room: Room, out: seq<Emit>)
    requires mgr.Valid() && pick < |Palette|
    requires forall n :: n in mgr.rooms ==> mgr.rooms[n].state.Valid()
    modifies mgr, mgr.rooms.Values
    ensures mgr.Valid()
    ensures forall n :: n in mgr.rooms ==> mgr.rooms[n].state.Valid()
    ensures RoomName(query) in mgr.rooms && room == mgr.rooms[RoomName(query)] && room.name == RoomName(query)
    ensures mgr.rooms == old(mgr.rooms)[RoomName(query) := room]
    ensures forall n :: n in old(mgr.rooms) && n != RoomName(query) ==>
      mgr.rooms[n].users == old(mgr.rooms[n].users)
    ensures RoomName(query) in old(mgr.rooms) ==>
      room.users == old(mgr.rooms[RoomName(query)].users)[socketId := User(socketId, Palette[pick])]
    ensures RoomName(query) !in old(mgr.rooms) ==>
      room.users == map[socketId := User(socketId, Palette[pick])] && room.state.actions == []
    ensures out == [
      Emit("init", SenderOnly,
           InitBody(socketId, Palette[pick], room.state.GetActions(), UsersList(room.users))),
      Emit("user_joined", WholeRoom, JoinedBody(socketId, Palette[pick])),
      Emit("users_update", WholeRoom, UsersBody(UsersList(room.users)))]
  {
    var name := RoomName(query);
    room := mgr.GetRoom(name);
    assert forall n :: n in old(mgr.rooms) && n != name ==>
      mgr.rooms[n] == old(mgr.rooms[n]) && mgr.rooms[n].users == old(mgr.rooms[n].users) && mgr.rooms[n] != room;
    var user := room.AddUser(socketId, pick);
    var usersList := UsersList(room.users);
    out := [
      Emit("init", SenderOnly, InitBody(socketId, user.color, room.state.GetActions(), usersList)),
      Emit("user_joined", WholeRoom, JoinedBody(socketId, user.color)),
      Emit("users_update", WholeRoom, UsersBody(usersList))];
  }

  /** The `draw_event` handler: an accepted stroke is appended to the log and
      the stamped entry goes to the whole room, sender included; an accepted
      path segment goes to everyone else and never touches the log. `freshId`
      and `now` stand for the id generator and the clock. */
  method OnDrawEvent(room: Room, socketId: string, p: Payload, freshId: string, now: int)
    returns (out: seq<Emit>)
    requires room.state.Valid() && freshId != "" && now != 0
    modifies room.state
    ensures room.state.Valid()
    ensures match RouteDraw(p, socketId)
      case Drop =>
        out == [] && room.state.Model() == old(room.state.Model())
      case RelayToOthers(q) =>
        out == [Emit("draw_event", OthersInRoom, PayloadBody(q))]
        && room.state.Model() == old(room.state.Model())
      case AppendStroke(a) =>
        var e := Stamp(a, freshId, now);
        && room.state.actions == old(room.state.actions) + [e]
        && room.state.redoStack == []
        && out == [Emit("draw_event", WholeRoom, ActionBody(e))]
  {
    match RouteDraw(p, socketId)
    case Drop =>
      out := [];
    case RelayToOthers(q) =>
      out := [Emit("draw_event", OthersInRoom, PayloadBody(q))];
    case AppendStroke(a) =>
      var e := room.state.AddAction(a, freshId, now);
      out := [Emit("draw_event", WholeRoom, ActionBody(e))];
  }

  /** The `cursor` handler: relay the payload to everyone else, tagged with
      the sender's id and, when the sender is a registered user, its colour. */
  function CursorRelay(room: Room, socketId: string, c: Cursor): (e: Emit)
    reads room
    ensures e.event == "cursor" && e.to == OthersInRoom && e.body.CursorBody?
    ensures e.body.cursor.userId == Some(socketId)
    ensures e.body.cursor.x == c.x && e.body.cursor.y == c.y
    ensures socketId in room.users ==> e.body.cursor.color == Some(room.users[socketId].color)
    ensures socketId !in room.users ==> e.body.cursor.color == None
  {
    var color := if socketId in room.users then Some(room.users[socketId].color) else None;
    Emit("cursor", OthersInRoom, CursorBody(c.(userId := Some(socketId), color := color)))
  }

  /** What the `undo` handler broadcasts for what `undo` returned: the
      undone entry's opId to the whole room, or nothing. */
  function UndoReply(undone: Option<Action>): (out: seq<Emit>)
    ensures out == [] <==> undone.None?
    ensures undone.Some? ==> out == [Emit("action_undone", WholeRoom, UndoneBody(undone.value.opId))]
  {
    if undone.Some? then [Emit("action_undone", WholeRoom, UndoneBody(undone.value.opId))] else []
  }

  /** What the `redo` handler broadcasts for what `redo` returned: the
      entry and its opId to the whole room, or nothing. */
  function RedoReply(redone: Option<Action>): (out: seq<Emit>)
    ensures out == [] <==> redone.None?
    ensures redone.Some? ==> out == [Emit("action_redone", WholeRoom, RedoneBody(redone.value.opId, redone.value))]
  {
    if redone.Some? then [Emit("action_redone", WholeRoom, RedoneBody(redone.value.opId, redone.value))] else []
  }

  /** The `undo` handler: `action_undone` goes to the whole room exactly when
      there was an active entry to undo. */
  method OnUndo(room: Room) returns (out: seq<Emit>)
    requires room.state.Valid()
    modifies room.state
    ensures room.state.Valid()
    ensures room.state.Model() == UndoStep(old(room.state.Model())).0
    ensures out != [] <==> old(room.state.GetActions()) != []
    ensures out == UndoReply(UndoStep(old(room.state.Model())).1)
  {
    UndoRemovesLatestActive(room.state.Model());
    var undone := room.state.Undo();
    out := UndoReply(undone);
  }

  /** The `redo` handler: `action_redone` goes to the whole room exactly when
      the redo stack was not empty. */
  method OnRedo(room: Room) returns (out: seq<Emit>)
    requires room.state.Valid()
    modifies room.state
    ensures room.state.Valid()
    ensures room.state.Model() == RedoStep(old(room.state.Model())).0
    ensures out != [] <==> old(room.state.redoStack) != []
    ensures out == RedoReply(RedoStep(old(room.state.Model())).1)
  {
    var redone := room.state.Redo();
    out := RedoReply(redone);
  }

  /** The `request_full_state` handler: the room's active entries, to the
      asking socket only. */
  function FullStateReply(room: Room): (e: Emit)
    reads room.state
    ensures e.event == "full_state" && e.to == SenderOnly && e.body.HistoryBody?
    ensures forall a :: a in e.body.actions ==> !a.undone
    ensures |e.body.actions| == |ActiveIndices(room.state.actions)|
    ensures forall k :: 0 <= k < |e.body.actions| ==>
      e.body.actions[k] == room.state.actions[ActiveIndices(room.state.actions)[k]]
  {
    Emit("full_state", SenderOnly, HistoryBody(room.state.GetActions()))
  }

  /** The `disconnect` handler: remove the user and tell the room, with the
      user list that no longer holds it. */
  method OnDisconnect(room: Room, socketId: string) returns (out: seq<Emit>)
    modifies room`users
    ensures room.users == old(room.users) - {socketId}
    ensures out == [Emit("user_left", WholeRoom, LeftBody(socketId)),
                    Emit("users_update", WholeRoom, UsersBody(UsersList(room.users)))]
    ensures forall e :: e in out[1].body.users ==> e.userId != socketId
  {
    room.RemoveUser(socketId);
    out := [Emit("user_left", WholeRoom, LeftBody(socketId)),
            Emit("users_update", WholeRoom, UsersBody(UsersList(room.users)))];
  }
}
