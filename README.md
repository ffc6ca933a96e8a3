# Shared canvas: synchronisation core

A model of the part of the collaborative drawing app that keeps every
member of a room looking at the same picture. On the server, each room holds
a user map and an action log: strokes are appended, `undo` flags the most
recent active stroke as undone and pushes it on one redo stack per room,
`redo` pops that stack, and any new stroke empties it. The socket handlers
validate `draw_event` payloads (strokes are cut to 10 000 points, path
segments are relayed without touching the log) and route every reply to the
whole room, to everyone but the sender, or to the sender alone. On the
client, a finished gesture is reduced by a greedy distance filter, kept as
the one pending stroke and sent; when the server's broadcast of that stroke
comes back, the self-echo matcher (same point count, timestamps less than
100 ms apart) absorbs it instead of drawing it twice. While a gesture is in
progress, pointer moves are throttled, buffered, and a single 50 ms timer
sends only the latest path segment, which other clients show as a live
overlay per author.

Files (one module each):

- `common.dfy` (`Common`): points, the loosely typed wire payload with
  optional fields, cursor messages, JavaScript truthiness, the
  `Subsequence` relation.
- `action_log.dfy` (`ActionLog`): the log as a value (`Log`, `UndoStep`,
  `RedoStep`, `Active`) with its invariant and lemmas, and the class
  `DrawingState` whose methods are proved against those functions.
- `rooms.dfy` (`Rooms`): `Room`, `RoomManager`, the palette, and the
  as-written room lookup of the finding below.
- `server.dfy` (`Server`): the `connection`, `draw_event`, `cursor`, `undo`,
  `redo`, `request_full_state` and `disconnect` handlers; each returns the
  emits it makes as `Emit(event, audience, body)` records.
- `canvas.dfy` (`CanvasClient`): the point reducer (a loop proved against
  the function `ReducePath`), the class `Canvas` holding the local stroke
  builder, the pending stroke and the per-author overlays.
- `websocket.dfy` (`Socket`): the class `WsClient` with the connection
  state, the inbound guards and the outbound stamping.
- `segment_relay.dfy` (`SegmentRelay`): the class `PointerInput` for the
  pointer handlers, with the runtime's timers as a map from timer id to due
  time and a timer going off as the method `FireTimer`.
- `client_view.dfy` (`ClientView`): what a client's canvas shows of the
  room's log, as written and with the two missing handlers added.
- `end_to_end.dfy` (`EndToEnd`): lemmas that join a client emit to the
  server's decision and the server's broadcast back to the client's guard
  and matcher.

Three behaviours of the code are worth stating up front, because a reader
might expect otherwise. The self-echo window is 100 ms (client/canvas.js:143).
A client that loses its connection keeps its pending stroke and its overlays:
the `disconnect` handler only clears the flag (client/websocket.js:33-41).
The only client-side path processing is the distance filter
(client/canvas.js:44-59, 122); strokes are not smoothed.

`client_view.dfy` (`ClientView`) abstracts a client's canvas to the list of
log entries it has drawn, and shows that undo and redo, as the client is
written, never reach any canvas (see "## Findings").

## Model

| member | source | states |
|---|---|---|
| ActionLog.Stamp | server/drawing-state.js:11-13 | the stored entry keeps a truthy opId and ts, replaces missing or falsy ones by the fresh id and the clock, starts active, and keeps author, points, colour and size |
| ActionLog.HighestActive | server/drawing-state.js:24-31 | the index the backward scan of undo stops at is the last active entry: everything after it is undone; none exists only when every entry is undone |
| ActionLog.Active | server/drawing-state.js:19-21 | the filtered history contains no undone entry and is no longer than the log |
| ActionLog.ActiveIndices | server/drawing-state.js:19-21 | the positions of the active entries, strictly increasing, and every active position is among them |
| ActionLog.ActiveSelection | server/drawing-state.js:19-21 | the filtered history is exactly the log read at the active positions, in append order |
| ActionLog.AppendKeepsInv | server/drawing-state.js:10-17 | appending an active entry and emptying the redo stack keeps the log invariant and appends the entry to the active history |
| ActionLog.UndoStep | server/drawing-state.js:23-32 | undo returns nothing and changes nothing exactly when every entry is undone; otherwise it flips exactly one entry, the newest active one, pushes its index on the redo stack and returns it flagged undone |
| ActionLog.RedoStep | server/drawing-state.js:34-41 | redo returns nothing and changes nothing exactly when the stack is empty; otherwise it pops the top, flips exactly that (undone) entry back to active and returns it |
| ActionLog.UndoKeepsInv | server/drawing-state.js:23-32 | undo keeps the log's length and the invariant (stack entries are undone entries, strictly decreasing, above every active entry) |
| ActionLog.RedoKeepsInv | server/drawing-state.js:34-41 | redo keeps the log's length and the invariant |
| ActionLog.UndoRemovesLatestActive | server/drawing-state.js:23-32 | undo returns nothing exactly when no entry is active; otherwise it removes the last entry of the active history and returns that entry flagged undone |
| ActionLog.RedoAppendsToActive | server/drawing-state.js:34-41 | on a non-empty redo stack, redo returns the top entry flagged active, and it becomes the last entry of the active history |
| ActionLog.UndoThenRedoRestores | server/drawing-state.js:23-41 | undo then redo with nothing in between restores the whole log and redo stack, and returns the entry undo took away |
| ActionLog.RedoThenUndoRestores | server/drawing-state.js:23-41 | redo then undo restores the whole log and redo stack: the entry just redone is the one undo picks |
| ActionLog.DrawingState.constructor | server/drawing-state.js:4-8 | a new log is empty, with an empty redo stack |
| ActionLog.DrawingState.AddAction | server/drawing-state.js:10-17 | appends exactly the stamped entry, leaves earlier entries alone, empties the redo stack, extends the active history by that entry, keeps the invariant |
| ActionLog.DrawingState.GetActions | server/drawing-state.js:19-21 | returns the entries at the active positions, in append order |
| ActionLog.DrawingState.Undo | server/drawing-state.js:23-32 | the backward scan's new state and result are those of UndoStep, and the invariant holds |
| ActionLog.DrawingState.Redo | server/drawing-state.js:34-41 | the pop's new state and result are those of RedoStep, and the invariant holds |
| Rooms.RandomColor | server/room.js:17-20 | whatever the random draw, the colour is one of the ten palette colours |
| Rooms.Room.constructor | server/room.js:4-8 | a new room has its name, no users and a fresh empty log |
| Rooms.Room.AddUser | server/room.js:9-13 | the id now maps to a user with a palette colour, which is returned; every other user is unchanged |
| Rooms.Room.RemoveUser | server/room.js:14-16 | exactly that id is removed; an absent id changes nothing |
| Rooms.RoomManager.constructor | server/room.js:24-26 | the registry starts empty |
| Rooms.RoomManager.GetRoom | server/room.js:27-30 | returns the room filed under the name, creating a fresh empty one only when none exists; other rooms are untouched and no two rooms share a log |
| Rooms.PropertyLookup | server/room.js:28-29 | a property read on the registry object finds an own room, else a truthy inherited prototype member exactly for prototype names, else undefined |
| Rooms.GetRoomAsWritten | server/room.js:27-30 | the lookup as written returns an own room unchanged, creates and registers a room for an ordinary new name, and for a prototype name returns the inherited member and registers nothing |
| Rooms.GetRoomAsWrittenMissesPrototypeNames | server/room.js:27-30 | for a prototype member name, the lookup as written returns the inherited member and registers no room |
| Rooms.ConstructorRoomIsNeverCreated | server/room.js:27-30 | the first connection to room `constructor` gets the prototype member, not a room |
| Server.RoomName | server/server.js:16 | a truthy `room` query names the room; otherwise the room is `main` |
| Server.UsersList | server/server.js:22-25 | an entry is in the list exactly when its id is a user of the room and carries that user's colour |
| Server.Truncate | server/server.js:52-55 | the stored points are the first min(n, 10000) points of the stroke |
| Server.RouteDraw | server/server.js:39-65 | non-objects are dropped; a stroke is appended iff it has a non-empty points array, its stored points exactly the first min(n, 10000), its userId defaulting to the socket id; a path segment is relayed iff it has two or more points; other types do nothing |
| Server.OnConnection | server/server.js:15-35 | the room under the query's name gets the user with a palette colour (a new room is empty) and is the only registry entry added or changed, every other room keeping its users; `init` with the active history goes to the sender, `user_joined` and the user list to the whole room |
| Server.OnDrawEvent | server/server.js:37-69 | a dropped payload changes nothing; a relayed segment goes to the others and leaves the log alone; an accepted stroke is appended stamped, empties the redo stack and is broadcast to the whole room |
| Server.CursorRelay | server/server.js:71-73 | the cursor goes to the others with the sender's id and, for a registered sender, its colour |
| Server.UndoReply | server/server.js:78-80 | the undo broadcast is empty exactly when undo returned nothing; otherwise one `action_undone` with the entry's opId to the whole room |
| Server.RedoReply | server/server.js:90-92 | the redo broadcast is empty exactly when redo returned nothing; otherwise one `action_redone` with the entry and its opId to the whole room |
| Server.OnUndo | server/server.js:75-85 | the log moves as UndoStep says, and `action_undone` goes to the whole room exactly when the active history was non-empty |
| Server.OnRedo | server/server.js:87-97 | the log moves as RedoStep says, and `action_redone` goes to the whole room exactly when the redo stack was non-empty |
| Server.FullStateReply | server/server.js:99-101 | the reply to the sender holds exactly the active entries in append order, none undone |
| Server.OnDisconnect | server/server.js:103-118 | the user is removed, `user_left` goes to the room, and the new user list no longer holds that id |
| CanvasClient.FarEnough | client/canvas.js:50-53 | a distance of zero or less keeps every point |
| CanvasClient.RepeatedPointIsDropped | client/canvas.js:50-53 | with a positive distance, a point equal to the last kept one is never kept |
| CanvasClient.Kept | client/canvas.js:46-56 | the greedy pass over a prefix starts with the first point, is a subsequence of the prefix, and keeps only points far enough from the previously kept one |
| CanvasClient.ReducePath | client/canvas.js:44-59 | paths of at most two points are unchanged; otherwise the first and last points stay, the result is an order-preserving subsequence no longer than the input, and kept interior points are spaced by the distance |
| CanvasClient.KeptOfSpacedPath | client/canvas.js:47-56 | on a path whose consecutive points are already spaced, the pass keeps every point |
| CanvasClient.KeptStep | client/canvas.js:47-56 | one step of the pass appends the next point exactly when it is far enough from the last point kept |
| CanvasClient.KeptEndsAtInputPoint | client/canvas.js:47-56 | the last point the pass has kept is one of the points it has looked at |
| CanvasClient.KeptContainsIsolatedPoint | client/canvas.js:47-56 | an interior point far enough from every earlier point is always kept by the pass |
| CanvasClient.ReducePathKeepsIsolatedPoints | client/canvas.js:44-59 | the reducer keeps every interior point that is far enough from all points before it |
| CanvasClient.ReducePathOfSpacedPath | client/canvas.js:44-59 | a path whose consecutive points are already spaced comes back unchanged |
| CanvasClient.ReducePathIdempotent | client/canvas.js:44-59 | reducing an already reduced path with the same distance changes nothing |
| CanvasClient.OptimizePath | client/canvas.js:44-59 | the loop returns exactly ReducePath of its input |
| CanvasClient.StrokePayload | client/canvas.js:123-131 | a finished stroke goes on the wire typed `stroke`, with its points, opId, author and timestamp |
| CanvasClient.IsSelfEcho | client/canvas.js:141-143 | no pending stroke or no timestamp never matches; a match has equal point counts and timestamps less than 100 ms apart; the author's own unchanged stroke always matches |
| CanvasClient.Canvas.constructor | client/canvas.js:27-33 | not drawing, empty path, no pending stroke, no overlays, black, size 4, no eraser |
| CanvasClient.Canvas.CurrentColor | client/canvas.js:169 | white while erasing, the stroke colour otherwise |
| CanvasClient.Canvas.CurrentSize | client/canvas.js:170 | doubled while erasing, the stroke size otherwise |
| CanvasClient.Canvas.SetColor | client/canvas.js:165 | the stroke colour becomes the argument |
| CanvasClient.Canvas.SetSize | client/canvas.js:166 | the stroke size becomes the argument |
| CanvasClient.Canvas.SetEraser | client/canvas.js:167 | the eraser flag becomes the argument |
| CanvasClient.Canvas.StartLocalPath | client/canvas.js:105-109 | drawing starts from the single given point, whatever the previous state |
| CanvasClient.Canvas.ExtendLocalPath | client/canvas.js:110-118 | when not drawing nothing changes; otherwise exactly one point is appended and the preview joins the previous last point to it |
| CanvasClient.Canvas.EndLocalPath | client/canvas.js:119-138 | when not drawing nothing changes; otherwise drawing stops, the reduced path becomes the one pending stroke with the current colour and size, the user's own overlay is dropped, and the stroke is returned |
| CanvasClient.Canvas.DrawRemote | client/canvas.js:139-153 | a matching stroke is absorbed and clears the pending slot; any other stroke is drawn, clears its author's overlay and leaves the pending stroke alone; other types change nothing |
| CanvasClient.Canvas.DrawPathSegment | client/canvas.js:154-163 | only the sender's overlay entry is replaced, and only for a payload with an author and two or more points |
| Socket.DrawRoute | client/websocket.js:95-119 | a payload reaches drawRemote iff it is a stroke with a non-empty points array, drawPathSegment iff it is a path segment with two or more points; payloads without a type are ignored |
| Socket.WsClient.constructor | client/websocket.js:17-19 | starts disconnected, with no user id and no colour |
| Socket.WsClient.OnConnect | client/websocket.js:22-23 | the client is connected |
| Socket.WsClient.OnDisconnect | client/websocket.js:33-34 | the client is disconnected; nothing else changes |
| Socket.WsClient.OnInit | client/websocket.js:71-79 | without a truthy user id nothing changes; otherwise the id is adopted and the colour defaults to black |
| Socket.WsClient.CursorShown | client/websocket.js:121-129 | a cursor is shown iff it carries a user id and both coordinates and is not this client's own |
| Socket.WsClient.EmitStroke | client/websocket.js:218-236 | a stroke is sent iff connected and it has a non-empty points array, stamped with this client's user id, type defaulting to `stroke` |
| Socket.WsClient.EmitPathSegment | client/websocket.js:238-254 | a segment is sent iff connected and it has two or more points, stamped with this client's user id, type defaulting to `path_segment` |
| Socket.WsClient.SendCursor | client/websocket.js:256-268 | the position is sent iff connected |
| Socket.WsClient.OnDrawEvent | client/websocket.js:95-119 | a rejected payload touches nothing; a path segment replaces its author's overlay; a self-echo stroke is absorbed and leaves the overlays alone; any other stroke is drawn, clears only its author's overlay and keeps the pending stroke |
| SegmentRelay.SegmentOf | client/main.js:99-105 | the buffered segment is a path segment with the gesture's opId and the last two path points |
| SegmentRelay.PointerInput.constructor | client/main.js:8-15 | nothing buffered, no timer armed, no gesture opId |
| SegmentRelay.PointerInput.PointerDown | client/main.js:63-77 | the gesture gets the opId `op_` followed by the random part, and a new local path starts at the point |
| SegmentRelay.PointerInput.PointerMove | client/main.js:83-123 | the path grows by the point while drawing, the cursor is sent; a segment is buffered only if more than 30 ms passed since the last one, and at most one timer is armed, exactly while segments wait |
| SegmentRelay.PointerInput.FireTimer | client/main.js:110-117 | only the latest buffered segment is sent (iff connected), the buffer empties and the timer is disarmed |
| SegmentRelay.PointerInput.PointerUp | client/main.js:129-146 | the timer is cancelled and the buffer dropped; with no gesture in progress nothing else changes; otherwise the pending stroke is exactly the reduced path with the current colour, size and clock, this user's own overlay is dropped, and the stroke is sent under the gesture's opId (iff connected); the opId is forgotten |
| EndToEnd.EchoPayload | server/server.js:57-58 | the broadcast of a log entry reaches the client as a stroke with the entry's points, opId, author and timestamp |
| EndToEnd.ServerOutputPassesClientGate | server/server.js:46-65 | every stroke the server appends and broadcasts passes the client's drawRemote guard; every segment it relays passes the drawPathSegment guard |
| EndToEnd.SentStrokeIsAppended | client/websocket.js:218-236 | a stroke a connected client sends is appended with its points cut to 10 000, its opId, its timestamp, and the client's id (or the socket id) as author |
| EndToEnd.SentSegmentReachesPeers | client/websocket.js:238-254 | a segment a connected client sends is relayed to the other members with an author, and reaches their overlay |
| EndToEnd.SelfEchoIsAbsorbed | client/canvas.js:139-147 | the author's own stroke of at most 10 000 points comes back matching the pending stroke, so it is absorbed; a client with no pending stroke draws it |
| EndToEnd.LongStrokeEchoIsNotAbsorbed | server/server.js:52-55 | a stroke of more than 10 000 points comes back cut, never matches the pending stroke, and is drawn a second time by its author |
| EndToEnd.UndoRedoScenario | server/drawing-state.js:10-41 | with strokes s1, s2, s3: undo takes s3, undo takes s2, redo returns s2, and after appending s4 redo returns nothing |
| ClientView.ApplyAsWritten | client/websocket.js:71-216 | `init` and `full_state` replace the canvas by the history they carry, a broadcast entry is drawn on top, and every event without a handler, `action_undone` and `action_redone` included, leaves the canvas as it is |
| ClientView.UndoLeavesCanvasStale | client/websocket.js:71-216 | as written, after an undo that takes an entry away, a client that was in step still shows the old history, which is no longer the room's |
| ClientView.RedoLeavesCanvasStale | client/websocket.js:71-216 | as written, after a redo, a client that was in step still shows the old history, which is no longer the room's |
| ClientView.SingleStrokeUndoIsNotShown | client/websocket.js:71-216 | one stroke then one undo: the room's history is empty, the client still shows the stroke |
| ClientView.Apply | client/websocket.js:71-216 | with the handlers added, `action_undone` removes the most recent shown entry with that opId and `action_redone` draws the entry on top; other events behave as written |
| ClientView.UndoKeepsCanvasInStep | server/server.js:75-85 | with the handlers added, a client showing the room's active history still shows it after any undo broadcast |
| ClientView.RedoKeepsCanvasInStep | server/server.js:87-97 | with the handlers added, a client showing the room's active history still shows it after any redo broadcast |
| ClientView.DrawKeepsCanvasInStep | server/server.js:57-58 | a broadcast stroke keeps a client that was in step in step, as written and with the handlers added |

## Left out

- Rendering: `drawStroke`, `replay`, `redrawActiveSegments`, canvas resizing and the device-pixel scaling; operations that draw return what they would draw.
- `getCanvasCoords` and `getXY`: points are taken to be canvas coordinates already, because the DOM geometry is not part of the synchronisation logic.
- The DOM for remote cursors, the user list and the status indicator; the client's `user_joined`, `user_left`, `users_update` and reconnect handlers, which only update that DOM or re-request state. The `init` and `full_state` replays are modelled in `ClientView` as replacing the shown history. The client registers no handler for `action_undone` or `action_redone` (see "## Findings").
- The Socket.IO and Express transport, `socket.join` and socket ids: the handlers return `Emit` records with an audience, and the room a socket joined is the room passed in.
- Randomness: the server's id generator, `Math.random` in `randomColor` and the random part of `generateOpId` are parameters (`freshId`, `pick`, `random`).
- Clocks and timers: `Date.now()` is the parameter `now`; `setTimeout`/`clearTimeout` are the `timers` map and `FireTimer`.
- Floating point: coordinates and sizes are reals; the reducer compares squared distances instead of taking `Math.sqrt`, so rounding is not modelled.
- Exceptions: the `try`/`catch` branches of the handlers and the `error` emits in the undo and redo handlers; the typed payload model cannot make them throw.
- ActionLog.DrawingState.AddAction: the source stores the caller's payload object itself and later mutates it; the model stores a value, so aliasing between the log and the emitted object is not modelled.
- CanvasClient.Canvas.DrawRemote: the source writes the echo's opId into the pending stroke object just before dropping it; the model reports the opId in the outcome instead.
- SegmentRelay.PointerInput.PointerUp: the source writes the gesture opId (and, in `emitStroke`, the user id and type) into the stroke object that is also the pending stroke; the model's pending stroke keeps `opId` and `userId` empty, which the matcher never reads.
- Socket.DrawRoute: an array payload counts as an object without a `type`; `payload.ts === null` (which JavaScript coerces to 0 in the matcher) is treated like a missing timestamp.
- Server.UsersList: the list is a set; the order `Object.keys` gives is not modelled.
- Server.CursorRelay: only `x`, `y`, `userId` and `color` of the spread cursor payload are modelled.
- The `_setCurrentOpId` call in `pointerdown`: the canvas API has no such member, so the call does nothing.
- The presence checks for `window.wsAPI` and `window.canvasAPI`: both are taken to be present.
- The `require('./rooms')` path in server/server.js, which does not match the file server/room.js; the model links the two modules directly.
- server/server.js's static file serving and port binding.

## Findings

| source | as written | input that shows it | evidently intended | confidence | as-written member | corrected member |
|---|---|---|---|---|---|---|
| server/room.js:27-30 | `getRoom` tests `this.rooms[name]` on a plain object, so a name inherited from `Object.prototype` reads as an existing room and the inherited member is returned; the connection handler then calls `addUser` on it and throws | a connection with room query `constructor` (likewise `__proto__`, `toString`) | every name gets its own room, created on first use | medium, not executed | Rooms.GetRoomAsWrittenMissesPrototypeNames | Rooms.RoomManager.GetRoom |
| client/websocket.js:71-216 | the client registers handlers for `init`, `draw_event`, `cursor`, `user_joined`, `user_left`, `users_update` and `full_state`, but none for `action_undone` or `action_redone`, which server/server.js:79 and 91 broadcast to the whole room; an undo or redo therefore changes no client's canvas until a reconnect replays the full state | one stroke drawn, then `undo`: the room's active history is empty, every client still shows the stroke | every client removes an undone stroke and redraws a redone one as soon as the server broadcasts it | medium, not executed | ClientView.UndoLeavesCanvasStale | ClientView.UndoKeepsCanvasInStep |
