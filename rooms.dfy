/** The room registry (server/room.js): a lazily filled map from room name to
    room, each room holding its user map and its own action log. */
module Rooms {
  import opened Common
  import opened ActionLog

  /** The fixed palette user colours are drawn from. */
  const Palette: seq<string> :=
    ["#e6194B", "#3cb44b", "#ffe119", "#4363d8", "#f58231",
     "#911eb4", "#46f0f0", "#f032e6", "#bcf60c", "#fabebe"]

  datatype User = User(id: string, color: string)

  /** `randomColor`: the random draw `Math.floor(Math.random() * 10)` is the
      parameter `pick`; whatever it is, the colour comes from the palette. */
  function RandomColor(pick: nat): (c: string)
    requires pick < |Palette|
    ensures c in Palette
  {
    Palette[pick]
  }

  class Room {
    const name: string
    var users: map<string, User>
    const state: DrawingState

    /** A new room has no users and an empty log. */
    constructor (name: string)
      ensures this.name == name
      ensures users == map[]
      ensures fresh(state) && state.Valid()
      ensures state.actions == [] && state.redoStack == []
    {
      this.name := name;
      users := map[];
      state := new DrawingState();
    }

    /** `addUser`: map `id` to a record with a palette colour and return it;
        every other user's entry stays as it was. */
    method AddUser(id: string, pick: nat) returns (u: User)
      requires pick < |Palette|
      modifies this`users
      ensures u == User(id, Palette[pick]) && u.color in Palette
      ensures users == old(users)[id := u]
      ensures forall other :: other != id && other in old(users) ==> other in users && users[other] == old(users)[other]
    {
      var color := RandomColor(pick);
      u := User(id, color);
      users := users[id := u];
    }

    /** `removeUser`: delete `id` and nothing else; an absent id is a no-op. */
    method RemoveUser(id: string)
      modifies this`users
      ensures users == old(users) - {id}
      ensures id !in old(users) ==> users == old(users)
    {
      users := users - {id};
    }
  }

  /** The registry of rooms. */
  class RoomManager {
    var rooms: map<string, Room>

    /** Each room is filed under its own name, and no two rooms share a log. */
    ghost predicate Valid()
      reads this
    {
      && (forall n :: n in rooms ==> rooms[n].name == n)
      && (forall a, b :: a in rooms && b in rooms && a != b ==> rooms[a].state != rooms[b].state)
    }

    constructor ()
      ensures Valid() && rooms == map[]
    {
      rooms := map[];
    }

    /** `getRoom`: return the room filed under `name`, creating an empty one
        only when there is none; rooms under other names are untouched. */
    method GetRoom(name: string) returns (r: Room)
      requires Valid()
      modifies this
      ensures Valid()
      ensures name in rooms && rooms[name] == r && r.name == name
      ensures rooms == old(rooms)[name := r]
      ensures name in old(rooms) ==> r == old(rooms)[name] && rooms == old(rooms)
      ensures name !in old(rooms) ==>
        && fresh(r) && fresh(r.state)
        && rooms == old(rooms)[name := r]
        && r.users == map[] && r.state.Valid()
        && r.state.actions == [] && r.state.redoStack == []
    {
      if name !in rooms {
        var room := new Room(name);
        rooms := rooms[name := room];
      }
      r := rooms[name];
    }
  }

  /** The names a plain JavaScript object such as `this.rooms = {}` answers
      through its prototype, even though no own property has that name. */
  const ObjectPrototypeMembers: set<string> :=
    {"constructor", "__proto__", "hasOwnProperty", "isPrototypeOf", "propertyIsEnumerable",
     "toString", "toLocaleString", "valueOf", "__defineGetter__", "__defineSetter__",
     "__lookupGetter__", "__lookupSetter__"}

  /** What `this.rooms[name]` yields on a plain object: an own room, an
      inherited prototype member (a function or object, hence truthy), or
      `undefined`. */
  datatype Lookup<T> = OwnRoom(room: T) | Inherited | Undefined

  function PropertyLookup<T>(own: map<string, T>, name: string): (l: Lookup<T>)
    ensures name in own ==> l == OwnRoom(own[name])
    ensures name !in own ==> (l.Inherited? <==> name in ObjectPrototypeMembers)
  {
    if name in own then OwnRoom(own[name])
    else if name in ObjectPrototypeMembers then Inherited
    else Undefined
  }

  /** `getRoom` as written: `if (!this.rooms[name]) this.rooms[name] = new Room(name)`
      then `return this.rooms[name]`. `created` stands for the new room. */
  function GetRoomAsWritten<T>(own: map<string, T>, name: string, created: T): (r: (Lookup<T>, map<string, T>))
    ensures name in own ==> r == (OwnRoom(own[name]), own)
    ensures name !in own && name !in ObjectPrototypeMembers ==> r == (OwnRoom(created), own[name := created])
    ensures name !in own && name in ObjectPrototypeMembers ==> r == (Inherited, own)
  {
    match PropertyLookup(own, name)
    case Undefined => (OwnRoom(created), own[name := created])
    case other => (other, own)
  }

  /** A room name that is a prototype member, such as `?room=constructor`,
      makes `getRoom` return something that is not a room and register
      nothing, so the connection handler's next call, `room.addUser`, throws. */
  lemma {:induction false} GetRoomAsWrittenMissesPrototypeNames<T>(own: map<string, T>, name: string, created: T)
    requires name !in own && name in ObjectPrototypeMembers
    ensures GetRoomAsWritten(own, name, created).0 == Inherited
    ensures GetRoomAsWritten(own, name, created).1 == own
    ensures name !in GetRoomAsWritten(own, name, created).1
  {
  }

  /** The concrete case: the first connection to room "constructor". */
  lemma ConstructorRoomIsNeverCreated(created: int)
    ensures GetRoomAsWritten(map[], "constructor", created).0 == Inherited
  {
    GetRoomAsWrittenMissesPrototypeNames(map[], "constructor", created);
  }
}
