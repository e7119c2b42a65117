/** The room table as the code declares it, `const rooms = {}`: a plain
    JavaScript object, whose lookups also see the members every object
    inherits. The rest of the model reads the table as a map of own keys. */
module PlainObjectTable {
  import opened Wrappers
  import opened Js
  import opened Protocol
  import opened Registry
  import opened Membership

  /** Names every plain object inherits from `Object.prototype`. */
  const InheritedNames: set<string> := {
    "constructor", "__proto__", "toString", "toLocaleString", "valueOf",
    "hasOwnProperty", "isPrototypeOf", "propertyIsEnumerable",
    "__defineGetter__", "__defineSetter__", "__lookupGetter__", "__lookupSetter__"}

  /** What `rooms[code]` evaluates to on a plain object. */
  datatype Slot = Missing | Own(room: Room) | Builtin

  function Lookup(rooms: map<Code, Room>, code: Code): (slot: Slot)
    ensures code in rooms ==> slot == Own(rooms[code])
    ensures code !in rooms ==> (slot.Builtin? <==> code in InheritedNames) && !slot.Own?
  {
    if code in rooms then Own(rooms[code])
    else if code in InheritedNames then Builtin
    else Missing
  }

  /** What the entry part of `join-room` does to the table. */
  datatype JoinEffect = Stored(rooms: map<Code, Room>) | WroteOnBuiltin | Threw(error: string)

  /** `join-room` from "initialize room if it doesn't exist" to the client
      push, on a plain-object table, for a connection already out of its
      previous room. A built-in is truthy, so no entry is created: a host
      assignment lands on the built-in and a client push reads `clients` of
      it, which is undefined. */
  function JoinEntryAsWritten(rooms: map<Code, Room>, code: Code, id: ConnId, asHost: bool, now: int): (r: JoinEffect)
    requires code != ""
    ensures Lookup(rooms, code).Builtin? ==> (if asHost then r.WroteOnBuiltin? else r.Threw?)
    ensures !Lookup(rooms, code).Builtin? ==>
      && r.Stored? && code in r.rooms && IsMember(r.rooms[code], id)
      // no other code is touched
      && r.rooms - {code} == rooms - {code}
  {
    match Lookup(rooms, code)
    case Builtin =>
      if asHost then WroteOnBuiltin
      else Threw("TypeError: Cannot read properties of undefined (reading 'push')")
    case Own(room) =>
      if asHost then Stored(rooms[code := room.(host := Some(id))])
      else Stored(rooms[code := room.(clients := room.clients + [id])])
    case Missing =>
      var room := NewRoom(now);
      if asHost then Stored(rooms[code := room.(host := Some(id))])
      else Stored(rooms[code := room.(clients := room.clients + [id])])
  }

  /** A client asking for room "toString" on an empty server makes the
      handler throw, and a host asking for it gets no room entry at all. */
  lemma BuiltinCodeBreaksJoin(id: ConnId, now: int)
    ensures JoinEntryAsWritten(map[], "toString", id, false, now).Threw?
    ensures JoinEntryAsWritten(map[], "toString", id, true, now) == WroteOnBuiltin
  {
  }

  /** With own-key lookups, the inherited names are ordinary codes: joining
      one creates an entry holding the joiner. */
  lemma BuiltinNamesAreOrdinaryCodes(s: State, id: ConnId, jd: JoinData, now: int)
    requires jd.code in InheritedNames
    ensures var r := JoinRoom(s, id, jd, now).0;
      jd.code in r.rooms && IsMember(r.rooms[jd.code], id)
  {
  }

  /** Off the inherited names, the as-written entry step and the own-key
      `join-room` agree: for a connection in no room, both leave the same
      room table behind. */
  lemma AsWrittenAgreesOffBuiltins(s: State, id: ConnId, jd: JoinData, now: int)
    requires jd.code != "" && !Lookup(s.rooms, jd.code).Builtin?
    requires ConnOf(s, id).currentRoom.None?
    ensures JoinEntryAsWritten(s.rooms, jd.code, id, IsHostRole(jd.role), now) == Stored(JoinRoom(s, id, jd, now).0.rooms)
  {
  }
}
