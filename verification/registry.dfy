/** The room table and the per-connection fields, with the invariant that
    ties them together. */
module Registry {
  import opened Wrappers
  import opened Js
  import opened Protocol

  /** One entry of the `rooms` table. */
  datatype Room = Room(host: Option<ConnId>, clients: seq<ConnId>, lastActivity: int, screenSize: (Value, Value))

  /** The fields the handlers keep on a socket: `currentRoom`, `role`
      (stored as received, never read back) and `isHost`. */
  datatype Conn = Conn(currentRoom: Option<Code>, role: Value, isHost: bool)

  /** The whole mutable state: the room table and the live connections. */
  datatype State = State(rooms: map<Code, Room>, conns: map<ConnId, Conn>)

  /** A (state, outbound messages) pair: the effect of one handler run. */
  type Step = (State, seq<Msg>)

  const DefaultScreenSize: (Value, Value) := (Num(1280), Num(720))

  /** A socket on which no handler has set anything yet. */
  const FreshConn := Conn(None, Undefined, false)

  const EmptyState := State(map[], map[])

  /** The entry `join-room` creates for an unseen code. */
  function NewRoom(now: int): (room: Room)
    ensures room.host.None? && room.clients == []
    ensures room.lastActivity == now && room.screenSize == DefaultScreenSize
  {
    Room(None, [], now, DefaultScreenSize)
  }

  /** The fields of connection `id`; a connection the table does not hold
      has its fields unset. */
  function ConnOf(s: State, id: ConnId): (c: Conn)
    ensures id !in s.conns ==> c == FreshConn
  {
    if id in s.conns then s.conns[id] else FreshConn
  }

  /** A room worth keeping: it has a host or at least one client. */
  predicate Occupied(room: Room) {
    room.host.Some? || |room.clients| > 0
  }

  predicate IsMember(room: Room, id: ConnId) {
    room.host == Some(id) || id in room.clients
  }

  /** Connection `id` is in no room of the table. */
  predicate Detached(s: State, id: ConnId) {
    forall c :: c in s.rooms ==> !IsMember(s.rooms[c], id)
  }

  /** A client entry of room `c` points back at `c` and is not flagged host. */
  predicate ClientBound(s: State, c: Code, x: ConnId) {
    ConnOf(s, x).currentRoom == Some(c) && !ConnOf(s, x).isHost
  }

  /** The host entry of room `c` points back at `c` and is flagged host. */
  predicate HostBound(s: State, c: Code, x: ConnId) {
    ConnOf(s, x).currentRoom == Some(c) && ConnOf(s, x).isHost
  }

  /** The registry invariant the handlers maintain: every room in the table
      is occupied and lists no client twice, and every member of a room has
      that room as its `currentRoom`, with `isHost` matching its role there.
      The converse is not part of it: a connection may keep a `currentRoom`
      whose room was swept, and a replaced host keeps its `isHost` flag. */
  ghost predicate Inv(s: State) {
    && (forall c :: c in s.rooms ==> Occupied(s.rooms[c]) && NoDup(s.rooms[c].clients))
    && (forall c, x :: c in s.rooms && x in s.rooms[c].clients ==> ClientBound(s, c, x))
    && (forall c :: c in s.rooms && s.rooms[c].host.Some? ==> HostBound(s, c, s.rooms[c].host.value))
  }

  /** The server starts with no rooms and no connections. */
  lemma InitialInv()
    ensures Inv(EmptyState)
  {
  }

  /** A connection is a member of at most one room, and never both host and
      client of the same room. */
  lemma OneRoomPerConnection(s: State, id: ConnId, c1: Code, c2: Code)
    requires Inv(s)
    requires c1 in s.rooms && c2 in s.rooms
    requires IsMember(s.rooms[c1], id) && IsMember(s.rooms[c2], id)
    ensures c1 == c2
    ensures !(s.rooms[c1].host == Some(id) && id in s.rooms[c1].clients)
  {
  }

  /** A connection whose `currentRoom` is unset, or names a room no longer in
      the table, is a member of no room. */
  lemma UnboundIsDetached(s: State, id: ConnId)
    requires Inv(s)
    requires ConnOf(s, id).currentRoom.None? || ConnOf(s, id).currentRoom.value !in s.rooms
    ensures Detached(s, id)
  {
  }
}
