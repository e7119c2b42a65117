/** Joining and leaving rooms: the `join-room` handler, the `leaveRoom`
    helper and the `disconnect` handler. */
module Membership {
  import opened Wrappers
  import opened Js
  import opened Protocol
  import opened Registry

  /** `role === "host"`; any other value, a missing one included, means client. */
  predicate IsHostRole(role: Value) {
    role == Str("host")
  }

  /** The leaver is the room's current host and is flagged host: the test
      that selects the host branch of `leaveRoom`. */
  predicate LeaverIsHost(s: State, id: ConnId, code: Code) {
    code in s.rooms && ConnOf(s, id).isHost && s.rooms[code].host == Some(id)
  }

  /** `leaveRoom(socket, code)`. */
  function LeaveRoom(s: State, id: ConnId, code: Code): (r: Step)
    // an unknown room: nothing happens, the leaver's fields included
    ensures code !in s.rooms ==> r == (s, [])
    // a known room: the leaver's room and host flag are cleared
    ensures code in s.rooms ==> ConnOf(r.0, id) == ConnOf(s, id).(currentRoom := None, isHost := false)
    ensures forall x :: x != id ==> ConnOf(r.0, x) == ConnOf(s, x)
    // no other room is touched, and a room left in the table is occupied
    ensures r.0.rooms - {code} == s.rooms - {code}
    ensures code in r.0.rooms ==> code in s.rooms && Occupied(r.0.rooms[code])
    ensures code in r.0.rooms ==>
      r.0.rooms[code].lastActivity == s.rooms[code].lastActivity && r.0.rooms[code].screenSize == s.rooms[code].screenSize
    // the host leaves: every client is told, in list order
    ensures LeaverIsHost(s, id, code) ==>
      && r.1 == Notify(s.rooms[code].clients, HostDisconnected, RoomInfo(code))
      && (code in r.0.rooms <==> |s.rooms[code].clients| > 0)
      && (code in r.0.rooms ==> r.0.rooms[code].host.None? && r.0.rooms[code].clients == s.rooms[code].clients)
    // anyone else leaves: exactly one entry of that id goes, the host is told
    ensures code in s.rooms && !LeaverIsHost(s, id, code) ==>
      var room := s.rooms[code];
      && (code in r.0.rooms <==> room.host.Some? || |RemoveFirst(room.clients, id)| > 0)
      && (code in r.0.rooms ==> r.0.rooms[code].host == room.host && r.0.rooms[code].clients == RemoveFirst(room.clients, id))
      && r.1 == (if id in room.clients && room.host.Some?
                 then [Msg(ToConn(room.host.value), ClientDisconnected, Reliable, ClientInfo(code, id))]
                 else [])
  {
    if code !in s.rooms then (s, [])
    else
      var conn := ConnOf(s, id);
      var (room', notices) := Vacate(s.rooms[code], conn, id, code);
      (State(Store(s.rooms, code, room'), s.conns[id := conn.(currentRoom := None, isHost := false)]), notices)
  }

  /** The two branches of `leaveRoom` on the room entry itself: clear the
      host field, or splice the leaver out of the client list. */
  function Vacate(room: Room, conn: Conn, id: ConnId, code: Code): (r: (Room, seq<Msg>))
    ensures r.0.lastActivity == room.lastActivity && r.0.screenSize == room.screenSize
    ensures conn.isHost && room.host == Some(id) ==>
      r == (room.(host := None), Notify(room.clients, HostDisconnected, RoomInfo(code)))
    ensures !(conn.isHost && room.host == Some(id)) ==>
      && r.0 == room.(clients := RemoveFirst(room.clients, id))
      && r.1 == (if id in room.clients && room.host.Some?
                 then [Msg(ToConn(room.host.value), ClientDisconnected, Reliable, ClientInfo(code, id))]
                 else [])
  {
    if conn.isHost && room.host == Some(id) then
      (room.(host := None), Notify(room.clients, HostDisconnected, RoomInfo(code)))
    else
      var i := IndexOf(room.clients, id);
      if i != -1 then
        (room.(clients := RemoveFirst(room.clients, id)),
         match room.host
         case Some(h) => [Msg(ToConn(h), ClientDisconnected, Reliable, ClientInfo(code, id))]
         case None => [])
      else (room, [])
  }

  /** The write-back at the end of `leaveRoom`: the entry is deleted when it
      has neither host nor clients, and kept otherwise. */
  function Store(rooms: map<Code, Room>, code: Code, room: Room): (m: map<Code, Room>)
    ensures m - {code} == rooms - {code}
    ensures code in m <==> Occupied(room)
    ensures code in m ==> m[code] == room
  {
    if room.host.None? && |room.clients| == 0 then rooms - {code} else rooms[code := room]
  }

  /** The `if (socket.currentRoom) leaveRoom(socket, socket.currentRoom)`
      that opens both `join-room` and `disconnect`. */
  function LeaveCurrent(s: State, id: ConnId): (r: Step)
    ensures ConnOf(s, id).currentRoom.None? ==> r == (s, [])
    ensures ConnOf(s, id).currentRoom.Some? ==> r == LeaveRoom(s, id, ConnOf(s, id).currentRoom.value)
  {
    match ConnOf(s, id).currentRoom
    case Some(c) => LeaveRoom(s, id, c)
    case None => (s, [])
  }

  /** The room `join-room` works on: the existing entry, or a fresh one. */
  function RoomOrNew(s: State, code: Code, now: int): Room {
    if code in s.rooms then s.rooms[code] else NewRoom(now)
  }

  /** The `join-room` handler for a payload `{code, role}` at time `now`. */
  function JoinRoom(s: State, id: ConnId, jd: JoinData, now: int): (r: Step)
    // no code: an error to the sender only, and no state change at all
    ensures jd.code == "" ==> r == (s, [Msg(ToConn(id), Error, Reliable, ErrorInfo(MissingCodeMessage))])
    ensures jd.code != "" ==>
      var (s1, left) := LeaveCurrent(s, id);
      var before := RoomOrNew(s1, jd.code, now);
      && jd.code in r.0.rooms
      // the joiner now points at the code it joined, flagged by its role
      && ConnOf(r.0, id) == Conn(Some(jd.code), jd.role, IsHostRole(jd.role))
      && (forall x :: x != id ==> ConnOf(r.0, x) == ConnOf(s1, x))
      // only the joined room changes, and its activity time is not refreshed
      && r.0.rooms - {jd.code} == s1.rooms - {jd.code}
      && r.0.rooms[jd.code].lastActivity == before.lastActivity
      && r.0.rooms[jd.code].screenSize == before.screenSize
      // a host replaces any previous host and only hears room-joined
      && (IsHostRole(jd.role) ==>
            && r.0.rooms[jd.code].host == Some(id)
            && r.0.rooms[jd.code].clients == before.clients
            && r.1 == left + [Msg(ToConn(id), RoomJoined, Reliable, Joined(jd.code, "host"))])
      // a client is appended; host and client greet each other only if a host is there
      && (!IsHostRole(jd.role) ==>
            && r.0.rooms[jd.code].host == before.host
            && r.0.rooms[jd.code].clients == before.clients + [id]
            && r.1 == left + [Msg(ToConn(id), RoomJoined, Reliable, Joined(jd.code, "client"))]
                      + (if before.host.None? then []
                         else [Msg(ToConn(before.host.value), ClientConnected, Reliable, ClientInfo(jd.code, id)),
                               Msg(ToConn(id), HostConnected, Reliable, HostInfo(jd.code, before.host.value))]))
  {
    if jd.code == "" then
      (s, [Msg(ToConn(id), Error, Reliable, ErrorInfo(MissingCodeMessage))])
    else
      var code := jd.code;
      var (s1, left) := LeaveCurrent(s, id);
      var room := RoomOrNew(s1, code, now);
      var conn := ConnOf(s1, id).(currentRoom := Some(code), role := jd.role);
      if IsHostRole(jd.role) then
        (State(s1.rooms[code := room.(host := Some(id))], s1.conns[id := conn.(isHost := true)]),
         left + [Msg(ToConn(id), RoomJoined, Reliable, Joined(code, "host"))])
      else
        var greetings :=
          match room.host
          case Some(h) =>
            [Msg(ToConn(h), ClientConnected, Reliable, ClientInfo(code, id)),
             Msg(ToConn(id), HostConnected, Reliable, HostInfo(code, h))]
          case None => [];
        (State(s1.rooms[code := room.(clients := room.clients + [id])], s1.conns[id := conn.(isHost := false)]),
         left + [Msg(ToConn(id), RoomJoined, Reliable, Joined(code, "client"))] + greetings)
  }

  /** The `disconnect` handler: leave the current room, then the socket is gone. */
  function Disconnect(s: State, id: ConnId): (r: Step)
    ensures id !in r.0.conns
    ensures r.1 == LeaveCurrent(s, id).1
    ensures r.0.rooms == LeaveCurrent(s, id).0.rooms
    ensures ConnOf(s, id).currentRoom.None? ==> r.0.rooms == s.rooms && r.1 == []
    ensures forall x :: x != id ==> ConnOf(r.0, x) == ConnOf(s, x)
  {
    var (s1, notices) := LeaveCurrent(s, id);
    (s1.(conns := s1.conns - {id}), notices)
  }
}
