/** The inactivity sweep run by the cleanup timer. */
module Sweeper {
  import opened Wrappers
  import opened Js
  import opened Protocol
  import opened Registry

  /** Both the sweep period and the inactivity threshold: 30 minutes in ms. */
  const InactiveThresholdMs: int := 30 * 60 * 1000

  /** Strictly older than the threshold. */
  predicate Expired(room: Room, now: int, threshold: int) {
    now - room.lastActivity > threshold
  }

  /** `order` lists the table's codes once each, as `Object.keys(rooms)` does. */
  predicate Enumerates(order: seq<Code>, rooms: map<Code, Room>) {
    NoDup(order) && (forall c :: c in order ==> c in rooms) && (forall c :: c in rooms ==> c in order)
  }

  /** The `room-expired` notice to one member. */
  function ExpiryNotice(code: Code, id: ConnId): Msg {
    Msg(ToConn(id), RoomExpired, Reliable, RoomInfo(code))
  }

  /** The notices for one expired room: its host first, if any, then each
      client in list order. */
  function ExpiryNotices(code: Code, room: Room): (ms: seq<Msg>)
    ensures forall m :: m in ms ==> m.payload == RoomInfo(code) && m.target.ToConn? && IsMember(room, m.target.id)
    ensures forall x :: IsMember(room, x) ==> ExpiryNotice(code, x) in ms
  {
    var toClients := Notify(room.clients, RoomExpired, RoomInfo(code));
    NoticesReachExactlyTheList(room.clients, code);
    match room.host
    case None => toClients
    case Some(h) => [ExpiryNotice(code, h)] + toClients
  }

  /** The host's notice comes first, then one per client in list order. */
  lemma ExpiryNoticesInOrder(code: Code, room: Room)
    ensures var ms := ExpiryNotices(code, room);
      var k := if room.host.Some? then 1 else 0;
      && |ms| == k + |room.clients|
      && (room.host.Some? ==> ms[0] == ExpiryNotice(code, room.host.value))
      && (forall i :: 0 <= i < |room.clients| ==> ms[k + i] == ExpiryNotice(code, room.clients[i]))
  {
    var ms := ExpiryNotices(code, room);
    var toClients := Notify(room.clients, RoomExpired, RoomInfo(code));
    if room.host.Some? {
      assert ms == [ExpiryNotice(code, room.host.value)] + toClients;
    }
  }

  /** The `forEach` notices of one room go to exactly the listed ids. */
  lemma NoticesReachExactlyTheList(ids: seq<ConnId>, code: Code)
    ensures var ms := Notify(ids, RoomExpired, RoomInfo(code));
      && (forall m :: m in ms ==> m.payload == RoomInfo(code) && m.target.ToConn? && m.target.id in ids)
      && (forall x :: x in ids ==> ExpiryNotice(code, x) in ms)
  {
    var ms := Notify(ids, RoomExpired, RoomInfo(code));
    forall m | m in ms
      ensures m.payload == RoomInfo(code) && m.target.ToConn? && m.target.id in ids
    {
      var i :| 0 <= i < |ms| && ms[i] == m;
    }
    forall x | x in ids
      ensures ExpiryNotice(code, x) in ms
    {
      var i :| 0 <= i < |ids| && ids[i] == x;
      assert ms[i] == ExpiryNotice(code, x);
    }
  }

  /** The `forEach` over the key snapshot `order`: each code still in the
      table whose room is expired is notified and deleted. */
  function SweepKeys(rooms: map<Code, Room>, order: seq<Code>, now: int, threshold: int): (r: (map<Code, Room>, seq<Msg>))
    // the survivors are untouched entries of the original table
    ensures forall c :: c in r.0 ==> c in rooms && r.0[c] == rooms[c]
    // a room at or below the threshold survives, an expired listed one does not
    ensures forall c :: c in rooms && !Expired(rooms[c], now, threshold) ==> c in r.0
    ensures forall c :: c in rooms && c in order && Expired(rooms[c], now, threshold) ==> c !in r.0
    ensures forall c :: c in rooms && c !in order ==> c in r.0
    // every notice goes to a member of a room that was deleted
    ensures forall m :: m in r.1 ==>
      && m.name == RoomExpired && m.delivery == Reliable && m.payload.RoomInfo? && m.target.ToConn?
      && m.payload.room in rooms && m.payload.room !in r.0
      && IsMember(rooms[m.payload.room], m.target.id)
    // and every member of a deleted room gets one
    ensures forall c, x :: c in rooms && c !in r.0 && IsMember(rooms[c], x) ==> ExpiryNotice(c, x) in r.1
    decreases |order|
  {
    if |order| == 0 then (rooms, [])
    else
      var c := order[0];
      if c in rooms && Expired(rooms[c], now, threshold) then
        var (rest, ms) := SweepKeys(rooms - {c}, order[1..], now, threshold);
        (rest, ExpiryNotices(c, rooms[c]) + ms)
      else
        SweepKeys(rooms, order[1..], now, threshold)
  }

  /** One run of the cleanup timer at time `now`, visiting the codes in
      `order`. Connections keep their fields: a member of a swept room keeps
      its `currentRoom`. */
  function Sweep(s: State, order: seq<Code>, now: int, threshold: int): (r: Step)
    ensures r.0.conns == s.conns
    ensures forall c :: c in r.0.rooms ==> c in s.rooms && r.0.rooms[c] == s.rooms[c]
    ensures Enumerates(order, s.rooms) ==>
      forall c :: c in s.rooms ==> (c in r.0.rooms <==> !Expired(s.rooms[c], now, threshold))
    ensures forall m :: m in r.1 ==>
      && m.name == RoomExpired && m.delivery == Reliable && m.payload.RoomInfo? && m.target.ToConn?
      && m.payload.room in s.rooms && m.payload.room !in r.0.rooms
      && IsMember(s.rooms[m.payload.room], m.target.id)
    ensures forall c, x :: c in s.rooms && c !in r.0.rooms && IsMember(s.rooms[c], x) ==> ExpiryNotice(c, x) in r.1
  {
    var (rooms', ms) := SweepKeys(s.rooms, order, now, threshold);
    (s.(rooms := rooms'), ms)
  }
}
