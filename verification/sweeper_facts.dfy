/** Properties of the sweep that relate several runs or count notices. */
module SweeperFacts {
  import opened Wrappers
  import opened Js
  import opened Protocol
  import opened Registry
  import opened Sweeper

  /** A sweep over a table with nothing expired changes nothing and sends
      nothing, whatever order it visits the codes in. */
  lemma {:induction false} QuietSweep(rooms: map<Code, Room>, order: seq<Code>, now: int, threshold: int)
    requires forall c :: c in rooms ==> !Expired(rooms[c], now, threshold)
    ensures SweepKeys(rooms, order, now, threshold) == (rooms, [])
    decreases |order|
  {
    if |order| > 0 {
      QuietSweep(rooms, order[1..], now, threshold);
    }
  }

  /** Sweeping twice at the same time is the same as sweeping once. */
  lemma SweepIsIdempotent(s: State, order: seq<Code>, again: seq<Code>, now: int, threshold: int)
    requires Enumerates(order, s.rooms)
    ensures var s1 := Sweep(s, order, now, threshold).0;
      Sweep(s1, again, now, threshold) == (s1, [])
  {
    var s1 := Sweep(s, order, now, threshold).0;
    QuietSweep(s1.rooms, again, now, threshold);
  }

  /** The sweep keeps the registry invariant: it only deletes whole rooms. */
  lemma SweepPreservesInv(s: State, order: seq<Code>, now: int, threshold: int)
    requires Inv(s)
    ensures Inv(Sweep(s, order, now, threshold).0)
  {
    var r := Sweep(s, order, now, threshold).0;
    forall c, x | c in r.rooms && x in r.rooms[c].clients
      ensures ClientBound(r, c, x)
    {
      assert ClientBound(s, c, x);
    }
  }

  /** Each listed id gets exactly one copy of a `forEach` notice when the
      list has no repeats. */
  lemma {:induction false} NotifyCount(ids: seq<ConnId>, code: Code, x: ConnId)
    requires NoDup(ids)
    ensures multiset(Notify(ids, RoomExpired, RoomInfo(code)))[ExpiryNotice(code, x)] == if x in ids then 1 else 0
  {
    if |ids| > 0 {
      var tail := ids[1..];
      assert NoDup(tail) by {
        forall i, j | 0 <= i < j < |tail| ensures tail[i] != tail[j] {
          assert tail[i] == ids[i + 1] && tail[j] == ids[j + 1];
        }
      }
      NotifyCount(tail, code, x);
      assert Notify(ids, RoomExpired, RoomInfo(code))
          == [Msg(ToConn(ids[0]), RoomExpired, Reliable, RoomInfo(code))] + Notify(tail, RoomExpired, RoomInfo(code));
      assert ids == [ids[0]] + tail;
      if ids[0] == x {
        assert x !in tail;
      }
    }
  }

  /** A member of an expired room appears once among that room's notices,
      provided the host is not also listed as a client. */
  lemma NoticeCount(code: Code, room: Room, x: ConnId)
    requires IsMember(room, x)
    requires NoDup(room.clients)
    requires room.host.None? || room.host.value !in room.clients
    ensures multiset(ExpiryNotices(code, room))[ExpiryNotice(code, x)] == 1
  {
    NotifyCount(room.clients, code, x);
  }

  /** Every member of an expired room the sweep visits is sent
      `room-expired` exactly once. */
  lemma {:induction false} SweepKeysNotifiesOnce(
    rooms: map<Code, Room>, order: seq<Code>, now: int, threshold: int, c: Code, x: ConnId)
    requires c in rooms && IsMember(rooms[c], x)
    requires NoDup(rooms[c].clients)
    requires rooms[c].host.None? || rooms[c].host.value !in rooms[c].clients
    requires c in order && Expired(rooms[c], now, threshold)
    ensures multiset(SweepKeys(rooms, order, now, threshold).1)[ExpiryNotice(c, x)] == 1
    decreases |order|
  {
    var c0 := order[0];
    if c0 in rooms && Expired(rooms[c0], now, threshold) {
      var rest := SweepKeys(rooms - {c0}, order[1..], now, threshold);
      if c0 == c {
        NoticeCount(c, rooms[c], x);
        assert ExpiryNotice(c, x) !in rest.1;
      } else {
        assert ExpiryNotice(c, x) !in ExpiryNotices(c0, rooms[c0]);
        SweepKeysNotifiesOnce(rooms - {c0}, order[1..], now, threshold, c, x);
      }
    } else {
      SweepKeysNotifiesOnce(rooms, order[1..], now, threshold, c, x);
    }
  }

  /** On a state satisfying the registry invariant, the sweep sends each
      member of each expired room it visits exactly one `room-expired`. */
  lemma SweepNotifiesEachMemberOnce(s: State, order: seq<Code>, now: int, threshold: int, c: Code, x: ConnId)
    requires Inv(s)
    requires c in s.rooms && IsMember(s.rooms[c], x)
    requires c in order && Expired(s.rooms[c], now, threshold)
    ensures multiset(Sweep(s, order, now, threshold).1)[ExpiryNotice(c, x)] == 1
  {
    SweepKeysNotifiesOnce(s.rooms, order, now, threshold, c, x);
  }
}
