/** Properties of the membership handlers that relate several calls or
    hold over every reachable state. */
module MembershipFacts {
  import opened Wrappers
  import opened Js
  import opened Protocol
  import opened Registry
  import opened Membership

  /** Two maps that agree off one key agree on every other key. */
  lemma AgreeOffKey(m1: map<Code, Room>, m2: map<Code, Room>, k: Code, c: Code)
    requires m1 - {k} == m2 - {k}
    requires c != k
    ensures c in m1 <==> c in m2
    ensures c in m1 ==> m1[c] == m2[c]
  {
    assert c in m1 <==> c in m1 - {k};
    assert c in m2 <==> c in m2 - {k};
    if c in m1 {
      assert m1[c] == (m1 - {k})[c];
    }
  }

  /** The state `leaveRoom` produces on a known room, assembled from its
      two steps so that proofs about it need not unfold the whole contract. */
  function AfterLeave(s: State, id: ConnId, code: Code): State
    requires code in s.rooms
  {
    var conn := ConnOf(s, id);
    State(Store(s.rooms, code, Vacate(s.rooms[code], conn, id, code).0),
          s.conns[id := conn.(currentRoom := None, isHost := false)])
  }

  /** `leaveRoom` on the connection's own room keeps the registry invariant
      and leaves the connection in no room. */
  lemma LeavePreservesInv(s: State, id: ConnId, code: Code)
    requires Inv(s)
    requires ConnOf(s, id).currentRoom == Some(code)
    ensures Inv(LeaveRoom(s, id, code).0)
    ensures Detached(LeaveRoom(s, id, code).0, id)
  {
    if code !in s.rooms {
      UnboundIsDetached(s, id);
    } else {
      assert LeaveRoom(s, id, code).0 == AfterLeave(s, id, code);
      LeaveKeepsRoomsSound(s, id, code);
      LeaveKeepsClientsBound(s, id, code);
      LeaveKeepsHostsBound(s, id, code);
      LeaveDetaches(s, id, code);
    }
  }

  lemma LeaveKeepsRoomsSound(s: State, id: ConnId, code: Code)
    requires Inv(s)
    requires code in s.rooms
    ensures var r := AfterLeave(s, id, code);
      forall c :: c in r.rooms ==> Occupied(r.rooms[c]) && NoDup(r.rooms[c].clients)
  {
    var r := AfterLeave(s, id, code);
    forall c | c in r.rooms
      ensures Occupied(r.rooms[c]) && NoDup(r.rooms[c].clients)
    {
      if c != code {
        AgreeOffKey(r.rooms, s.rooms, code, c);
      }
    }
  }

  lemma LeaveKeepsClientsBound(s: State, id: ConnId, code: Code)
    requires Inv(s)
    requires ConnOf(s, id).currentRoom == Some(code)
    requires code in s.rooms
    ensures var r := AfterLeave(s, id, code);
      forall c, x :: c in r.rooms && x in r.rooms[c].clients ==> ClientBound(r, c, x)
  {
    var r := AfterLeave(s, id, code);
    forall c, x | c in r.rooms && x in r.rooms[c].clients
      ensures ClientBound(r, c, x)
    {
      if c != code {
        OtherClientsStayBound(s, id, code, c, x);
      } else {
        LeftClientsStayBound(s, id, code, x);
      }
    }
  }

  lemma LeaveKeepsHostsBound(s: State, id: ConnId, code: Code)
    requires Inv(s)
    requires ConnOf(s, id).currentRoom == Some(code)
    requires code in s.rooms
    ensures var r := AfterLeave(s, id, code);
      forall c :: c in r.rooms && r.rooms[c].host.Some? ==> HostBound(r, c, r.rooms[c].host.value)
  {
    var r := AfterLeave(s, id, code);
    forall c | c in r.rooms && r.rooms[c].host.Some?
      ensures HostBound(r, c, r.rooms[c].host.value)
    {
      if c != code {
        AgreeOffKey(r.rooms, s.rooms, code, c);
      }
    }
  }

  /** A client of another room is not the leaver, and its fields and room
      entry are as before. */
  lemma OtherClientsStayBound(s: State, id: ConnId, code: Code, c: Code, x: ConnId)
    requires Inv(s)
    requires ConnOf(s, id).currentRoom == Some(code)
    requires code in s.rooms && c != code
    requires c in AfterLeave(s, id, code).rooms
    requires x in AfterLeave(s, id, code).rooms[c].clients
    ensures ClientBound(AfterLeave(s, id, code), c, x)
  {
    var r := AfterLeave(s, id, code);
    AgreeOffKey(r.rooms, s.rooms, code, c);
    assert x in s.rooms[c].clients;
    assert ClientBound(s, c, x);
    assert x != id;
    assert ConnOf(r, x) == ConnOf(s, x);
  }

  /** A client still listed in the room just left was listed before and is
      not the leaver. */
  lemma LeftClientsStayBound(s: State, id: ConnId, code: Code, x: ConnId)
    requires Inv(s)
    requires code in s.rooms
    requires code in AfterLeave(s, id, code).rooms
    requires x in AfterLeave(s, id, code).rooms[code].clients
    ensures x in s.rooms[code].clients && x != id
    ensures ClientBound(AfterLeave(s, id, code), code, x)
  {
    var room := s.rooms[code];
    var after := AfterLeave(s, id, code).rooms[code];
    if !(ConnOf(s, id).isHost && room.host == Some(id)) {
      assert after.clients == RemoveFirst(room.clients, id);
      assert multiset(after.clients)[x] > 0;
    }
    assert ClientBound(s, code, x);
  }

  lemma LeaveDetaches(s: State, id: ConnId, code: Code)
    requires Inv(s)
    requires ConnOf(s, id).currentRoom == Some(code)
    requires code in s.rooms
    ensures Detached(AfterLeave(s, id, code), id)
  {
    var r := AfterLeave(s, id, code);
    var room := s.rooms[code];
    var conn := ConnOf(s, id);
    assert NoDup(room.clients);
    assert room.host == Some(id) ==> conn.isHost && id !in room.clients by {
      if room.host == Some(id) {
        assert HostBound(s, code, id);
        assert id in room.clients ==> ClientBound(s, code, id);
      }
    }
    VacateDetaches(room, conn, id, code);
    forall c | c in r.rooms && c != code
      ensures !IsMember(r.rooms[c], id)
    {
      AgreeOffKey(r.rooms, s.rooms, code, c);
      assert !IsMember(s.rooms[c], id);
    }
  }

  /** Vacating an entry removes at most one copy of the leaver and nobody
      else, adds nobody, and sends its notices only to members that remain. */
  lemma VacateRemovesOnlyLeaver(room: Room, conn: Conn, id: ConnId, code: Code)
    ensures var r := Vacate(room, conn, id, code);
      && (forall x :: x != id && IsMember(room, x) ==> IsMember(r.0, x))
      && (forall x :: IsMember(r.0, x) ==> IsMember(room, x))
      && multiset(room.clients) - multiset{id} <= multiset(r.0.clients) <= multiset(room.clients)
      && (forall m :: m in r.1 ==> m.target.ToConn? && IsMember(r.0, m.target.id))
  {
    VacateKeepsOthers(room, conn, id, code);
    VacateNotifiesRemaining(room, conn, id, code);
  }

  /** Only the leaver can lose its place, and nobody gains one. */
  lemma VacateKeepsOthers(room: Room, conn: Conn, id: ConnId, code: Code)
    ensures var r := Vacate(room, conn, id, code).0;
      && (forall x :: x != id && IsMember(room, x) ==> IsMember(r, x))
      && (forall x :: IsMember(r, x) ==> IsMember(room, x))
      && multiset(room.clients) - multiset{id} <= multiset(r.clients) <= multiset(room.clients)
  {
    var r := Vacate(room, conn, id, code).0;
    if !(conn.isHost && room.host == Some(id)) {
      forall x | x != id && x in room.clients
        ensures x in r.clients
      {
        assert multiset(room.clients)[x] > 0;
        assert multiset(r.clients)[x] > 0;
      }
      forall x | x in r.clients
        ensures x in room.clients
      {
        assert multiset(r.clients)[x] > 0;
      }
    }
  }

  /** Every notice of a leave goes to a member that remains in the entry. */
  lemma VacateNotifiesRemaining(room: Room, conn: Conn, id: ConnId, code: Code)
    ensures var r := Vacate(room, conn, id, code);
      forall m :: m in r.1 ==> m.target.ToConn? && IsMember(r.0, m.target.id)
  {
    var r := Vacate(room, conn, id, code);
    if conn.isHost && room.host == Some(id) {
      forall m | m in r.1
        ensures m.target.ToConn? && IsMember(r.0, m.target.id)
      {
        var i :| 0 <= i < |r.1| && r.1[i] == m;
        assert room.clients[i] in r.0.clients;
      }
    }
  }

  /** Vacating an entry whose client list has no duplicates, and whose host,
      if it is the leaver, knows it is host and is not also listed as a
      client, leaves no trace of the leaver. */
  lemma VacateDetaches(room: Room, conn: Conn, id: ConnId, code: Code)
    requires NoDup(room.clients)
    requires room.host == Some(id) ==> conn.isHost && id !in room.clients
    ensures !IsMember(Vacate(room, conn, id, code).0, id)
  {
    if !(conn.isHost && room.host == Some(id)) {
      assert room.host != Some(id);
    }
  }

  /** The leave that opens `join-room` and `disconnect` keeps the invariant
      and detaches the connection, whatever its `currentRoom` was. */
  lemma LeaveCurrentDetaches(s: State, id: ConnId)
    requires Inv(s)
    ensures Inv(LeaveCurrent(s, id).0)
    ensures Detached(LeaveCurrent(s, id).0, id)
  {
    match ConnOf(s, id).currentRoom
    case None => UnboundIsDetached(s, id);
    case Some(c) => LeavePreservesInv(s, id, c);
  }

  /** `join-room` keeps the registry invariant. */
  lemma JoinPreservesInv(s: State, id: ConnId, jd: JoinData, now: int)
    requires Inv(s)
    ensures Inv(JoinRoom(s, id, jd, now).0)
  {
    if jd.code != "" {
      var code := jd.code;
      var s1 := LeaveCurrent(s, id).0;
      LeaveCurrentDetaches(s, id);
      var r := JoinRoom(s, id, jd, now).0;
      var before := RoomOrNew(s1, code, now);
      assert id !in before.clients && before.host != Some(id);
      forall c | c in r.rooms
        ensures Occupied(r.rooms[c]) && NoDup(r.rooms[c].clients)
      {
        if c != code {
          AgreeOffKey(r.rooms, s1.rooms, code, c);
        } else if !IsHostRole(jd.role) {
          var cl := r.rooms[c].clients;
          forall i, j | 0 <= i < j < |cl| ensures cl[i] != cl[j] {
            if j == |cl| - 1 {
              assert cl[i] in before.clients;
            } else {
              assert cl[i] == before.clients[i] && cl[j] == before.clients[j];
            }
          }
        }
      }
      forall c, x | c in r.rooms && x in r.rooms[c].clients
        ensures ClientBound(r, c, x)
      {
        if c != code {
          AgreeOffKey(r.rooms, s1.rooms, code, c);
          assert ClientBound(s1, c, x);
          assert x != id;
        } else if x != id {
          assert x in before.clients;
          assert code in s1.rooms;
          assert ClientBound(s1, c, x);
        }
      }
      forall c | c in r.rooms && r.rooms[c].host.Some?
        ensures HostBound(r, c, r.rooms[c].host.value)
      {
        if c != code {
          AgreeOffKey(r.rooms, s1.rooms, code, c);
          assert HostBound(s1, c, r.rooms[c].host.value);
        } else if !IsHostRole(jd.role) {
          assert code in s1.rooms;
          assert HostBound(s1, c, r.rooms[c].host.value);
        }
      }
    }
  }

  /** `disconnect` keeps the registry invariant and leaves no trace of the
      connection in any room. */
  lemma DisconnectPreservesInv(s: State, id: ConnId)
    requires Inv(s)
    ensures Inv(Disconnect(s, id).0)
    ensures Detached(Disconnect(s, id).0, id)
  {
    LeaveCurrentDetaches(s, id);
    var s1 := LeaveCurrent(s, id).0;
    var r := Disconnect(s, id).0;
    assert r.rooms == s1.rooms;
    forall c, x | c in r.rooms && x in r.rooms[c].clients
      ensures ClientBound(r, c, x)
    {
      assert ClientBound(s1, c, x);
    }
  }

  /** Rejoining leaves first: after a successful `join-room` the connection
      is a member of the joined room and of no other, and a client's id
      occurs exactly once in that room's list, however often it rejoined. */
  lemma JoinMembershipIsExclusive(s: State, id: ConnId, jd: JoinData, now: int)
    requires Inv(s)
    requires jd.code != ""
    ensures var r := JoinRoom(s, id, jd, now).0;
      && (forall c :: c in r.rooms ==> (IsMember(r.rooms[c], id) <==> c == jd.code))
      && (!IsHostRole(jd.role) ==> multiset(r.rooms[jd.code].clients)[id] == 1)
  {
    var s1 := LeaveCurrent(s, id).0;
    LeaveCurrentDetaches(s, id);
    var r := JoinRoom(s, id, jd, now).0;
    forall c | c in r.rooms
      ensures IsMember(r.rooms[c], id) <==> c == jd.code
    {
      if c != jd.code {
        AgreeOffKey(r.rooms, s1.rooms, jd.code, c);
      }
    }
    if !IsHostRole(jd.role) {
      var before := RoomOrNew(s1, jd.code, now);
      assert id !in before.clients;
      assert multiset(before.clients)[id] == 0;
    }
  }

  /** Join and disconnect are inverse on the room table: a connection in no
      room that joins and then disconnects leaves every room as it found it,
      provided a host join does not displace an existing host. This holds
      because `join-room` never refreshes an existing room's activity time. */
  lemma JoinThenDisconnectRestoresRooms(s: State, id: ConnId, jd: JoinData, now: int)
    requires Inv(s)
    requires ConnOf(s, id).currentRoom.None?
    requires jd.code != ""
    requires IsHostRole(jd.role) && jd.code in s.rooms ==> s.rooms[jd.code].host.None?
    ensures Disconnect(JoinRoom(s, id, jd, now).0, id).0.rooms == s.rooms
  {
    var code := jd.code;
    var s2 := JoinRoom(s, id, jd, now).0;
    assert LeaveCurrent(s, id).0 == s;
    assert s2.rooms - {code} == s.rooms - {code};
    assert ConnOf(s2, id).currentRoom == Some(code);
    var s3 := LeaveRoom(s2, id, code).0;
    assert Disconnect(s2, id).0.rooms == s3.rooms;
    assert s3.rooms - {code} == s2.rooms - {code};
    JoinThenLeaveEntry(s, id, jd, now);
    EqualByParts(s3.rooms, s.rooms, code);
  }

  /** Two maps are equal when they agree off one key and on that key. */
  lemma EqualByParts(m1: map<Code, Room>, m2: map<Code, Room>, k: Code)
    requires m1 - {k} == m2 - {k}
    requires k in m1 <==> k in m2
    requires k in m1 ==> m1[k] == m2[k]
    ensures m1 == m2
  {
    forall c | c != k
      ensures (c in m1 <==> c in m2) && (c in m1 ==> m1[c] == m2[c])
    {
      AgreeOffKey(m1, m2, k, c);
    }
  }

  /** The joined room's own entry in the round trip above. */
  lemma JoinThenLeaveEntry(s: State, id: ConnId, jd: JoinData, now: int)
    requires Inv(s)
    requires ConnOf(s, id).currentRoom.None?
    requires jd.code != ""
    requires IsHostRole(jd.role) && jd.code in s.rooms ==> s.rooms[jd.code].host.None?
    ensures var s3 := LeaveRoom(JoinRoom(s, id, jd, now).0, id, jd.code).0;
      && (jd.code in s3.rooms <==> jd.code in s.rooms)
      && (jd.code in s.rooms ==> s3.rooms[jd.code] == s.rooms[jd.code])
  {
    var s2 := JoinRoom(s, id, jd, now).0;
    var before := RoomOrNew(s, jd.code, now);
    if IsHostRole(jd.role) {
      JoinedEntry(s, id, jd, now, before.(host := Some(id)));
      HostLeavesEntry(s2, id, jd.code, before);
    } else {
      JoinedEntry(s, id, jd, now, before.(clients := before.clients + [id]));
      ClientLeavesEntry(s2, id, jd.code, before);
    }
  }

  /** What `join-room` stores under the code, for a connection in no room. */
  lemma JoinedEntry(s: State, id: ConnId, jd: JoinData, now: int, entry: Room)
    requires ConnOf(s, id).currentRoom.None?
    requires jd.code != ""
    requires entry == if IsHostRole(jd.role)
                      then RoomOrNew(s, jd.code, now).(host := Some(id))
                      else RoomOrNew(s, jd.code, now).(clients := RoomOrNew(s, jd.code, now).clients + [id])
    ensures var s2 := JoinRoom(s, id, jd, now).0;
      && jd.code in s2.rooms && s2.rooms[jd.code] == entry
      && ConnOf(s2, id).isHost == IsHostRole(jd.role)
  {
    assert LeaveCurrent(s, id) == (s, []);
  }

  lemma HostLeavesEntry(s2: State, id: ConnId, code: Code, before: Room)
    requires code in s2.rooms && s2.rooms[code] == before.(host := Some(id))
    requires ConnOf(s2, id).isHost
    requires before.host.None?
    ensures var s3 := LeaveRoom(s2, id, code).0;
      && (code in s3.rooms <==> Occupied(before))
      && (code in s3.rooms ==> s3.rooms[code] == before)
  {
    assert LeaverIsHost(s2, id, code);
  }

  lemma ClientLeavesEntry(s2: State, id: ConnId, code: Code, before: Room)
    requires code in s2.rooms && s2.rooms[code] == before.(clients := before.clients + [id])
    requires !ConnOf(s2, id).isHost
    requires id !in before.clients
    ensures var s3 := LeaveRoom(s2, id, code).0;
      && (code in s3.rooms <==> Occupied(before))
      && (code in s3.rooms ==> s3.rooms[code] == before)
  {
    assert !LeaverIsHost(s2, id, code);
    assert RemoveFirst(before.clients + [id], id) == before.clients by {
      assert IndexOf(before.clients + [id], id) == |before.clients|;
      assert (before.clients + [id])[..|before.clients|] == before.clients;
    }
  }
}
