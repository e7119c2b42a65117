/** Concrete runs of the handlers: a host/client session from first join to
    deletion, and behaviours that are easy to get wrong. */
module Scenarios {
  import opened Wrappers
  import opened Js
  import opened Protocol
  import opened Registry
  import opened Membership

  const A: ConnId := "conn-A"
  const B: ConnId := "conn-B"
  const Room1: Code := "ABC1"

  function HostJoin(code: Code): JoinData { JoinData(code, Str("host")) }
  function ClientJoin(code: Code): JoinData { JoinData(code, Str("client")) }

  /** The registry after A hosts `Room1` at time 100. */
  const Hosted := State(map[Room1 := Room(Some(A), [], 100, DefaultScreenSize)],
                        map[A := Conn(Some(Room1), Str("host"), true)])

  /** The registry after B then joins `Room1` as client. */
  const Paired := State(map[Room1 := Room(Some(A), [B], 100, DefaultScreenSize)],
                        map[A := Conn(Some(Room1), Str("host"), true),
                            B := Conn(Some(Room1), Str("client"), false)])

  /** The registry after A then disconnects: B is alone in a hostless room. */
  const Orphaned := State(map[Room1 := Room(None, [B], 100, DefaultScreenSize)],
                          map[B := Conn(Some(Room1), Str("client"), false)])

  /** A hosts, B joins as client, A leaves, B leaves: the room is created,
      greetings go both ways, the host's departure is announced to B while
      the room lives on, and B's departure deletes it. */
  lemma HostClientLifecycle()
    ensures var (s1, m1) := JoinRoom(EmptyState, A, HostJoin(Room1), 100);
      && m1 == [Msg(ToConn(A), RoomJoined, Reliable, Joined(Room1, "host"))]
      && var (s2, m2) := JoinRoom(s1, B, ClientJoin(Room1), 200);
      && m2 == [Msg(ToConn(B), RoomJoined, Reliable, Joined(Room1, "client")),
                Msg(ToConn(A), ClientConnected, Reliable, ClientInfo(Room1, B)),
                Msg(ToConn(B), HostConnected, Reliable, HostInfo(Room1, A))]
      && var (s3, m3) := Disconnect(s2, A);
      && m3 == [Msg(ToConn(B), HostDisconnected, Reliable, RoomInfo(Room1))]
      && Room1 in s3.rooms && s3.rooms[Room1].host.None? && s3.rooms[Room1].clients == [B]
      && var (s4, m4) := Disconnect(s3, B);
      && m4 == [] && Room1 !in s4.rooms
  {
    HostCreatesRoom();
    ClientJoinsHostedRoom();
    HostDisconnectsFromPair();
    LastClientDisconnects();
  }

  /** Step one: the host's join creates the room. */
  lemma HostCreatesRoom()
    ensures JoinRoom(EmptyState, A, HostJoin(Room1), 100)
         == (Hosted, [Msg(ToConn(A), RoomJoined, Reliable, Joined(Room1, "host"))])
  {
    var r := JoinRoom(EmptyState, A, HostJoin(Room1), 100);
    assert r.0.rooms == Hosted.rooms && r.0.conns == Hosted.conns;
    assert r.0 == Hosted;
    assert r.1 == [Msg(ToConn(A), RoomJoined, Reliable, Joined(Room1, "host"))];
  }

  /** Step two: the client's join is greeted both ways. */
  lemma ClientJoinsHostedRoom()
    ensures JoinRoom(Hosted, B, ClientJoin(Room1), 200)
         == (Paired, [Msg(ToConn(B), RoomJoined, Reliable, Joined(Room1, "client")),
                      Msg(ToConn(A), ClientConnected, Reliable, ClientInfo(Room1, B)),
                      Msg(ToConn(B), HostConnected, Reliable, HostInfo(Room1, A))])
  {
    var r := JoinRoom(Hosted, B, ClientJoin(Room1), 200);
    assert A != B by { assert A[5] != B[5]; }
    assert LeaveCurrent(Hosted, B) == (Hosted, []);
    assert r.0.rooms[Room1].clients == [B];
    assert r.0.rooms[Room1] == Paired.rooms[Room1];
    assert r.0.rooms == Paired.rooms;
    assert r.0.conns == Paired.conns;
    assert r.0 == Paired;
    assert r.1 == [Msg(ToConn(B), RoomJoined, Reliable, Joined(Room1, "client")),
                   Msg(ToConn(A), ClientConnected, Reliable, ClientInfo(Room1, B)),
                   Msg(ToConn(B), HostConnected, Reliable, HostInfo(Room1, A))];
  }

  /** Step three: the host leaves and its client is told. */
  lemma HostDisconnectsFromPair()
    ensures Disconnect(Paired, A)
         == (Orphaned, [Msg(ToConn(B), HostDisconnected, Reliable, RoomInfo(Room1))])
  {
    assert LeaverIsHost(Paired, A, Room1);
    var r := Disconnect(Paired, A);
    assert r.0.rooms == Orphaned.rooms && r.0.conns == Orphaned.conns;
    assert r.0 == Orphaned;
    assert r.1 == [Msg(ToConn(B), HostDisconnected, Reliable, RoomInfo(Room1))];
  }

  /** Step four: the last member leaves and the room goes. */
  lemma LastClientDisconnects()
    ensures Disconnect(Orphaned, B) == (EmptyState, [])
  {
    assert !LeaverIsHost(Orphaned, B, Room1);
    var r := Disconnect(Orphaned, B);
    assert r.0.rooms == map[] && r.0.conns == map[];
    assert r.0 == EmptyState;
  }

  /** A client that joins before any host hears only `room-joined`, and a
      host joining later tells it nothing: notifications are never sent
      retroactively, and a host join sends nothing to existing clients. */
  lemma ClientBeforeHost()
    ensures var (s1, m1) := JoinRoom(EmptyState, B, ClientJoin(Room1), 100);
      && m1 == [Msg(ToConn(B), RoomJoined, Reliable, Joined(Room1, "client"))]
      && var (s2, m2) := JoinRoom(s1, A, HostJoin(Room1), 200);
      && m2 == [Msg(ToConn(A), RoomJoined, Reliable, Joined(Room1, "host"))]
      && s2.rooms[Room1].host == Some(A) && s2.rooms[Room1].clients == [B]
  {
  }

  /** A second host join takes the room over without rejecting anyone or
      telling the first host; the first host keeps its `isHost` flag and
      `currentRoom`, so two connections are flagged host for one room, and
      its later disconnect changes nothing and tells no one. */
  lemma SecondHostTakesOver()
    ensures var (s1, _) := JoinRoom(EmptyState, A, HostJoin(Room1), 100);
      && var (s2, m2) := JoinRoom(s1, B, HostJoin(Room1), 200);
      && m2 == [Msg(ToConn(B), RoomJoined, Reliable, Joined(Room1, "host"))]
      && s2.rooms[Room1].host == Some(B)
      && ConnOf(s2, A) == Conn(Some(Room1), Str("host"), true)
      && ConnOf(s2, B) == Conn(Some(Room1), Str("host"), true)
      && var (s3, m3) := Disconnect(s2, A);
      && m3 == [] && s3.rooms == s2.rooms
  {
    var (s1, _) := JoinRoom(EmptyState, A, HostJoin(Room1), 100);
    var (s2, m2) := JoinRoom(s1, B, HostJoin(Room1), 200);
    assert !LeaverIsHost(s2, A, Room1);
  }

  /** A host that sends `join-room` again for its own room first leaves it,
      so its clients hear `host-disconnected`, and then rejoins without any
      `host-connected` for them. */
  lemma HostRejoinAnnouncesDeparture()
    ensures var (s1, _) := JoinRoom(EmptyState, A, HostJoin(Room1), 100);
      && var (s2, _) := JoinRoom(s1, B, ClientJoin(Room1), 200);
      && var (s3, m3) := JoinRoom(s2, A, HostJoin(Room1), 300);
      && m3 == [Msg(ToConn(B), HostDisconnected, Reliable, RoomInfo(Room1)),
                Msg(ToConn(A), RoomJoined, Reliable, Joined(Room1, "host"))]
      && s3.rooms[Room1].host == Some(A) && s3.rooms[Room1].clients == [B]
  {
    var (s1, _) := JoinRoom(EmptyState, A, HostJoin(Room1), 100);
    var (s2, _) := JoinRoom(s1, B, ClientJoin(Room1), 200);
    assert LeaverIsHost(s2, A, Room1);
  }
}
