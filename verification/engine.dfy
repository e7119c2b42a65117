/** The per-connection event dispatch, the timer, and properties of whole
    runs of the server. */
module Engine {
  import opened Wrappers
  import opened Js
  import opened Protocol
  import opened Registry
  import opened Membership
  import opened MembershipFacts
  import opened Router
  import opened Sweeper
  import opened SweeperFacts

  /** What a connection can send. A payload the client leaves out is `None`. */
  datatype Event =
    | JoinRoomEvent(join: Option<JoinData>)
    | RelayEvent(kind: Kind, data: Option<Data>)
    | DisconnectEvent

  /** One input to the server: an event from a connection, or a firing of the
      cleanup timer that visits codes in `order`. The order is unconstrained
      here: the real timer lists every code (`Object.keys`), while a `Tick`
      may skip or repeat codes, so runs include more timer behaviours than the
      server has. */
  datatype Input = Deliver(from: ConnId, event: Event, at: int) | Tick(order: seq<Code>, at: int)

  /** What the `join-room` handler does with its payload as written: the
      destructuring `const { code, role } = data` runs before any guard. */
  datatype Outcome = Completed(step: Step) | Threw(error: string)

  /** `join-room` as written: a missing payload makes the handler throw. */
  function JoinPayloadAsWritten(s: State, id: ConnId, payload: Option<JoinData>, now: int): (r: Outcome)
    ensures payload.None? ==> r.Threw?
    ensures payload.Some? ==> r.Completed?
  {
    match payload
    case None => Threw("TypeError: Cannot destructure property 'code' of 'data' as it is undefined.")
    case Some(jd) => Completed(JoinRoom(s, id, jd, now))
  }

  /** An empty `join-room` escapes the handler as a TypeError instead of
      being answered, unlike every other handler, which tests `!data`. */
  lemma MissingJoinPayloadThrows(s: State, id: ConnId, now: int)
    ensures JoinPayloadAsWritten(s, id, None, now) == Threw("TypeError: Cannot destructure property 'code' of 'data' as it is undefined.")
  {
  }

  /** `join-room` with the `!data` test the other handlers have: a missing
      payload is answered like a missing code. */
  function JoinPayload(s: State, id: ConnId, payload: Option<JoinData>, now: int): (r: Step)
    ensures payload.None? || payload.value.code == "" ==>
      r == (s, [Msg(ToConn(id), Error, Reliable, ErrorInfo(MissingCodeMessage))])
    ensures payload.Some? ==> r == JoinRoom(s, id, payload.value, now)
  {
    match payload
    case None => (s, [Msg(ToConn(id), Error, Reliable, ErrorInfo(MissingCodeMessage))])
    case Some(jd) => JoinRoom(s, id, jd, now)
  }

  /** One handler run for an event sent by `id` at time `now`. */
  function Handle(s: State, id: ConnId, ev: Event, now: int): (r: Step)
    // relay events never change who is where
    ensures ev.RelayEvent? ==> r.0.conns == s.conns && r.0.rooms.Keys == s.rooms.Keys
    // a disconnected socket is forgotten
    ensures ev.DisconnectEvent? ==> id !in r.0.conns
    // no other connection's fields change
    ensures forall x :: x != id ==> ConnOf(r.0, x) == ConnOf(s, x)
  {
    match ev
    case JoinRoomEvent(payload) => JoinPayload(s, id, payload, now)
    case RelayEvent(k, data) => Route(s, id, k, data, now)
    case DisconnectEvent => Disconnect(s, id)
  }

  /** One input. */
  function Apply(s: State, input: Input): Step {
    match input
    case Deliver(id, ev, now) => Handle(s, id, ev, now)
    case Tick(order, now) => Sweep(s, order, now, InactiveThresholdMs)
  }

  /** The state after a sequence of inputs and everything sent on the way. */
  function Run(s: State, inputs: seq<Input>): (r: Step)
    decreases |inputs|
  {
    if |inputs| == 0 then (s, [])
    else
      var (s1, ms1) := Apply(s, inputs[0]);
      var (s2, ms2) := Run(s1, inputs[1..]);
      (s2, ms1 + ms2)
  }

  /** The server carries its whole state from one input to the next and
      nothing else: running `a` and then `b` is running `a + b`, and the
      messages of the two runs are concatenated. */
  lemma {:induction false} RunAppend(s: State, a: seq<Input>, b: seq<Input>)
    ensures var (s1, ms1) := Run(s, a);
      var (s2, ms2) := Run(s1, b);
      Run(s, a + b) == (s2, ms1 + ms2)
    decreases |a|
  {
    if |a| == 0 {
      assert a + b == b;
      assert [] + Run(s, b).1 == Run(s, b).1;
    } else {
      assert (a + b)[0] == a[0];
      assert (a + b)[1..] == a[1..] + b;
      var (t, ms0) := Apply(s, a[0]);
      RunAppend(t, a[1..], b);
      var (s1, ms1) := Run(t, a[1..]);
      var (s2, ms2) := Run(s1, b);
      assert ms0 + (ms1 + ms2) == (ms0 + ms1) + ms2;
    }
  }

  /** The relay handlers keep the registry invariant. */
  lemma RoutePreservesInv(s: State, id: ConnId, k: Kind, data: Option<Data>, now: int)
    requires Inv(s)
    ensures Inv(Route(s, id, k, data, now).0)
  {
    var r := Route(s, id, k, data, now).0;
    forall c, x | c in r.rooms && x in r.rooms[c].clients
      ensures ClientBound(r, c, x)
    {
      assert ClientBound(s, c, x);
    }
  }

  /** Every handler keeps the registry invariant. */
  lemma HandlePreservesInv(s: State, id: ConnId, ev: Event, now: int)
    requires Inv(s)
    ensures Inv(Handle(s, id, ev, now).0)
  {
    match ev
    case JoinRoomEvent(payload) =>
      if payload.Some? {
        JoinPreservesInv(s, id, payload.value, now);
      }
    case RelayEvent(k, data) => RoutePreservesInv(s, id, k, data, now);
    case DisconnectEvent => DisconnectPreservesInv(s, id);
  }

  /** Every reachable state satisfies the registry invariant: rooms in the
      table are occupied, list no client twice, have a single host field
      naming a connection flagged host, and no connection is a member of two
      rooms. */
  lemma {:induction false} RunPreservesInv(s: State, inputs: seq<Input>)
    requires Inv(s)
    ensures Inv(Run(s, inputs).0)
    decreases |inputs|
  {
    if |inputs| > 0 {
      var s1 := Apply(s, inputs[0]).0;
      match inputs[0] {
        case Deliver(id, ev, now) => HandlePreservesInv(s, id, ev, now);
        case Tick(order, now) => SweepPreservesInv(s, order, now, InactiveThresholdMs);
      }
      RunPreservesInv(s1, inputs[1..]);
    }
  }
}
