/** The relay handlers, from `screen-size` to `clipboard-data`, and the
    routing table they follow. */
module Router {
  import opened Wrappers
  import opened Js
  import opened Protocol
  import opened Registry

  /** Who receives a relayed event: the room's host, or every member of the
      transport room but the sender. */
  datatype Selector = RoomHost | OthersInRoom

  /** The payload field, beside `code`, whose falsiness makes a handler
      ignore the event. */
  datatype Field = NoField | ImageField | FrameIdField | TextField

  /** One row of the routing table. `needsEntry` means the event is sent only
      when the code is in the room table. */
  datatype Rule = Rule(target: Selector, delivery: Delivery, touches: bool, needs: Field, needsEntry: bool)

  /** The routing table: target, delivery class, whether the room's activity
      time is refreshed, the extra required field, and whether sending
      depends on the room's entry. */
  function RuleFor(k: Kind): Rule {
    match k
    case ScreenSizeIn         => Rule(OthersInRoom, Reliable, true,  NoField,      true)
    case QualitySettingsIn    => Rule(OthersInRoom, Reliable, true,  NoField,      true)
    case ScreenDataIn         => Rule(OthersInRoom, Volatile, true,  ImageField,   false)
    case ScreenDataReceivedIn => Rule(RoomHost,     Reliable, false, FrameIdField, true)
    case MouseMoveIn          => Rule(RoomHost,     Volatile, true,  NoField,      true)
    case MouseClickIn         => Rule(RoomHost,     Reliable, true,  NoField,      true)
    case MouseDoubleClickIn   => Rule(RoomHost,     Reliable, true,  NoField,      true)
    case MouseScrollIn        => Rule(RoomHost,     Volatile, true,  NoField,      true)
    case KeyPressIn           => Rule(RoomHost,     Reliable, true,  NoField,      true)
    case CursorPositionIn     => Rule(OthersInRoom, Volatile, false, NoField,      false)
    case ClipboardDataIn      => Rule(OthersInRoom, Reliable, true,  TextField,    false)
  }

  /** The value of the required field. */
  function FieldOf(f: Field, d: Data): Value
    requires f != NoField
  {
    match f
    case ImageField => d.image
    case FrameIdField => d.frameId
    case TextField => d.text
  }

  /** The handler gets past its guard: a payload with a code and, when the
      rule asks for one, a truthy extra field. */
  predicate Accepted(k: Kind, data: Option<Data>) {
    && data.Some? && data.value.code != ""
    && match RuleFor(k).needs
       case NoField => true
       case f => Truthy(FieldOf(f, data.value))
  }

  /** Whether an accepted event is sent, given the room table. */
  predicate Deliverable(rule: Rule, s: State, code: Code) {
    match rule.target
    case RoomHost => code in s.rooms && s.rooms[code].host.Some?
    case OthersInRoom => !rule.needsEntry || code in s.rooms
  }

  /** Where an accepted, deliverable event goes. */
  function TargetOf(rule: Rule, s: State, code: Code, sender: ConnId): Target
    requires Deliverable(rule, s, code)
  {
    match rule.target
    case RoomHost => ToConn(s.rooms[code].host.value)
    case OthersInRoom => RoomExcept(code, sender)
  }

  /** What is sent on: host-bound events and screen frames forward the
      payload as received; the others rebuild a smaller object. */
  function OutPayload(k: Kind, sender: ConnId, d: Data): Payload {
    match k
    case ScreenSizeIn => Size(d.width, d.height)
    case QualitySettingsIn => Quality(d.quality, d.frameRate)
    case CursorPositionIn => Cursor(d.x, d.y)
    case ClipboardDataIn => Clipboard(d.text, sender)
    case _ => Forwarded(d)
  }

  /** `rooms[code].lastActivity = Date.now()` when the entry exists. */
  function Touch(s: State, code: Code, now: int): (t: State)
    ensures t.conns == s.conns && t.rooms.Keys == s.rooms.Keys
    ensures forall c :: c in s.rooms && c != code ==> t.rooms[c] == s.rooms[c]
    ensures code in s.rooms ==> t.rooms[code] == s.rooms[code].(lastActivity := now)
  {
    if code in s.rooms then s.(rooms := s.rooms[code := s.rooms[code].(lastActivity := now)]) else s
  }

  /** The routing table's promise for event `k` with payload `data` sent by
      `id` at time `now`, about the handler's result `r`. */
  ghost predicate FollowsTable(s: State, id: ConnId, k: Kind, data: Option<Data>, now: int, r: Step) {
    // connections and room membership are never touched
    && r.0.conns == s.conns && r.0.rooms.Keys == s.rooms.Keys
    && (forall c :: c in s.rooms ==>
          r.0.rooms[c].host == s.rooms[c].host && r.0.rooms[c].clients == s.rooms[c].clients)
    // a rejected payload has no effect at all
    && (!Accepted(k, data) ==> r == (s, []))
    // an accepted one follows its row of the routing table
    && (Accepted(k, data) ==>
          var code := data.value.code;
          var rule := RuleFor(k);
          && (forall c :: c in s.rooms && c != code ==> r.0.rooms[c] == s.rooms[c])
          && (code in s.rooms ==>
                && r.0.rooms[code].lastActivity == (if rule.touches then now else s.rooms[code].lastActivity)
                && r.0.rooms[code].screenSize ==
                     (if k == ScreenSizeIn then (data.value.width, data.value.height) else s.rooms[code].screenSize))
          && r.1 == (if Deliverable(rule, s, code)
                     then [Msg(TargetOf(rule, s, code, id), NameOf(k), rule.delivery, OutPayload(k, id, data.value))]
                     else []))
  }

  /** The relay handler for event `k` with payload `data`, sent by `id` at
      time `now`. */
  function Route(s: State, id: ConnId, k: Kind, data: Option<Data>, now: int): (r: Step)
    ensures FollowsTable(s, id, k, data, now, r)
  {
    match data
    case None => (s, [])
    case Some(d) =>
      if d.code == "" then (s, [])
      else if RuleFor(k).target == RoomHost then HostBoundHandler(s, id, k, d, now)
      else RoomHandler(s, id, k, d, now)
  }

  /** The handlers that forward to the room's host, past the `!data.code`
      test. Each passes the event name, delivery class and activity refresh
      it has in the source; the helper's precondition checks them against
      the row of `RuleFor`. */
  function HostBoundHandler(s: State, id: ConnId, k: Kind, d: Data, now: int): (r: Step)
    requires d.code != "" && RuleFor(k).target == RoomHost
    ensures FollowsTable(s, id, k, Some(d), now, r)
  {
    match k
    case ScreenDataReceivedIn =>
      if !Truthy(d.frameId) then (s, [])
      else ForwardToHost(s, id, k, d, ScreenDataReceived, Reliable, false, now)
    case MouseMoveIn => ForwardToHost(s, id, k, d, MouseMove, Volatile, true, now)
    case MouseClickIn => ForwardToHost(s, id, k, d, MouseClick, Reliable, true, now)
    case MouseDoubleClickIn => ForwardToHost(s, id, k, d, MouseDoubleClick, Reliable, true, now)
    case MouseScrollIn => ForwardToHost(s, id, k, d, MouseScroll, Volatile, true, now)
    case KeyPressIn => ForwardToHost(s, id, k, d, KeyPress, Reliable, true, now)
  }

  /** A host-bound handler past its guards: refresh the activity time if
      `touch`, then `io.to(rooms[code].host).emit(name, data)`, volatile or
      not, when the room exists and has a host. */
  function ForwardToHost(s: State, id: ConnId, k: Kind, d: Data, name: EventName, delivery: Delivery,
                         touch: bool, now: int): (r: Step)
    requires RuleFor(k).target == RoomHost && Accepted(k, Some(d))
    requires name == NameOf(k) && delivery == RuleFor(k).delivery && touch == RuleFor(k).touches
    ensures FollowsTable(s, id, k, Some(d), now, r)
  {
    var s' := if touch then Touch(s, d.code, now) else s;
    if d.code in s.rooms && s.rooms[d.code].host.Some?
    then (s', [Msg(ToConn(s.rooms[d.code].host.value), name, delivery, Forwarded(d))])
    else (s', [])
  }

  /** The handlers that send to the room except the sender, past the
      `!data.code` test, each with the guard, event name, delivery class,
      activity refresh and payload it has in the source. */
  function RoomHandler(s: State, id: ConnId, k: Kind, d: Data, now: int): (r: Step)
    requires d.code != "" && RuleFor(k).target == OthersInRoom
    ensures FollowsTable(s, id, k, Some(d), now, r)
  {
    match k
    case ScreenSizeIn => ScreenSizeHandler(s, id, d, now)
    case QualitySettingsIn =>
      BroadcastInRoom(s, id, k, d, QualitySettings, Reliable, true, true, Quality(d.quality, d.frameRate), now)
    case ScreenDataIn =>
      if !Truthy(d.image) then (s, [])
      else BroadcastInRoom(s, id, k, d, ScreenData, Volatile, true, false, Forwarded(d), now)
    case CursorPositionIn =>
      BroadcastInRoom(s, id, k, d, CursorPosition, Volatile, false, false, Cursor(d.x, d.y), now)
    case ClipboardDataIn =>
      if !Truthy(d.text) then (s, [])
      else BroadcastInRoom(s, id, k, d, ClipboardData, Reliable, true, false, Clipboard(d.text, id), now)
  }

  /** A room-wide handler past its guards: when `needsEntry` and the room has
      no entry, nothing happens; otherwise refresh the activity time if
      `touch` and `socket.to(code).emit(name, payload)`, volatile or not. */
  function BroadcastInRoom(s: State, id: ConnId, k: Kind, d: Data, name: EventName, delivery: Delivery,
                           touch: bool, needsEntry: bool, payload: Payload, now: int): (r: Step)
    requires RuleFor(k).target == OthersInRoom && k != ScreenSizeIn && Accepted(k, Some(d))
    requires name == NameOf(k) && delivery == RuleFor(k).delivery && touch == RuleFor(k).touches
    requires needsEntry == RuleFor(k).needsEntry && payload == OutPayload(k, id, d)
    ensures FollowsTable(s, id, k, Some(d), now, r)
  {
    if needsEntry && d.code !in s.rooms then (s, [])
    else
      var s' := if touch then Touch(s, d.code, now) else s;
      (s', [Msg(RoomExcept(d.code, id), name, delivery, payload)])
  }

  /** `screen-size`: record the sender's dimensions on the room entry,
      refresh its activity time and tell the rest of the room; nothing
      happens when the code has no entry. */
  function ScreenSizeHandler(s: State, id: ConnId, d: Data, now: int): (r: Step)
    requires d.code != ""
    ensures FollowsTable(s, id, ScreenSizeIn, Some(d), now, r)
  {
    if d.code in s.rooms then
      var room := s.rooms[d.code].(screenSize := (d.width, d.height), lastActivity := now);
      (s.(rooms := s.rooms[d.code := room]),
       [Msg(RoomExcept(d.code, id), ScreenSize, Reliable, Size(d.width, d.height))])
    else (s, [])
  }
}
