# Remote-support relay: room and session engine

A Dafny model of the session engine of a remote-support relay server
(`socket.js`). A "host" (the machine being controlled) and any number of
"clients" (the machines controlling or viewing it) meet in a room named by a
shared code. The server keeps one table `rooms` (code → host, ordered client
list, last-activity time, screen size) plus three fields on every socket
(`currentRoom`, `role`, `isHost`), and reacts to socket events:

- **membership**: `join-room`, the `leaveRoom` helper, `disconnect`;
- **relay**: eleven event kinds (`screen-size` … `clipboard-data`), each
  checked for required fields, possibly refreshing the room's activity time,
  and forwarded either to the room's host or to everyone in the transport
  room except the sender, as a volatile or a plain (reliable) emit;
- **inactivity sweep**: a 30-minute timer deletes rooms idle for more than
  30 minutes and tells their members `room-expired`.

Every handler is modelled as a pure function from a `State` (room table plus
connection table) to a new `State` and the list of messages it emits, each
message tagged with its target, event name, delivery class and payload.

Modules: `Js` (truthiness, `indexOf`/`splice`), `Protocol` (messages),
`Registry` (state and its invariant), `Membership` and `MembershipFacts`
(join/leave/disconnect), `Router` (relay handlers and the routing table),
`Sweeper` and `SweeperFacts` (the timer body), `Engine` (dispatch, runs,
whole-run invariant, the join-payload finding), `PlainObjectTable` (the
table's plain-object lookup, as written), `Scenarios` (concrete runs).

Modelling choices:

- `Date.now()` is an integer parameter `now`; the timer's key order
  (`Object.keys(rooms)`) is a parameter `order`.
- A room code is a string; the empty string stands for both a missing and an
  empty code, which every guard treats alike.
- Payload fields the relay only copies are a small `Value` type with
  JavaScript truthiness, so that `!data.frameId` rejects a frame id `0` and
  `!data.text` rejects an empty clipboard, as the code does.
- "Everyone in the room except the sender" (`socket.to(code)`) is an
  abstract target `RoomExcept(code, sender)`: socket.io room membership is
  not recorded in the room table (a socket that left a room is never removed
  from the transport room).
- Volatile versus reliable is only a tag on the message.
- A stored `currentRoom` is always a non-empty code (it is set only after
  the `!code` guard), so the truthiness test on it is a presence test.
- The table is read as a map of own keys. The code's plain-object table
  also answers for inherited names such as `toString`; module
  `PlainObjectTable` models that lookup for the join handler (see Findings).

Behaviours of the code a reader might not expect, all modelled as written:

- a second host join replaces `rooms[code].host`; there is no
  `host-occupied` rejection (`SecondHostTakesOver`);
- a host join sends only `room-joined`; existing clients are not told
  (`ClientBeforeHost`, `HostRejoinAnnouncesDeparture`);
- `join-room` does not refresh an existing room's `lastActivity`;
- `leaveRoom` on a code that is no longer in the table returns before
  clearing `currentRoom` and `isHost`;
- `screen-size`, `quality-settings` and `clipboard-data` go to the room
  except the sender, not to the whole room, and there is no
  `screen-dimensions` event;
- the replaced host keeps `isHost = true` and its `currentRoom`, so two
  connections can be flagged host for one room; what stays unique is the
  table's `host` field, and the invariant `Registry.Inv` ties that field to
  a connection flagged host whose `currentRoom` is the room.

## Model

| member | source | states |
|---|---|---|
| `Js.IndexOf` | socket.js:302-303 | the result is -1 exactly when the id is absent, else the first position holding it |
| `Js.RemoveFirst` | socket.js:302-304 | removes one occurrence: unchanged if absent, one shorter and the multiset minus that id otherwise; on a duplicate-free list the id is gone and the list stays duplicate-free |
| `Js.RemoveFirstIsFilter` | socket.js:302-304 | on a duplicate-free list, splicing out the first occurrence equals the order-preserving filter: every other id keeps its relative order |
| `Js.Truthy` | socket.js:79 | the falsy values of JavaScript (`undefined`, `null`, `false`, `0`, the empty string); the definition every `!data.field` guard is modelled with |
| `Protocol.Notify` | socket.js:295-297 | one reliable message per listed id, to that id, in list order |
| `Registry.InitialInv` | socket.js:7 | the empty table satisfies the registry invariant |
| `Registry.OneRoomPerConnection` | socket.js:23-31 | under the invariant a connection is a member of at most one room and never both host and client of one room |
| `Registry.UnboundIsDetached` | socket.js:278-281 | a connection with no `currentRoom`, or whose room was deleted, is in no room |
| `Membership.LeaveRoom` | socket.js:286-327 | unknown room: no change at all; otherwise the leaver's room and host flag are cleared, no other room or connection changes; a host leaving clears `host` and tells every client `host-disconnected` in list order; anyone else: the first entry holding its id, if there is one, is removed, and only then does the host, if present, get `client-disconnected`; the room stays iff it still has a host or a client |
| `Membership.Store` | socket.js:318-322 | the entry is kept exactly when occupied; every other code is unchanged |
| `Membership.JoinRoom` | socket.js:14-75 | no code: only an error to the sender, no state change; otherwise the joiner's `currentRoom` is the code, flagged by role, after leaving its previous room; only that room changes and its activity time is not refreshed; a host replaces any host and hears only `room-joined`; a client is appended and greeted by and to the host only when one is present |
| `Membership.Disconnect` | socket.js:275-282 | leaves the current room, emits exactly that leave's notices and forgets the socket; with no current room nothing changes |
| `MembershipFacts.LeavePreservesInv` | socket.js:286-327 | leaving one's own room keeps the invariant and leaves the connection in no room |
| `MembershipFacts.VacateRemovesOnlyLeaver` | socket.js:290-316 | a leave adds nobody, removes nobody but the leaver and at most one copy of it from the client list, and sends its notices only to members that remain |
| `MembershipFacts.VacateDetaches` | socket.js:290-316 | on a duplicate-free client list whose host, if it is the leaver, is flagged host and not also a client, the vacated entry no longer holds the leaver |
| `MembershipFacts.LeaveCurrentDetaches` | socket.js:23-26 | the leave before a join or a disconnect keeps the invariant and detaches the connection |
| `MembershipFacts.JoinPreservesInv` | socket.js:14-75 | `join-room` keeps the invariant |
| `MembershipFacts.DisconnectPreservesInv` | socket.js:275-282 | `disconnect` keeps the invariant and no room still lists the socket |
| `MembershipFacts.JoinMembershipIsExclusive` | socket.js:23-52 | after a join the connection is a member of the joined room and of no other, and a client id occurs exactly once in the list however often it rejoined |
| `MembershipFacts.JoinThenDisconnectRestoresRooms` | socket.js:33-52 | a connection in no room that joins (not displacing a host) and then disconnects leaves the room table exactly as it was |
| `MembershipFacts.JoinThenLeaveEntry` | socket.js:286-322 | the joined room's entry is restored, or deleted again if the join had created it |
| `Router.RuleFor` | socket.js:78-271 | the routing table, the reference the handlers are checked against: per event, target (host or room except sender), delivery class, activity refresh, required field, and whether sending needs the room's entry |
| `Router.OutPayload` | socket.js:95-98 | what is sent on: the size, quality, cursor and clipboard handlers rebuild a smaller object (socket.js:114-117, 249-252, 268-271), all others forward the payload as received |
| `Router.Route` | socket.js:77-272 | connections and membership never change; a payload without code or without the required image/frameId/text has no effect; otherwise the handler follows `RuleFor`: activity time refreshed except for cursor-position and screen-data-received, screen size stored only by screen-size, and exactly one message with the table's target, delivery class and payload when deliverable (host present for host-bound events, entry present for screen-size and quality-settings), none otherwise |
| `Router.Touch` | socket.js:91-92 | only the named room's activity time changes, and only if it exists |
| `Router.HostBoundHandler` | socket.js:139-239 | a host-bound handler past the code test: `screen-data-received` without a truthy `frameId` does nothing, every other event follows its row of `RuleFor` |
| `Router.ForwardToHost` | socket.js:152-239 | the activity time is refreshed exactly when the row says so, and one message with the row's delivery class goes to the room's host when the room exists and has one, none otherwise |
| `Router.RoomHandler` | socket.js:78-272 | a room-wide handler past the code test: `screen-data` without a truthy `image` and `clipboard-data` without a truthy `text` do nothing; every other event follows its row of `RuleFor` |
| `Router.BroadcastInRoom` | socket.js:103-272 | quality settings are sent only when the room exists, screen frames, cursor positions and clipboard text always; the activity time is refreshed except for cursor positions; the message goes to the room except the sender |
| `Router.ScreenSizeHandler` | socket.js:78-100 | with an entry, the sender's width and height become the room's screen size, its activity time is `now` and the rest of the room gets the size; without one nothing happens |
| `Sweeper.ExpiryNotices` | socket.js:339-345 | every notice names the room and goes to a member; every member gets one |
| `Sweeper.ExpiryNoticesInOrder` | socket.js:339-345 | the host's notice comes first, then one per client in list order |
| `Sweeper.SweepKeys` | socket.js:335-350 | survivors are untouched; rooms at or below the threshold survive; expired visited rooms are deleted; every notice goes to a member of a deleted room and every such member is notified |
| `Sweeper.Sweep` | socket.js:330-353 | with the table's key order, a room is deleted exactly when `now - lastActivity > threshold`; connections are untouched; notices as for `SweepKeys` |
| `SweeperFacts.QuietSweep` | socket.js:335-350 | with nothing expired, a sweep in any order changes nothing and sends nothing |
| `SweeperFacts.SweepIsIdempotent` | socket.js:330-353 | a second sweep at the same time is a no-op |
| `SweeperFacts.SweepPreservesInv` | socket.js:347 | deleting rooms keeps the invariant |
| `SweeperFacts.NotifyCount` | socket.js:343-345 | on a duplicate-free list each id gets one notice and no one else gets any |
| `SweeperFacts.NoticeCount` | socket.js:339-345 | each member of an expired room appears once among its notices |
| `SweeperFacts.SweepKeysNotifiesOnce` | socket.js:335-350 | each member of an expired room that the key order visits receives exactly one `room-expired` over the whole sweep |
| `SweeperFacts.SweepNotifiesEachMemberOnce` | socket.js:330-353 | under the invariant, exactly one `room-expired` per member of each expired room the key order visits |
| `Engine.JoinPayloadAsWritten` | socket.js:14-15 | a missing `join-room` payload makes the handler throw; a present one proceeds to the own-key `Membership.JoinRoom` |
| `Engine.MissingJoinPayloadThrows` | socket.js:15 | the handler throws a TypeError on an empty `join-room` |
| `Engine.JoinPayload` | socket.js:14-21 | a missing payload, like a missing code, is answered with the error and changes nothing |
| `Engine.Handle` | socket.js:10-282 | relay events never change connections or the set of rooms; a disconnected socket is forgotten; no other connection changes |
| `Engine.Apply` | socket.js:10-353 | one input: an event dispatched to its connection's handler, or one firing of the 30-minute timer body over a code order that is unconstrained here (the server visits every code, a `Tick` may skip some), so runs include every timer behaviour the server has |
| `Engine.Run` | socket.js:7-353 | the state after a sequence of inputs, starting from a given table, and every message sent on the way |
| `Engine.RunAppend` | socket.js:7-353 | runs compose: running `a` and then `b` from the state `a` left is running `a + b`, with the two message lists concatenated |
| `Engine.RoutePreservesInv` | socket.js:77-272 | the relay handlers keep the invariant |
| `Engine.HandlePreservesInv` | socket.js:10-282 | every handler keeps the invariant |
| `Engine.RunPreservesInv` | socket.js:7-353 | every state reachable by events and timer runs satisfies the invariant |
| `PlainObjectTable.JoinEntryAsWritten` | socket.js:33-52 | on a code naming an inherited member no entry is created: a host join writes onto the built-in and a client join throws; any other code gets an entry holding the joiner and no other code changes |
| `PlainObjectTable.BuiltinCodeBreaksJoin` | socket.js:34-52 | a client join with code `toString` on an empty server throws, and a host join leaves the table without an entry |
| `PlainObjectTable.AsWrittenAgreesOffBuiltins` | socket.js:33-52 | for a code that is not an inherited name and a connection in no room, the as-written entry step leaves exactly the room table the own-key `Membership.JoinRoom` leaves |
| `PlainObjectTable.BuiltinNamesAreOrdinaryCodes` | socket.js:33-52 | with own-key lookups, joining a code named like an inherited member creates an entry holding the joiner |
| `Scenarios.HostClientLifecycle` | socket.js:14-327 | host joins, client joins and both are greeted, host leaves and the client is told while the room survives, client leaves and the room is gone |
| `Scenarios.HostCreatesRoom` | socket.js:30-49 | a host joining an empty server creates the room with activity time `now` and default screen size, records its socket, and hears `room-joined` |
| `Scenarios.ClientJoinsHostedRoom` | socket.js:50-71 | a client joining that room is appended and hears `room-joined`; then the host hears `client-connected` and the client hears `host-connected` |
| `Scenarios.HostDisconnectsFromPair` | socket.js:275-316 | the host's disconnect clears the host, keeps the room for its client, forgets the host's socket and tells the client `host-disconnected` |
| `Scenarios.LastClientDisconnects` | socket.js:275-322 | the last member's disconnect deletes the room and sends nothing |
| `Scenarios.ClientBeforeHost` | socket.js:44-71 | a client joining an empty room hears only `room-joined`, and a later host join tells it nothing |
| `Scenarios.SecondHostTakesOver` | socket.js:44-49 | a second host replaces the first silently; both stay flagged host; the first one's disconnect leaves the rooms unchanged and sends nothing |
| `Scenarios.HostRejoinAnnouncesDeparture` | socket.js:23-49 | a host rejoining its own room makes its clients hear `host-disconnected` and nothing after it |

## Left out

- Transport: socket.io room membership (`socket.join`, never left), the
  fan-out of `socket.to(code)`, what a volatile emit actually drops, and the
  independence of the control and screen streams; targets and delivery
  classes are tags only.
- The timer itself (`setInterval` every 30 minutes) and `Date.now()`: the
  sweep body is a function of `now`, the threshold and the key order.
- Logging (`console.log`).
- Non-string room codes: `rooms[code]` would coerce a number to a string key;
  codes are strings here.
- Floating-point payload numbers and `NaN`: payload numbers are integers.
- The HTTP bootstrap, the credential routes, the database connection and its
  model, and the optional distributed broadcast adapter: server.js,
  routes/auth.js, config/db.js and models/User.js are not part of this model
  (they hold no room or relay logic; server.js also calls a constructor and
  methods that socket.js does not export).
- Sweeper.SweepKeys: states which rooms go and who is told, but not the
  order of notices across rooms, which follows the key order; within one
  room the order is stated by `Sweeper.ExpiryNoticesInOrder`.
- Engine.JoinPayloadAsWritten: models only the throw on a missing payload;
  a present payload whose code names an inherited member of the plain-object
  table (a client join with code `toString`) also throws, at socket.js:52,
  and that case is modelled separately by `PlainObjectTable.JoinEntryAsWritten`.
- Engine.Handle: models the corrected `join-room` (`Engine.JoinPayload`): a
  missing payload gets the error reply instead of a throw, and the table is
  read by own keys only; so `Engine.Run` and `Engine.RunPreservesInv` are
  about the corrected server.
- Host-occupied rejection, notifying existing clients when a host joins, and
  delivery ordering across processes: the code does not implement them.

## Findings

| source | as written | input that shows it | evidently intended | confidence | as-written member | corrected member |
|---|---|---|---|---|---|---|
| socket.js:15 | `const { code, role } = data` runs before the `!code` guard, so a `join-room` with no payload throws a TypeError in the listener; server.js installs no handler for uncaught exceptions | a client emitting `join-room` with no argument | the `!data` test every other handler has, answering with `error{message:"Room code is required"}` and changing nothing | medium, not executed | `Engine.JoinPayloadAsWritten` (`Engine.MissingJoinPayloadThrows`) | `Engine.JoinPayload` |
| socket.js:7, 34, 52 | `rooms` is a plain object, so `rooms[code]` also finds inherited members: for a code such as `toString`, `!rooms[code]` is false, no entry is created and `rooms[code].clients.push` reads an undefined `clients` and throws; a host join instead writes `host` onto the built-in (for `__proto__`, onto `Object.prototype`) | `join-room{code:"toString", role:"client"}` on a server with no such room | codes are looked up as own keys only (a `Map` or `Object.create(null)`), so every non-empty code gets its own room | high, not executed | `PlainObjectTable.JoinEntryAsWritten` (`PlainObjectTable.BuiltinCodeBreaksJoin`) | `Membership.JoinRoom` (`PlainObjectTable.BuiltinNamesAreOrdinaryCodes`, `PlainObjectTable.AsWrittenAgreesOffBuiltins`) |
