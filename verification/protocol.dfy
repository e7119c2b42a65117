/** The message vocabulary of the relay: inbound payloads, outbound event
    names, delivery classes, targets and outbound payloads. */
module Protocol {
  import opened Js

  /** A room code. The empty string stands for both a missing and an empty
      code: the handlers reject both with the same `!code` test. */
  type Code = string

  /** A transport connection id (`socket.id`). */
  type ConnId = string

  /** The relay events a connection can send besides `join-room` and the
      implicit `disconnect`. */
  datatype Kind =
    | ScreenSizeIn | QualitySettingsIn | ScreenDataIn | ScreenDataReceivedIn
    | MouseMoveIn | MouseClickIn | MouseDoubleClickIn | MouseScrollIn | KeyPressIn
    | CursorPositionIn | ClipboardDataIn

  /** Names of the events the server emits. */
  datatype EventName =
    | Error | RoomJoined | ClientConnected | HostConnected | HostDisconnected
    | ClientDisconnected | RoomExpired
    | ScreenSize | QualitySettings | ScreenData | ScreenDataReceived
    | MouseMove | MouseClick | MouseDoubleClick | MouseScroll | KeyPress
    | CursorPosition | ClipboardData

  /** A relay event is re-emitted under its own name. */
  function NameOf(k: Kind): (n: EventName)
    ensures n !in {Error, RoomJoined, ClientConnected, HostConnected, HostDisconnected, ClientDisconnected, RoomExpired}
  {
    match k
    case ScreenSizeIn => ScreenSize
    case QualitySettingsIn => QualitySettings
    case ScreenDataIn => ScreenData
    case ScreenDataReceivedIn => ScreenDataReceived
    case MouseMoveIn => MouseMove
    case MouseClickIn => MouseClick
    case MouseDoubleClickIn => MouseDoubleClick
    case MouseScrollIn => MouseScroll
    case KeyPressIn => KeyPress
    case CursorPositionIn => CursorPosition
    case ClipboardDataIn => ClipboardData
  }

  /** `.volatile.emit` (may be dropped under congestion) versus a plain emit.
      Only the tag is modelled, not what the transport does with it. */
  datatype Delivery = Reliable | Volatile

  /** `io.to(id)` and `socket.emit` address one connection; `socket.to(code)`
      addresses every member of the transport room except the sender, a set
      the room table does not determine. */
  datatype Target = ToConn(id: ConnId) | RoomExcept(room: Code, sender: ConnId)

  /** The payload of a relay event, as received. Fields a client leaves out
      are `Undefined`. */
  datatype Data = Data(
    code: Code, image: Value, frameId: Value, text: Value,
    width: Value, height: Value, quality: Value, frameRate: Value,
    x: Value, y: Value)

  /** The payload of `join-room`. */
  datatype JoinData = JoinData(code: Code, role: Value)

  datatype Payload =
    | ErrorInfo(message: string)
    | Joined(room: Code, role: string)
    | ClientInfo(room: Code, clientId: ConnId)
    | HostInfo(room: Code, hostId: ConnId)
    | RoomInfo(room: Code)
    | Size(width: Value, height: Value)
    | Quality(quality: Value, frameRate: Value)
    | Cursor(x: Value, y: Value)
    | Clipboard(text: Value, sender: ConnId)
    | Forwarded(data: Data)

  /** One outbound emit. */
  datatype Msg = Msg(target: Target, name: EventName, delivery: Delivery, payload: Payload)

  /** `ids.forEach(id => io.to(id).emit(name, p))`: one plain emit per id, in
      list order. */
  function Notify(ids: seq<ConnId>, name: EventName, p: Payload): (ms: seq<Msg>)
    ensures |ms| == |ids|
    ensures forall i :: 0 <= i < |ids| ==> ms[i] == Msg(ToConn(ids[i]), name, Reliable, p)
  {
    if |ids| == 0 then [] else [Msg(ToConn(ids[0]), name, Reliable, p)] + Notify(ids[1..], name, p)
  }

  const MissingCodeMessage: string := "Room code is required"
}
