/** The optional-value datatype used for nullable fields (`room.host`,
    `socket.currentRoom`) and for payloads a client may omit. */
module Wrappers {

  datatype Option<+T> = None | Some(value: T)
}
