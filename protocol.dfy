/** The request and response values the chat server exchanges with its
    clients, already decoded: the server reads tagged requests and queues
    tagged responses. */
module ChatProtocol {

  datatype Option<T> = None | Some(value: T)

  /** A user's presence, as the server stores it in `clients[name]["status"]`. */
  datatype Status = Online | Busy | Offline

  /** The operation tag carried by every request and response. */
  datatype Operation = OpRegisterUser | OpSendMessage | OpGetUsers | OpUpdateStatus | OpUnregisterUser

  datatype StatusCode = Ok | BadRequest | InternalServerError

  /** The optional body of a response: nothing, a delivered message, or a
      user list of type ALL holding only usernames. */
  datatype Payload =
    | NoPayload
    | Incoming(content: string, sender: string)
    | UserList(users: seq<string>)

  datatype Response = Response(operation: Operation, statusCode: StatusCode, message: string, payload: Payload)

  /** A parsed request. Fields the client left unset hold their default
      values, as the decoder's accessors return them: `newStatus` is the
      value `new_status()` yields, whether or not the field was present. */
  datatype Request =
    | RegisterUserRequest(username: string)
    | SendMessageRequest(content: string, recipient: string)
    | GetUsersRequest(username: string)
    | UpdateStatusRequest(newStatus: Status)
    | UnregisterUserRequest
    | UnknownRequest

  /** Reply to a successful registration. */
  const RegisterOk := Response(OpRegisterUser, Ok, "Usuario registrado correctamente.", NoPayload)

  /** What a broadcast puts on the global queue: a bare acknowledgement with
      no message payload. */
  const MessageSent := Response(OpSendMessage, Ok, "Message sent.", NoPayload)

  /** Reply to a direct message addressed to a name that is not registered. */
  const UserNotFound := Response(OpSendMessage, BadRequest, "User not found.", NoPayload)

  /** Reply to a status change. */
  const StatusUpdated := Response(OpUpdateStatus, Ok, "Status updated.", NoPayload)

  /** What a direct message puts on the recipient's queue. */
  function DirectMessage(content: string, sender: string): Response
  {
    Response(OpSendMessage, Ok, "Message sent.", Incoming(content, sender))
  }

  /** The roster reply: every name in `names`, in order. */
  function UsersList(names: seq<string>): Response
  {
    Response(OpGetUsers, Ok, "Lista de usuarios.", UserList(names))
  }
}
