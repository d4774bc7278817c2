/** Responses as the routes send them: a status code and a JSON body. */
module Http {
  import opened Wrappers
  import opened Db

  /** The user object sent to clients: never the password hash. */
  datatype PublicUser = PublicUser(id: string, email: string, displayName: Option<string>)

  datatype Body =
    | Error(error: string)                       // { error }
    | Session(token: string, user: PublicUser)   // { token, user }
    | ChatList(chats: seq<Chat>)
    | ChatRow(chat: Chat)
    | MessageList(messages: seq<Message>)
    | MessageRow(message: Message)
    | Ok                                         // { ok: true }
    | InternalError                              // { error: e.message }, the text not modelled

  datatype Response = Response(status: int, body: Body)

  /** A response together with the store after the request. */
  datatype Outcome = Outcome(response: Response, store: Store)

  /** JavaScript truthiness of an optional string field: present and not `""`. */
  predicate Present(field: Option<string>) {
    field.Some? && field.value != ""
  }

  const Unauthorized := Response(401, Error("Unauthorized"))
  const InvalidToken := Response(401, Error("Invalid token"))
  const CredentialsRequired := Response(400, Error("email and password required"))
  const EmailUsed := Response(409, Error("email already used"))
  const InvalidCredentials := Response(401, Error("invalid credentials"))
  const NotFound := Response(404, Error("Not found"))
  const RoleContentRequired := Response(400, Error("role and content required"))
  /** The catch-all 500, here reached only when the store rejects a write. */
  const StoreFailure := Response(500, InternalError)
}
