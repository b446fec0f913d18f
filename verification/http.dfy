/**
 * What a handler sees of the web framework: the request body as the JSON
 * binder decodes it, the basic-auth header, and the reply it writes back
 * (status code and JSON body).
 */
module Http {

  const StatusOK := 200
  const StatusCreated := 201
  const StatusBadRequest := 400
  const StatusUnauthorized := 401
  const StatusNotFound := 404
  const StatusConflict := 409

  /** The outcome of binding the request body: a record, or the binder's error text. */
  datatype Decoded<T> = Decoded(value: T) | DecodeError(message: string)

  /** The credentials read from an `Authorization: Basic` header, if there is a well-formed one. */
  datatype BasicAuth = NoCredentials | Credentials(username: string, password: string)

  /** A JSON reply body: a one-key object such as {"error": "..."}, one record, or an array of records. */
  datatype Json<T> = Keyed(key: string, text: string) | Item(item: T) | Items(items: seq<T>)

  datatype Reply<T> = Reply(status: int, body: Json<T>)

  /** The store a handler leaves behind, with the reply it writes. */
  datatype Outcome<T> = Outcome(store: seq<T>, reply: Reply<T>)

  function ErrorReply<T>(status: int, text: string): Reply<T> {
    Reply(status, Keyed("error", text))
  }

  function MessageReply<T>(status: int, text: string): Reply<T> {
    Reply(status, Keyed("message", text))
  }
}
