/** Values shared by every part of the model: optional values, results,
    request replies, JSON request bodies and identifiers. */
module Common {

  /** A value that may be absent (`undefined` in a request body or `null`
      from a store lookup). */
  datatype Option<+T> = None | Some(value: T) {
    function GetOr(default: T): T {
      if Some? then value else default
    }
  }

  /** A computation that either yields a value or fails with an error. */
  datatype Result<+T, +E> = Ok(value: T) | Err(error: E)

  /** Store-generated document identifiers (ObjectIds), kept opaque. */
  type Id = string

  /** A clock reading (`Date.now`), kept opaque. */
  type Time = int

  /** JavaScript truthiness of an optional string field: it is there and it
      is not the empty string. */
  predicate Truthy(o: Option<string>) {
    o.Some? && o.value != ""
  }

  /** The HTTP status of a response and the human-readable text of its JSON
      body (its `message` or `error` field; "" where the body has neither). */
  datatype Reply = Reply(status: int, message: string)

  /** A parsed JSON value, as `express.json()` hands request bodies over. */
  datatype Json =
    | JNull
    | JBool(b: bool)
    | JNum(n: real)
    | JStr(s: string)
    | JArr(elems: seq<Json>)
    | JObj(fields: map<string, Json>)
}
