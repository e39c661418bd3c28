/** Decoded JSON values as the session payload and the cache hold them, and
    the option type used throughout the model. */
module Values {

  datatype Option<+T> = None | Some(value: T)

  /** A decoded JSON value. Objects occur only at the top level of a payload
      (`Data`), which is all the service ever stores. */
  datatype Value = Null | Bool(b: bool) | Int(i: int) | Str(s: string) | List(items: seq<Value>)

  /** A decoded JSON object: a session payload or a post's likes record. */
  type Data = map<string, Value>

  /** Python's truthiness of a decoded value (`if value:`). */
  predicate Truthy(v: Value) {
    match v
    case Null => false
    case Bool(b) => b
    case Int(i) => i != 0
    case Str(s) => s != ""
    case List(items) => items != []
  }
}
