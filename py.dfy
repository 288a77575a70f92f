/**
 * The few pieces of the Python runtime and of the JSON documents that the
 * synchronisation code manipulates: decoded JSON values, Python truthiness,
 * the exception kinds the code distinguishes, and the shape of an HTTP
 * exchange whose answer is supplied from outside.
 */
module Py {

  /** A decoded JSON value (what `response.json()` yields). */
  datatype Value =
    | Null
    | Bool(b: bool)
    | Int(i: int)
    | Str(s: string)
    | Arr(items: seq<Value>)
    | Obj(fields: map<string, Value>)

  /** Python's truth value of a decoded JSON value (`if v:` / `v or default`). */
  predicate Truthy(v: Value) {
    match v
    case Null => false
    case Bool(b) => b
    case Int(i) => i != 0
    case Str(s) => s != ""
    case Arr(items) => items != []
    case Obj(fields) => fields != map[]
  }

  /**
   * The exception kinds that the orchestrator tells apart:
   * `http.client.RemoteDisconnected`, `ValueError`, and everything else
   * (TypeError, KeyError, IndexError, AttributeError, OverflowError, ...).
   */
  datatype Exception = Disconnected | ValueErr | Other

  /**
   * One HTTP exchange as the caller sees it: either a response with a status
   * code and a decoded body, or an exception raised by the HTTP client.
   */
  datatype HttpAnswer<+T> = Response(status: int, body: T) | Raise(error: Exception)
}
