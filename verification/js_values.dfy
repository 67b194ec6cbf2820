/**
 * JSON values as the route handlers receive them from `request.json()`, with
 * JavaScript's truthiness, and the request shape shared by the three routes.
 */
module JsValues {
  /** A parsed JSON value; `Undefined` stands for a property that is absent. */
  datatype Value =
    | Undefined
    | Null
    | Bool(b: bool)
    | Number(x: real)
    | Str(s: string)
    | Array(items: seq<Value>)
    | Object(fields: map<string, Value>)

  /** `!!v`: false for undefined, null, false, 0 and the empty string. */
  predicate Truthy(v: Value): (b: bool)
    ensures !b <==> v == Undefined || v == Null || v == Bool(false) || v == Number(0.0) || v == Str("")
  {
    match v
    case Undefined => false
    case Null => false
    case Bool(b) => b
    case Number(x) => x != 0.0
    case Str(s) => s != ""
    case Array(_) => true
    case Object(_) => true
  }

  /**
   * The body of a request once `await request.json()` and the destructuring
   * of its fields have run: either they threw (the body is not JSON, or is
   * JSON `null`), or the named properties can be read. A body that is a JSON
   * value other than an object reads as having no properties.
   */
  datatype Body = Unreadable(reason: string) | Readable(fields: map<string, Value>)

  /** Reading property `name`; an absent property is `undefined`. */
  function Field(fields: map<string, Value>, name: string): Value {
    if name in fields then fields[name] else Undefined
  }
}
