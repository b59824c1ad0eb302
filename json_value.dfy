/** Decoded JSON values, as `json.loads` hands them to the backend code. */
module JsonValue {

  /** A JSON value. A number written with a fraction or an exponent (`2.5`,
      `2e3`) becomes `Float`, holding the exact value of the finite double
      `json.loads` rounds it to; one written as a plain integer becomes
      `Int`. Python dicts become maps (their key order is not kept). */
  datatype Value =
    | Null
    | Bool(b: bool)
    | Int(i: int)
    | Float(f: real)
    | Str(s: string)
    | List(items: seq<Value>)
    | Object(fields: map<string, Value>)

  /** A Python dict decoded from a JSON object. */
  type Doc = map<string, Value>

  /** Python truthiness of a decoded value: `None`, `False`, zero, and empty
      strings, lists and dicts are false; everything else is true. */
  predicate Truthy(v: Value) {
    match v
    case Null => false
    case Bool(b) => b
    case Int(i) => i != 0
    case Float(f) => f != 0.0
    case Str(s) => s != []
    case List(items) => items != []
    case Object(fields) => fields != map[]
  }
}
