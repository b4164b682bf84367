/** The values `json.loads` produces, and the two pieces of Python behaviour
    the rendering code relies on: `dict.get` with a default and truthiness. */
module Json {

  /** A decoded JSON document. Objects are dictionaries keyed by string (a
      repeated key keeps its last value, so a map is faithful); numbers are
      kept as exact reals. */
  datatype Json =
    | JNull
    | JBool(b: bool)
    | JNumber(n: real)
    | JString(s: string)
    | JArray(items: seq<Json>)
    | JObject(fields: map<string, Json>)

  /** `d.get(key, default)` on a dictionary. */
  function Get(fields: map<string, Json>, key: string, default: Json): Json {
    if key in fields then fields[key] else default
  }

  /** Python's `bool(v)` on a decoded value: None, False, zero and empty
      containers are false, everything else is true. */
  predicate Truthy(v: Json) {
    match v
    case JNull => false
    case JBool(b) => b
    case JNumber(n) => n != 0.0
    case JString(s) => |s| > 0
    case JArray(items) => |items| > 0
    case JObject(fields) => |fields| > 0
  }
}
