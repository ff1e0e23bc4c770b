/** Parsed JSON values, as `json.loads` returns them. Numbers keep their
    decimal text: the core copies them but never computes with them. */
module JsonData {
  import opened Wrappers

  datatype Json =
    | JNull
    | JBool(b: bool)
    | JNumber(literal: string)
    | JString(s: string)
    | JArray(items: seq<Json>)
    | JObject(fields: map<string, Json>)
  {
    /** Python truthiness of a parsed value (`if value:`). */
    predicate Truthy() {
      match this
      case JNull => false
      case JBool(b) => b
      case JNumber(lit) => HasNonZeroMantissa(lit)
      case JString(s) => s != []
      case JArray(items) => items != []
      case JObject(fields) => fields != map[]
    }
  }

  /** A numeric literal is non-zero when a digit 1-9 occurs before its exponent. */
  predicate HasNonZeroMantissa(lit: string) {
    exists i | 0 <= i < |lit| :: lit[i] in "123456789" && forall j :: 0 <= j < i ==> lit[j] !in "eE"
  }

  // ---------------------------------------------------------------------
  // Python operations on parsed JSON; None where Python would raise
  // ---------------------------------------------------------------------

  /** `j[key]` for a string key. */
  function Subscript(j: Json, key: string): Option<Json> {
    if j.JObject? && key in j.fields then Some(j.fields[key]) else None
  }

  /** `j.get(key, default)`: only a dict has `get`. */
  function Get(j: Json, key: string, default: Json): (r: Option<Json>)
    ensures r.Some? <==> j.JObject?
  {
    if !j.JObject? then None
    else if key in j.fields then Some(j.fields[key])
    else Some(default)
  }

  /** `j[0]` */
  function First(j: Json): Option<Json> {
    match j
    case JArray(items) => if items == [] then None else Some(items[0])
    case JString(s) => if s == [] then None else Some(JString([s[0]]))
    case _ => None
  }

  /** `len(j)` */
  function Len(j: Json): Option<nat> {
    match j
    case JArray(items) => Some(|items|)
    case JString(s) => Some(|s|)
    case JObject(fields) => Some(|fields|)
    case _ => None
  }

  /** The elements a `for` loop visits when the body then uses each one as a
      dict: a string or a dict yields strings, on which that use raises, so
      only an empty one gets through. */
  function Elements(j: Json): Option<seq<Json>> {
    match j
    case JArray(items) => Some(items)
    case JString(s) => if s == [] then Some([]) else None
    case JObject(fields) => if fields == map[] then Some([]) else None
    case _ => None
  }
}
