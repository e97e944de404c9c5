/** The JSON-compatible values the library moves around (decoded response
    bodies, request parameters, object fields), with the two PHP
    conversions the core relies on: truthiness and conversion to string. */
module JsonValues {
  import opened Text

  /** A decoded JSON value. Numbers are integers; a JSON object becomes an
      associative PHP array, modelled as a map from key to value. */
  datatype Json =
    | JNull
    | JBool(b: bool)
    | JNum(n: int)
    | JString(s: string)
    | JArray(items: seq<Json>)
    | JObject(fields: map<string, Json>)

  /** PHP's `empty()` on a string: the empty string and "0" are empty. */
  predicate EmptyString(s: string) {
    s == "" || s == "0"
  }

  /** PHP truthiness (`if ($v)`, `!$v`). */
  predicate Truthy(v: Json) {
    match v
    case JNull => false
    case JBool(b) => b
    case JNum(n) => n != 0
    case JString(s) => !EmptyString(s)
    case JArray(items) => |items| > 0
    case JObject(fields) => |fields| > 0
  }

  /** PHP's string conversion of a value placed in a string, as in
      `'/'.$id`: ints in decimal, true as "1", false and null as "",
      arrays as "Array". */
  function PhpString(v: Json): (r: string)
  {
    match v
    case JNull => ""
    case JBool(b) => if b then "1" else ""
    case JNum(n) => IntToString(n)
    case JString(s) => s
    case JArray(_) => "Array"
    case JObject(_) => "Array"
  }
}
