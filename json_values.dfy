/**
 * JSON values as JavaScript sees them after JSON.parse, and JavaScript's
 * truthiness on them. Numbers are integers here; fractions, NaN and the
 * infinities are not modelled.
 */
module JsonValues {
  import opened JsText

  datatype Json =
    | JNull
    | JBool(b: bool)
    | JNum(n: int)
    | JStr(s: string)
    | JArr(items: seq<Json>)
    | JObj(fields: map<string, Json>)

  /** `if (value)`: false, 0, "" and null are falsy; arrays and objects, even empty, are truthy. */
  predicate Truthy(v: Json)
  {
    match v
    case JNull => false
    case JBool(b) => b
    case JNum(n) => n != 0
    case JStr(s) => s != ""
    case JArr(_) => true
    case JObj(_) => true
  }

  /** `obj[key]` on a parsed value: a field of an object, otherwise undefined. */
  function Field(v: Json, key: string): Option<Json>
  {
    if v.JObj? && key in v.fields then Some(v.fields[key]) else None
  }
}
