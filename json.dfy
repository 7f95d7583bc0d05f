/** Decoded JSON values, as `json.load` returns them, and the Python operations applied to them. */
module JsonDoc {
  import opened Wrappers

  datatype Json =
    | JNull
    | JBool(b: bool)
    | JNum(n: real)
    | JStr(s: string)
    | JArr(items: seq<Json>)
    | JObj(fields: map<string, Json>)

  /** A JSON object, decoded to a Python dict. */
  type Doc = map<string, Json>

  /** `d.get(key, default)`. */
  function Get(d: Doc, key: string, default: Json): Json {
    if key in d then d[key] else default
  }

  /** The number a decoded value stands for in Python arithmetic (`bool` is an `int`). */
  function AsNumber(j: Json): Option<real> {
    match j
    case JNum(n) => Some(n)
    case JBool(b) => Some(if b then 1.0 else 0.0)
    case _ => None
  }

  /** `len(j)`; a TypeError (None) for numbers, booleans and null. */
  function PyLen(j: Json): Option<nat> {
    match j
    case JArr(items) => Some(|items|)
    case JStr(s) => Some(|s|)
    case JObj(fields) => Some(|fields|)
    case _ => None
  }
}
