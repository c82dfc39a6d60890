/**
 * Decoded JSON / Firestore values as the Python code sees them after
 * `json.loads` or after Firestore's `to_dict()`: `None`, `bool`, `int`, `str`,
 * `list` and `dict` with string keys.  Floating-point numbers are not part of
 * the model.
 */
module Json {
  import opened Wrappers
  import opened Strings

  datatype Json =
    | JNull
    | JBool(b: bool)
    | JInt(i: int)
    | JStr(s: string)
    | JArr(items: seq<Json>)
    | JObj(fields: map<string, Json>)

  /** `d.get(key)`: a missing key reads as `None`, like a key bound to `null`. */
  function Get(d: map<string, Json>, key: string): Json {
    if key in d then d[key] else JNull
  }

  /** Python truthiness (`bool(v)`, `v or w`, `if v:`). */
  predicate Truthy(v: Json) {
    match v
    case JNull => false
    case JBool(b) => b
    case JInt(i) => i != 0
    case JStr(s) => |s| > 0
    case JArr(a) => |a| > 0
    case JObj(o) => |o| > 0
  }

  /**
   * `v` if `isinstance(v, int)`: in Python `bool` is a subclass of `int`, so
   * `True` and `False` pass the check as 1 and 0.
   */
  function AsPyInt(v: Json): Option<int> {
    match v
    case JInt(i) => Some(i)
    case JBool(b) => Some(if b then 1 else 0)
    case _ => None
  }

  /** `v` if `isinstance(v, str)`. */
  function AsStr(v: Json): Option<string> {
    if v.JStr? then Some(v.s) else None
  }

  /** An optional string as the JSON value Python would store for it. */
  function OptStr(v: Option<string>): Json {
    match v
    case Some(s) => JStr(s)
    case None => JNull
  }

  /** A value that passes `isinstance(v, str) and v.strip()`. */
  predicate IsNonBlankStr(v: Json) {
    v.JStr? && !IsBlank(v.s)
  }
}
