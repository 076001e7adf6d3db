/**
 * Parsed JSON values as Python's json module hands them to the pipeline, and
 * the Python operations the pipeline applies to them. Each operation answers
 * None where Python raises (TypeError, KeyError, IndexError, AttributeError).
 */
module JsonValue {
  import opened Wrappers

  datatype Json =
    | Null
    | Bool(b: bool)
    | Int(i: int)
    | Str(s: string)
    | Arr(items: seq<Json>)
    | Obj(fields: map<string, Json>)

  /** `bool(value)`. */
  predicate Truthy(j: Json)
  {
    match j
    case Null => false
    case Bool(b) => b
    case Int(i) => i != 0
    case Str(s) => s != ""
    case Arr(items) => items != []
    case Obj(fields) => fields != map[]
  }

  /** `value[key]` with a string key: only a dict that holds the key answers. */
  function Lookup(j: Json, key: string): Option<Json>
  {
    if j.Obj? && key in j.fields then Some(j.fields[key]) else None
  }

  /** `value.get(key, default)`: only a dict has `.get`. */
  function Get(j: Json, key: string, default: Json): Option<Json>
  {
    if !j.Obj? then None
    else if key in j.fields then Some(j.fields[key])
    else Some(default)
  }

  /** `len(value)`. */
  function Len(j: Json): Option<nat>
  {
    match j
    case Str(s) => Some(|s|)
    case Arr(items) => Some(|items|)
    case Obj(fields) => Some(|fields|)
    case _ => None
  }

  /**
   * `value[i]` for `0 <= i`: a list yields an element, a string a one-character
   * string; a dict decoded from JSON has only string keys, so an integer
   * subscript raises KeyError.
   */
  function Index(j: Json, i: nat): Option<Json>
  {
    match j
    case Arr(items) => if i < |items| then Some(items[i]) else None
    case Str(s) => if i < |s| then Some(Str([s[i]])) else None
    case _ => None
  }

  predicate IsPrefix(p: string, s: string)
  {
    |p| <= |s| && s[..|p|] == p
  }

  /** Python's `p in s` on strings. */
  predicate IsSubstring(p: string, s: string)
    decreases |s|
  {
    IsPrefix(p, s) || (s != [] && IsSubstring(p, s[1..]))
  }

  /**
   * `needle in value`: key membership for a dict, element equality for a
   * list, substring for a string; the other values raise TypeError.
   */
  function Contains(j: Json, needle: string): Option<bool>
  {
    match j
    case Obj(fields) => Some(needle in fields)
    case Arr(items) => Some(Str(needle) in items)
    case Str(s) => Some(IsSubstring(needle, s))
    case _ => None
  }
}
