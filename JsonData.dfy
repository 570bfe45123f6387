/** Decoded JSON values as the handlers receive them, and the Python operations
    the handlers apply to them: truthiness (`not x`), membership (`k in x`),
    subscripting (`x[k]`), `x.get(k, d)` and `len(x)`. Each operation that Python
    rejects for a value's type yields the exception text CPython 3.11 gives. */
module JsonData {
  import opened Base

  datatype Json =
    | JNull
    | JBool(b: bool)
    | JInt(i: int)
    | JFloat(x: real)
    | JStr(s: string)
    | JArray(items: seq<Json>)
    | JObject(fields: map<string, Json>)

  /** The Python type name of the value a JSON decoder produces. */
  function TypeName(v: Json): string
  {
    match v
    case JNull => "NoneType"
    case JBool(_) => "bool"
    case JInt(_) => "int"
    case JFloat(_) => "float"
    case JStr(_) => "str"
    case JArray(_) => "list"
    case JObject(_) => "dict"
  }

  function NoAttribute(v: Json, attribute: string): string
  {
    "'" + TypeName(v) + "' object has no attribute '" + attribute + "'"
  }

  /** Python truthiness: `not v` holds exactly when this is false. */
  predicate Truthy(v: Json)
  {
    match v
    case JNull => false
    case JBool(b) => b
    case JInt(i) => i != 0
    case JFloat(x) => x != 0.0
    case JStr(s) => |s| > 0
    case JArray(items) => |items| > 0
    case JObject(fields) => |fields| > 0
  }

  /** For the containers, `not v` is `len(v) == 0`; `None` is always falsy. */
  lemma TruthyMeansNonEmpty(v: Json)
    ensures v == JNull ==> !Truthy(v)
    ensures Len(v).Ok? ==> (Truthy(v) <==> Len(v).value > 0)
  {
  }

  predicate OccursAt(needle: string, haystack: string, k: int)
  {
    0 <= k <= |haystack| - |needle| && haystack[k..k + |needle|] == needle
  }

  /** Python's `needle in haystack` on strings. */
  predicate IsSubstring(needle: string, haystack: string)
  {
    exists k :: 0 <= k <= |haystack| - |needle| && OccursAt(needle, haystack, k)
  }

  /** `key in v` for a string key. */
  function Contains(v: Json, key: string): (r: Result<bool>)
    ensures v.JObject? ==> r == Ok(key in v.fields)
    ensures r.Err? <==> !(v.JObject? || v.JStr? || v.JArray?)
  {
    match v
    case JObject(fields) => Ok(key in fields)
    case JStr(s) => Ok(IsSubstring(key, s))
    case JArray(items) => Ok(JStr(key) in items)
    case _ => Err("argument of type '" + TypeName(v) + "' is not iterable")
  }

  /** `v[key]` for a string key. */
  function GetItem(v: Json, key: string): (r: Result<Json>)
    ensures v.JObject? && key in v.fields ==> r == Ok(v.fields[key])
    ensures r.Ok? ==> v.JObject?
  {
    match v
    case JObject(fields) =>
      if key in fields then Ok(fields[key]) else Err("'" + key + "'")
    case JStr(_) => Err("string indices must be integers, not 'str'")
    case JArray(_) => Err("list indices must be integers or slices, not str")
    case _ => Err("'" + TypeName(v) + "' object is not subscriptable")
  }

  /** `v.get(key, default)`. */
  function Get(v: Json, key: string, default: Json): (r: Result<Json>)
    ensures v.JObject? ==> r == Ok(if key in v.fields then v.fields[key] else default)
    ensures r.Err? <==> !v.JObject?
  {
    match v
    case JObject(fields) => Ok(if key in fields then fields[key] else default)
    case _ => Err(NoAttribute(v, "get"))
  }

  /** `v.keys()`: only a dict has it. */
  function Keys(v: Json): (r: Result<set<string>>)
    ensures r.Ok? <==> v.JObject?
  {
    match v
    case JObject(fields) => Ok(fields.Keys)
    case _ => Err(NoAttribute(v, "keys"))
  }

  /** `len(v)`. */
  function Len(v: Json): (r: Result<nat>)
    ensures v.JStr? ==> r == Ok(|v.s|)
    ensures r.Ok? <==> (v.JStr? || v.JArray? || v.JObject?)
  {
    match v
    case JStr(s) => Ok(|s|)
    case JArray(items) => Ok(|items|)
    case JObject(fields) => Ok(|fields|)
    case _ => Err("object of type '" + TypeName(v) + "' has no len()")
  }
}
