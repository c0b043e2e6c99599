/**
 * The values `JSON.parse` produces, and the two JavaScript operations the
 * pipeline applies to them without knowing their shape: truthiness and
 * property read.
 */
module Json {
  import opened Wrappers

  /**
   * A parsed JSON value. Object members are a map: the order of keys only
   * shows in the text `JSON.stringify` writes, which is not part of this model.
   */
  datatype Value =
    | Null
    | Bool(b: bool)
    | Num(n: real)
    | Str(s: string)
    | Arr(elems: seq<Value>)
    | Obj(fields: map<string, Value>)

  /** JavaScript truthiness of a parsed value. */
  predicate Truthy(v: Value)
  {
    match v
    case Null => false
    case Bool(b) => b
    case Num(n) => n != 0.0
    case Str(s) => s != []
    case _ => true
  }

  /**
   * `v[key]` for the member names the pipeline reads (`audits`, `details`,
   * `items`, ...): an own member of an object, `undefined` (None) on anything
   * else, since arrays, strings, numbers and booleans have no such property.
   */
  function Get(v: Value, key: string): (r: Option<Value>)
    ensures r.Some? <==> v.Obj? && key in v.fields
  {
    if v.Obj? && key in v.fields then Some(v.fields[key]) else None
  }

  /** `v[key] ?? null`: a missing or null member reads as null. */
  function GetOrNull(v: Value, key: string): (r: Value)
    ensures r != Null ==> Get(v, key) == Some(r)
    ensures Get(v, key).Some? && Get(v, key).value != Null ==> r == Get(v, key).value
  {
    match Get(v, key)
    case Some(x) => x
    case None => Null
  }
}
