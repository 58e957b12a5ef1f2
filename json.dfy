/**
 * JSON values as the source's JavaScript sees them. A plain object is a map
 * from property names to values; an absent key is `undefined`. Object spread
 * `{ ...a, ...b }` is the map union `a + b` (the right operand wins).
 */
module Json {
  import opened Wrappers

  datatype Value =
    | Null
    | Bool(b: bool)
    | Num(n: real)
    | Str(s: string)
    | Arr(items: seq<Value>)
    | Obj(fields: map<string, Value>)

  type Object = map<string, Value>

  /** `o[k] ?? fallback`: the fallback replaces `undefined` and `null` only. */
  function Coalesce(o: Object, k: string, fallback: Value): (v: Value)
    ensures (k in o && o[k] != Null) ==> v == o[k]
    ensures (k !in o || o[k] == Null) ==> v == fallback
  {
    if k in o && o[k] != Null then o[k] else fallback
  }

  /** JavaScript truthiness of a present value. */
  predicate Truthy(v: Value) {
    match v
    case Null => false
    case Bool(b) => b
    case Num(n) => n != 0.0
    case Str(s) => s != ""
    case Arr(_) => true
    case Obj(_) => true
  }

  /** The string held under `k`, if the property is a string. */
  function StringField(o: Object, k: string): (r: Option<string>)
    ensures r.Some? <==> (k in o && o[k].Str?)
    ensures r.Some? ==> o[k] == Str(r.value)
  {
    if k in o && o[k].Str? then Some(o[k].s) else None
  }

  /** The number held under `k`, if the property is a number. */
  function NumberField(o: Object, k: string): (r: Option<real>)
    ensures r.Some? <==> (k in o && o[k].Num?)
    ensures r.Some? ==> o[k] == Num(r.value)
  {
    if k in o && o[k].Num? then Some(o[k].n) else None
  }
}
