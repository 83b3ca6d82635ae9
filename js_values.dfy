/** Parsed JSON values and the few JavaScript operators the edge function applies
    to them: truthiness (`!v`), `typeof v === "object"`, property reads and `!= null`. */
module JsValues {
  import opened Wrappers

  /** A value produced by `JSON.parse`. */
  datatype Json =
    | Null
    | Bool(b: bool)
    | Num(n: real)
    | Str(s: string)
    | Arr(items: seq<Json>)
    | Obj(fields: map<string, Json>)

  /** JavaScript truthiness: `null`, `false`, `0` and `""` are falsy; every array
      and every object (even an empty one) is truthy. */
  predicate Truthy(v: Json) {
    match v
    case Null => false
    case Bool(b) => b
    case Num(n) => n != 0.0
    case Str(s) => s != ""
    case Arr(_) => true
    case Obj(_) => true
  }

  /** `typeof v === "object"`, which holds of `null`, arrays and objects. */
  predicate TypeofObject(v: Json) {
    v.Null? || v.Arr? || v.Obj?
  }

  /** The property read `v[key]`, `None` standing for `undefined`. Only own keys of
      objects are read: the keys the function looks up are neither array
      properties (`length`, indices) nor inherited from `Object.prototype`. */
  function Prop(v: Json, key: string): (p: Option<Json>)
    ensures p.Some? <==> v.Obj? && key in v.fields
    ensures p.Some? ==> p.value == v.fields[key]
  {
    match v
    case Obj(fields) => if key in fields then Some(fields[key]) else None
    case _ => None
  }

  /** Truthiness of a property read; `undefined` is falsy. */
  predicate TruthyProp(p: Option<Json>) {
    p.Some? && Truthy(p.value)
  }

  /** `p != null` with JavaScript's loose equality: neither `undefined` nor `null`. */
  predicate NotNullish(p: Option<Json>) {
    p.Some? && !p.value.Null?
  }
}
