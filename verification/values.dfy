/**
 The JavaScript values that flow through the client: what a caller passes
 as request options and what response cleanup produces. Numbers are exact
 decimals in lowest terms; objects keep their key order.
 */
module Values {
  import opened Wrappers
  import opened OrderedMaps
  import opened DecimalText

  datatype Value =
    | Nil                       // undefined (and null)
    | Bool(b: bool)
    | Num(n: Number)            // a finite number
    | NaN                       // the number NaN
    | Str(s: string)
    | List(items: seq<Value>)   // an array
    | Obj(fields: OMap<Value>)  // a plain object

  /** A non-negative integer as a number value. */
  function Int(i: nat): Value {
    Num(Decimal(false, i, ""))
  }

  /** `Number.isInteger`. */
  predicate IsInteger(v: Value) {
    v.Num? && IsWhole(v.n)
  }

  /** JavaScript truthiness: `undefined`, `false`, `0`, `NaN` and `""` are the falsy values. */
  predicate Truthy(v: Value) {
    match v
    case Nil => false
    case Bool(b) => b
    case Num(n) => n.whole != 0 || !IsWhole(n)
    case NaN => false
    case Str(s) => s != ""
    case List(_) => true
    case Obj(_) => true
  }

  /** Property read `v[k]`: a missing property, or any property of a non-object, is `undefined`. */
  function Prop(v: Value, k: string): Value {
    if v.Obj? then Get(v.fields, k).GetOr(Nil) else Nil
  }
}
