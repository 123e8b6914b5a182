/**
 * The few JavaScript value semantics the table relies on: truthiness,
 * nullish coalescing (`??`) and plain objects used as records.
 */
module Values {

  /** A JavaScript value, as far as the table looks into it. */
  datatype Value =
    | Undef
    | Null
    | Bool(b: bool)
    | Num(n: real)
    | Str(s: string)
    | Func(fid: nat)   // a function reference, compared by identity
    | Obj(oid: nat)    // any other object, compared by identity

  /** JavaScript truthiness (NaN is not modelled). */
  predicate Truthy(v: Value) {
    match v
    case Undef => false
    case Null => false
    case Bool(b) => b
    case Num(n) => n != 0.0
    case Str(s) => s != ""
    case Func(_) => true
    case Obj(_) => true
  }

  predicate Nullish(v: Value) {
    v.Undef? || v.Null?
  }

  /** `a ?? b` */
  function Coalesce(a: Value, b: Value): Value {
    if Nullish(a) then b else a
  }

  /**
   * A plain object. A key that is absent reads as `undefined`; a key stored
   * with the value `undefined` is still present (it survives a spread).
   */
  type Record = map<string, Value>

  /** `record[key]` */
  function Get(r: Record, key: string): Value {
    if key in r then r[key] else Undef
  }

  /** `Boolean(v)` */
  function ToBool(v: Value): bool {
    Truthy(v)
  }
}
