/** The untyped data records the renderers and forms pass around, and the
    JavaScript conversions applied to their values. */
module Values {
  import opened Wrappers
  import opened JsObject
  import Text

  /** A value stored under a key of a data record: a string, a number, a
      checkbox boolean, `null`, or a repeater's array of item records. */
  datatype Value =
    | Str(s: string)
    | Num(n: real)
    | Bool(b: bool)
    | Null
    | List(items: seq<Obj<Value>>)

  /** A data record: keys in `Object.keys` order. */
  type Record = Obj<Value>

  /** The number conversions of the JavaScript runtime that the renderers
      call: `String(n)`, `n.toFixed(2)` and `parseFloat(s)` (`None` for `NaN`).
      Their floating-point details are not modelled, so they are supplied. */
  datatype NumberFormat = NumberFormat(
    toText: real -> string,
    toFixed2: real -> string,
    parseFloat: string -> Option<real>)

  /** `typeof v === 'string' || typeof v === 'number'`. */
  predicate IsScalar(v: Value) {
    v.Str? || v.Num?
  }

  /** `String(v)`: what `replace` inserts for a non-function replacement value. */
  function ToText(v: Value, nf: NumberFormat): (t: string)
    ensures v.Str? ==> t == v.s
    ensures v.Bool? ==> t == (if v.b then "true" else "false")
  {
    match v
    case Str(s) => s
    case Num(n) => nf.toText(n)
    case Bool(b) => if b then "true" else "false"
    case Null => "null"
    case List(items) => Text.Join(seq(|items|, _ => "[object Object]"), ",")
  }

  /** `parseFloat(v) || 0` for the value under a key (`None` when the key is
      absent): a number is itself, a string is parsed with `NaN` becoming 0,
      and `undefined`, booleans, `null` and arrays all parse to `NaN`, hence 0. */
  function NumberOf(v: Option<Value>, nf: NumberFormat): (x: real)
    ensures v.None? ==> x == 0.0
    ensures v.Some? && v.value.Num? ==> x == v.value.n
    ensures v.Some? && !v.value.Num? && !v.value.Str? ==> x == 0.0
  {
    match v
    case Some(Num(n)) => n
    case Some(Str(s)) => nf.parseFloat(s).GetOr(0.0)
    case _ => 0.0
  }
}
