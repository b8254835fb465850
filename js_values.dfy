/**
 * The JavaScript values that a user writes into the module configuration,
 * with the parts of JavaScript's semantics the module relies on:
 * truthiness, `||`, the numeric coercion behind `<=` and `>=`, and the
 * string conversion behind `+`.
 */
module JsValues {
  import opened Wrappers

  /** `Absent` is `undefined`: a property that is not set. */
  datatype JsValue = Absent | Bool(b: bool) | Num(n: real) | Str(s: string)

  /** JavaScript's `!!v`. */
  predicate Truthy(v: JsValue)
    ensures !Truthy(v) <==> v == Absent || v == Bool(false) || v == Num(0.0) || v == Str("")
  {
    match v
    case Absent => false
    case Bool(b) => b
    case Num(n) => n != 0.0
    case Str(s) => s != ""
  }

  /**
   * `!!over ? over : fallback`, which is also what `over || fallback` yields:
   * the override wins exactly when it is truthy.
   */
  function Pick(over: JsValue, fallback: JsValue): (r: JsValue)
    ensures Truthy(over) ==> r == over
    ensures !Truthy(over) ==> r == fallback
    ensures Truthy(r) <==> Truthy(over) || Truthy(fallback)
  {
    if Truthy(over) then over else fallback
  }

  /**
   * JavaScript's ToNumber; `None` stands for NaN. How a string is parsed is
   * left to `parse`.
   */
  function ToNumber(v: JsValue, parse: string -> Option<real>): (r: Option<real>)
    ensures v.Num? ==> r == Some(v.n)
    ensures v.Absent? ==> r.None?
  {
    match v
    case Absent => None
    case Bool(b) => Some(if b then 1.0 else 0.0)
    case Num(n) => Some(n)
    case Str(s) => parse(s)
  }

  /** `x <= v` for a number `x`: false whenever `v` converts to NaN. */
  predicate AtMost(x: real, v: JsValue, parse: string -> Option<real>) {
    match ToNumber(v, parse)
    case None => false
    case Some(n) => x <= n
  }

  /** `x >= v` for a number `x`: false whenever `v` converts to NaN. */
  predicate AtLeast(x: real, v: JsValue, parse: string -> Option<real>) {
    match ToNumber(v, parse)
    case None => false
    case Some(n) => x >= n
  }

  /** The text `"" + v` puts into markup; how a number prints is left to `show`. */
  function ToText(v: JsValue, show: real -> string): (r: string)
    ensures v.Str? ==> r == v.s
  {
    match v
    case Absent => "undefined"
    case Bool(b) => if b then "true" else "false"
    case Num(n) => show(n)
    case Str(s) => s
  }
}
