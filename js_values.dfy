/** JavaScript values as they reach the backend: request bodies parsed from
    JSON, fields of a JSON response, numbers with their special values.
 */
module JsValues {

  /** A JavaScript number. A finite number is kept as the exact real it
      denotes; the binary64 rounding of arithmetic is not modelled. */
  datatype JsNumber = Finite(r: real) | NaN | PosInfinity | NegInfinity

  datatype Value =
    | Undefined
    | Null
    | Bool(b: bool)
    | Num(n: JsNumber)
    | Str(s: string)
    | Arr(items: seq<Value>)
    | Obj(fields: map<string, Value>)

  /** `Boolean(n)`: 0, -0 and NaN are falsy. */
  predicate NumberTruthy(n: JsNumber) {
    match n
    case Finite(r) => r != 0.0
    case NaN => false
    case _ => true
  }

  /** `Boolean(v)`: undefined, null, false, the falsy numbers and '' are falsy. */
  predicate Truthy(v: Value) {
    match v
    case Undefined => false
    case Null => false
    case Bool(b) => b
    case Num(n) => NumberTruthy(n)
    case Str(s) => s != []
    case _ => true
  }

  /** `obj[key]` on a plain object: an absent key reads as undefined. */
  function Get(obj: map<string, Value>, key: string): (v: Value)
    ensures key !in obj ==> v == Undefined
  {
    if key in obj then obj[key] else Undefined
  }

  /** `Number.isInteger(n)`. */
  predicate IsInteger(n: JsNumber) {
    n.Finite? && n.r == n.r.Floor as real
  }

  /** `n >= bound` for a finite bound: false for NaN. */
  predicate AtLeast(n: JsNumber, bound: real) {
    match n
    case Finite(r) => r >= bound
    case PosInfinity => true
    case _ => false
  }

  /** `n <= bound` for a finite bound: false for NaN. */
  predicate AtMost(n: JsNumber, bound: real) {
    match n
    case Finite(r) => r <= bound
    case NegInfinity => true
    case _ => false
  }
}
