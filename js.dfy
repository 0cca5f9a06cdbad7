/** Values as they arrive from JavaScript: optional fields, numbers that may be
    non-finite, and the truthiness tests the handlers apply to request fields. */
module Js {

  datatype Option<T> = None | Some(value: T)

  datatype Result<T, E> = Ok(value: T) | Err(error: E)

  /** A JavaScript number. `Finite(x)` carries the exact value of the double;
      the three non-finite values are kept apart because the handlers treat
      them differently. */
  datatype Number = Finite(x: real) | NaN | PosInf | NegInf

  /** A request-body field of unknown JSON type. */
  datatype Value = Undefined | Null | Bool(b: bool) | Num(n: Number) | Str(s: string) | Object

  /** `Boolean(n)` for a number: NaN and zero are falsy. */
  predicate NumberTruthy(n: Number) {
    match n
    case NaN => false
    case Finite(x) => x != 0.0
    case _ => true
  }

  /** `Boolean(v)`, written `!!v` in the web code. */
  predicate Truthy(v: Value) {
    match v
    case Undefined => false
    case Null => false
    case Bool(b) => b
    case Num(n) => NumberTruthy(n)
    case Str(s) => s != ""
    case Object => true
  }

  /** `!field` on an optional string field: missing or empty. */
  predicate Filled(f: Option<string>) {
    f.Some? && f.value != ""
  }

  /** `(field || fallback)` on an optional string field. */
  function OrElse(f: Option<string>, fallback: string): (r: string)
    ensures Filled(f) ==> r == f.value
    ensures !Filled(f) ==> r == fallback
  {
    if Filled(f) then f.value else fallback
  }

  /** `Number(x) || 0`: falsy numbers (NaN, zero) become zero. */
  function NumberOrZero(n: Number): (r: Number)
    ensures r != NaN
    ensures NumberTruthy(n) ==> r == n
    ensures !NumberTruthy(n) ==> r == Finite(0.0)
  {
    if NumberTruthy(n) then n else Finite(0.0)
  }
}
