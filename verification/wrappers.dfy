/** Option and Result values shared by the whole model, plus the JavaScript
    number shape (NaN, an infinity or a finite value) for the places where the
    source branches on `isNaN` / `isFinite`. */
module Wrappers {

  datatype Option<+T> = None | Some(value: T) {
    function GetOr(default: T): T {
      match this
      case Some(v) => v
      case None => default
    }
  }

  datatype Result<+R, +E> = Success(value: R) | Failure(error: E)

  /** The result of a JavaScript numeric coercion (`Number(..)`, `parseFloat(..)`). */
  datatype JsNumber = NaN | Infinity(negative: bool) | Finite(value: real) {
    predicate IsFinite() { Finite? }

    /** `this > x` against a finite `x`: false for NaN. */
    predicate Above(x: real) {
      match this
      case NaN => false
      case Infinity(negative) => !negative
      case Finite(v) => v > x
    }

    /** `this >= x` against a finite `x`: false for NaN. */
    predicate AtLeast(x: real) {
      match this
      case NaN => false
      case Infinity(negative) => !negative
      case Finite(v) => v >= x
    }
  }
}
