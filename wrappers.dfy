/** Optional values and results, used wherever the source returns `null`,
    `undefined` or throws. */
module Wrappers {

  datatype Option<+T> = None | Some(value: T) {
    function GetOr(default: T): T {
      match this
      case Some(v) => v
      case None => default
    }
  }

  datatype Result<+T, +E> = Success(value: T) | Failure(error: E)

  /** A JavaScript number: an integer we can compute with, or NaN/Infinity. */
  datatype Num = Finite(n: int) | NonFinite

  /** `Number.isFinite(x) ? x : 0` */
  function FiniteOrZero(x: Num): (r: int)
    ensures x.Finite? ==> r == x.n
    ensures x.NonFinite? ==> r == 0
  {
    match x
    case Finite(n) => n
    case NonFinite => 0
  }
}
