/** Option and Result, the failure-carrying values the rest of the model returns. */
module Wrappers {

  datatype Option<+T> = None | Some(value: T) {
    /** The value, or `default` when there is none. */
    function GetOr(default: T): T {
      match this
      case Some(v) => v
      case None => default
    }
  }

  datatype Result<+R, +E> = Success(value: R) | Failure(error: E)

  /** JavaScript's `a || b` on an optional number: `a` unless it is missing or zero. */
  function OrElse(a: Option<int>, b: int): (r: int)
    ensures a.Some? && a.value != 0 ==> r == a.value
    ensures (a.None? || a.value == 0) ==> r == b
  {
    if a.Some? && a.value != 0 then a.value else b
  }
}
