/** Option and Result, used for SQL NULLs, JavaScript NaN and rejected queries. */
module Wrappers {

  datatype Option<+T> = None | Some(value: T)

  datatype Result<+T, +E> = Success(value: T) | Failure(error: E)

  /** JavaScript's `x || 0` on a nullable count: NULL becomes 0. */
  function OrZero(x: Option<nat>): nat {
    match x
    case None => 0
    case Some(n) => n
  }
}
