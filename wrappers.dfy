/** Option, Result and Outcome values standing for JavaScript's
    `undefined`, thrown errors and successful returns. */
module Wrappers {

  datatype Option<+T> = None | Some(value: T) {
    function GetOr(default: T): T {
      match this
      case Some(v) => v
      case None => default
    }
  }

  /** A value, or the error the source throws instead of returning one. */
  datatype Result<+R, +E> = Success(value: R) | Failure(error: E)

  /** Completion of an operation that returns nothing, or the error it throws. */
  datatype Outcome<+E> = Pass | Fail(error: E)
}
