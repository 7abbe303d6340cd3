/** Failure-carrying result types shared by every module of the model. */
module Wrappers {

  datatype Option<+T> = None | Some(value: T) {
    function GetOr(default: T): T {
      match this
      case Some(v) => v
      case None => default
    }
  }

  /** The value of an operation that either produces an `R` or fails with an `E`. */
  datatype Result<+R, +E> = Success(value: R) | Failure(error: E)

  /** The value of an operation that produces nothing but may fail with an `E`. */
  datatype Outcome<+E> = Pass | Fail(error: E)
}
