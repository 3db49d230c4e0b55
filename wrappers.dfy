/** Failure-carrying values shared by every module of the model. */
module Wrappers {

  /** A value that may be absent: `null`/`undefined` on the JavaScript side. */
  datatype Option<+T> = None | Some(value: T) {
    function GetOr(default: T): T {
      match this
      case Some(v) => v
      case None => default
    }
  }

  /** The value of an operation that either returns or throws. */
  datatype Result<+R, +E> = Success(value: R) | Failure(error: E)

  /** The value of an operation that returns nothing or throws. */
  datatype Outcome<+E> = Pass | Fail(error: E)
}
