/** Optional values and failure-carrying results shared by every module of the model. */
module Wrappers {

  /** A value that may be missing: JavaScript's `undefined` is `None`. */
  datatype Option<+T> = None | Some(value: T) {
    function GetOr(default: T): T {
      match this
      case Some(v) => v
      case None => default
    }
  }

  /** The result of an operation that either returns a value or throws an error with a message. */
  datatype Result<+R, +E> = Success(value: R) | Failure(error: E)

  /** The result of an operation that returns nothing on success. */
  datatype Outcome<+E> = Pass | Fail(error: E)
}
