/** Optional values and results shared by every module of the model. */
module Wrappers {

  /** An optional value: JavaScript's `undefined`/`null` versus a present value. */
  datatype Option<+T> = None | Some(value: T) {

    /** Returns the present value, or `default` when there is none. */
    function GetOr(default: T): T {
      match this
      case Some(v) => v
      case None => default
    }
  }

  /** The outcome of an operation that may throw: a value or the error it throws. */
  datatype Result<+R, +E> = Success(value: R) | Failure(error: E)
}
