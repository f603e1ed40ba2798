/** Optional values and success/failure results shared by every module. */
module Wrappers {

  /** A value that may be missing: JavaScript's `undefined`/`null` result. */
  datatype Option<+T> = None | Some(value: T)

  /** The outcome of an operation that can fail with an error value. */
  datatype Result<+R, +E> = Success(value: R) | Failure(error: E)
}
