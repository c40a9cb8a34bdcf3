/** Optional values and success/failure results shared by the backend and frontend models. */
module Wrappers {

  /** A value that may be absent: a missing dictionary key, a JSON `null`/`undefined`,
      or a library call that raised. */
  datatype Option<+T> = None | Some(value: T)

  /** The outcome of an operation that can fail with an error value. */
  datatype Result<+R, +E> = Success(value: R) | Failure(error: E)
}
