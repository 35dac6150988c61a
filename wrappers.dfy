/** Optional values and success/failure results shared by every module. */
module Wrappers {

  /** A JavaScript value that may be `null` or `undefined`. */
  datatype Option<+T> = None | Some(value: T)

  /** The outcome of an operation that can report an error message. */
  datatype Result<+T, +E> = Success(value: T) | Failure(error: E)
}
