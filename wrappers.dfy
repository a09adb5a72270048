/** Optional values and results used across the model. */
module Wrappers {

  /** A value that may be absent: an optional record field, an empty storage slot, a null argument. */
  datatype Option<+T> = None | Some(value: T)

  /** The outcome of an operation whose failure reaches its caller as a rejected promise or an exception. */
  datatype Result<+T, +E> = Success(value: T) | Failure(error: E)
}
