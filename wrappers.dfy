/** Optional values and results used across the model. */
module Wrappers {

  /** An optional value: a JavaScript property that may be `undefined`. */
  datatype Option<+T> = None | Some(value: T)

  /** The outcome of an operation that may throw: a value, or the thrown error's message. */
  datatype Result<+T, +E> = Success(value: T) | Failure(error: E)
}
