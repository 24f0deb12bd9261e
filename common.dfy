/** Optional values and success-or-error results used throughout the model. */
module Common {

  /** A value that may be absent (Python's `None`, or a missing attribute). */
  datatype Option<+T> = None | Some(value: T)

  /** The outcome of an operation that may raise: a value or the error raised. */
  datatype Result<+T, +E> = Success(value: T) | Failure(error: E)
}
