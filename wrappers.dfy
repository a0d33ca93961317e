/** Optional values and error returns, in place of Go's nil pointers and (value, error) pairs. */
module Wrappers {
  /** None stands for a nil pointer or a nil error. */
  datatype Option<+T> = None | Some(value: T)

  /** A value or the error that prevented computing it. */
  datatype Result<+T, +E> = Success(value: T) | Failure(error: E)
}
