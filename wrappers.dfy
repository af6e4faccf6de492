/** Option and Result values used throughout the model. */
module Wrappers {

  /** A value that may be absent: a nil pointer, a channel that never delivered. */
  datatype Option<+T> = None | Some(value: T)

  /** The outcome of an operation that returns either a value or a Go `error`. */
  datatype Result<+R, +E> = Success(value: R) | Failure(error: E)
}
