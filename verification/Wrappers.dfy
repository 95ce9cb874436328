/** Failure-compatible wrappers shared by the model. */
module Wrappers {

  /** A value that may be absent (Go's nil, as for a missing entry or no error). */
  datatype Option<+T> = None | Some(value: T)

  /** A value or the error that replaced it (Go's `(T, error)` pair). */
  datatype Result<+T, +E> = Success(value: T) | Failure(error: E)
}
