/** Failure-carrying wrappers shared by every module of the model. */
module Wrappers {

  /** A value that may be absent: Go's nil pointer or a "not found" result. */
  datatype Option<+T> = None | Some(value: T)

  /** The outcome of a step that either produces a value or fails with an error. */
  datatype Result<+R, +E> = Success(value: R) | Failure(error: E)
}
