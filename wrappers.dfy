/** Failure-compatible result types shared by every module of the model. */
module Wrappers {

  /** A value that may be absent: the model's rendering of a Java reference that may be null. */
  datatype Option<+T> = None | Some(value: T)

  /** The outcome of an operation that either returns a value or throws. */
  datatype Result<+T, +E> = Success(value: T) | Failure(error: E)
}
