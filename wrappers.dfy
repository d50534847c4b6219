/** The Option and Result datatypes used by every module of the model. */
module Wrappers {

  /** A value that may be absent (Python's `None`). */
  datatype Option<+T> = None | Some(value: T)

  /** The outcome of an operation that may raise: `Failure` carries the error text. */
  datatype Result<+R, +E> = Success(value: R) | Failure(error: E)
}
