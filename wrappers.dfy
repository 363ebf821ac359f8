/** Option and Result datatypes used across the model. */
module Wrappers {

  /** A value that may be absent: a null cell, a dictionary key that is missing. */
  datatype Option<+T> = None | Some(value: T)

  /** The outcome of an operation that either returns a value or raises. */
  datatype Result<+R, +E> = Success(value: R) | Failure(error: E)
}
