/** Option and Result: how the model reports the exceptions that the script raises. */
module Wrappers {

  datatype Option<+T> = None | Some(value: T)

  /** Success carries what a call returns; Failure carries the exception it raises. */
  datatype Result<+R, +E> = Success(value: R) | Failure(error: E)
}
