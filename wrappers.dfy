/** Option and Result, the failure-carrying values used throughout the model. */
module Wrappers {

  datatype Option<+T> = None | Some(value: T)

  /** Success carries a value; Failure carries what Python would have raised. */
  datatype Result<+T, +E> = Success(value: T) | Failure(error: E)
}
