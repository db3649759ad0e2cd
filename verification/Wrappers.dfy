/** The two result shapes the models share. */
module Wrappers {

  datatype Option<+T> = None | Some(value: T)

  /** A value, or the exception the operation throws. */
  datatype Result<+T, +E> = Success(value: T) | Failure(error: E)
}
