/** Small failure-carrying datatypes shared by the other modules. */
module Wrappers {

  datatype Option<+T> = None | Some(value: T)

  /** A value or the exception the source would raise instead. */
  datatype Result<+T, +E> = Success(value: T) | Failure(error: E)

  /** No value, but possibly the exception the source would raise. */
  datatype Outcome<+E> = Pass | Fail(error: E)
}
