/** Option and Result, the two failure-carrying datatypes the model uses. */
module Wrappers {

  /** A value that may be absent (Python's `None`). */
  datatype Option<+T> = None | Some(value: T)

  /** A value, or the message of the Python exception raised instead of it. */
  datatype Result<+R, +E> = Success(value: R) | Failure(error: E)
}
