/** Option and Result, the two failure-carrying shapes the rest of the model uses. */
module Wrappers {

  /** A value that may be absent: JavaScript's `null`/`undefined` next to a real value. */
  datatype Option<+T> = None | Some(value: T)

  /** The outcome of an operation that can throw: the value, or the error it throws. */
  datatype Result<+T, +E> = Success(value: T) | Failure(error: E)
}
