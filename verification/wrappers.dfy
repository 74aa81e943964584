/** Failure-carrying result types shared by the parsers and handlers. */
module Wrappers {

  /** A value that may be absent (a missing query parameter, an int() failure). */
  datatype Option<+T> = None | Some(value: T)

  /** Either a computed value or the error a Python function would raise. */
  datatype Result<+R, +E> = Success(value: R) | Failure(error: E)

  /** Success without a value (a Python function that returns None) or the raised error. */
  datatype Outcome<+E> = Pass | Fail(error: E)
}
