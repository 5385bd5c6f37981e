/** Failure-carrying result types used throughout the model. */
module Wrappers {

  /** A value that may be absent (Swift's `Optional`). */
  datatype Option<+T> = None | Some(value: T)

  /** The outcome of a throwing Swift call: a value, or the error it threw. */
  datatype Result<+R, +E> = Ok(value: R) | Err(error: E)

  /** The outcome of a throwing Swift call that returns nothing. */
  datatype Outcome<+E> = Pass | Fail(error: E)
}
