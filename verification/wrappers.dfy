/** Failure-compatible result types used across the model for the source's raised errors. */
module Wrappers {

  datatype Option<+T> = None | Some(value: T)

  /** Ok carries the value a call returns; Err the error it raises. */
  datatype Result<+T, +E> = Ok(value: T) | Err(error: E)

  /** Outcome of a call that returns nothing when it succeeds. */
  datatype Outcome<+E> = Pass | Fail(error: E)
}
