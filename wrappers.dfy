/** Option, Outcome and Result: a missing value, a raised error, or a value or the
    error raised instead. */
module Wrappers {

  datatype Option<+T> = None | Some(value: T)

  /** The result of an operation that either completes or raises an error. */
  datatype Outcome<+E> = Pass | Fail(error: E)

  /** A value, or the error raised instead of producing it. */
  datatype Result<+T, +E> = Ok(value: T) | Err(error: E)
}
