/** Failure-compatible wrappers used across the model: a nullable value, a value-or-exception, and a pass-or-exception. */
module Wrappers {

  /** A value that may be absent: a .NET reference that may be null. */
  datatype Option<+T> = None | Some(value: T)

  /** The value a call returns, or the exception it throws. */
  datatype Result<+T, +E> = Ok(value: T) | Err(error: E)

  /** A call that returns nothing, or the exception it throws. */
  datatype Outcome<+E> = Pass | Fail(error: E)
}
