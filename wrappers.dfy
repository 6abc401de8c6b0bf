/** Failure-compatible wrappers used throughout the model: a nullable value,
    a value-or-exception, and a pass-or-exception outcome. */
module Wrappers {

  /** A Java reference that may be null: `None` stands for null. */
  datatype Option<+T> = None | Some(value: T)

  /** A call that returns a value or throws an exception. */
  datatype Result<+T, +E> = Ok(value: T) | Err(error: E)

  /** A call with no return value that completes or throws an exception. */
  datatype Outcome<+E> = Pass | Fail(error: E)
}
