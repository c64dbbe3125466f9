/** `Option`, `Result` and `Outcome` values used across the model. */
module Wrappers {

  datatype Option<+T> = None | Some(value: T)

  /** A step that either yields a value or fails with an error. */
  datatype Result<+T, +E> = Success(value: T) | Failure(error: E)

  /** A check that either passes or fails with an error. */
  datatype Outcome<+E> = Pass | Fail(error: E)
}
