/** Failure-carrying values used across the model in place of the source's
    null returns and exceptions. */
module Wrappers {

  datatype Option<+T> = None | Some(value: T)

  datatype Result<+T, +E> = Success(value: T) | Failure(error: E)

  /** The outcome of a statement sequence that may throw part-way. */
  datatype Outcome<+E> = Pass | Fail(error: E)
}
