/** Absent-or-present values and success-or-failure results. */
module Wrappers {

  /** A cell value that may be missing (Python's `None`). */
  datatype Option<+T> = None | Some(value: T)

  /** The outcome of a step that may raise: a value, or the message of the exception. */
  datatype Result<+R, +E> = Success(value: R) | Failure(error: E)
}
