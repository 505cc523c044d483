/** Option, Result and Outcome: how the model writes Python's `None` and raised exceptions. */
module Wrappers {

  /** A value that may be absent (Python's `Optional[T]`). */
  datatype Option<+T> = None | Some(value: T)

  /** A computed value or the error the source would raise instead. */
  datatype Result<+T, +E> = Success(value: T) | Failure(error: E)

  /** Normal completion, or the error the source would raise. */
  datatype Outcome<+E> = Pass | Fail(error: E)
}
