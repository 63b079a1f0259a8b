/** Option, Result and Outcome: the shapes of Python's `None`, returned values and raised errors. */
module Wrappers {

  /** `Optional[T]`: `None` or a value. */
  datatype Option<+T> = None | Some(value: T)

  /** A value, or the error a Python function would have raised instead. */
  datatype Result<+T, +E> = Success(value: T) | Failure(error: E)

  /** A step that either completes or raises an error. */
  datatype Outcome<+E> = Pass | Fail(error: E)
}
