/** Failure-compatible wrappers used across the model. */
module Wrappers {

  /** An optional value, standing for Python's `None`-or-value results. */
  datatype Option<+T> = None | Some(value: T)

  /** A value or the error that Python would have raised instead. */
  datatype Result<+R, +E> = Success(value: R) | Failure(error: E)
}
