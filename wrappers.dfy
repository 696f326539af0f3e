/** Failure-compatible wrappers used across the model. */
module Wrappers {

  /** An optional value: `None` stands for JavaScript's `null`/`undefined` results. */
  datatype Option<+T> = None | Some(value: T)

  /** A computation that either produces a value or throws. */
  datatype Result<+T, +E> = Success(value: T) | Failure(error: E)
}
