/** Option and Result: the absent value and the error path, used by every module of the model. */
module Wrappers {

  /** A value that may be missing: an unset setting, an absent key. */
  datatype Option<+T> = None | Some(value: T)

  /** The outcome of an operation that either produces a value or fails with an error. */
  datatype Result<+T, +E> = Success(value: T) | Failure(error: E)
}
