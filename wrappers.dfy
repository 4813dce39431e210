/** Optional values and results with an error, as used by the rest of the model. */
module Wrappers {

  /** A value that may be missing (`undefined` / `null` in the application). */
  datatype Option<+T> = None | Some(value: T)

  /** The outcome of an operation that either produces a value or reports an error. */
  datatype Result<+R, +E> = Success(value: R) | Failure(error: E)
}
