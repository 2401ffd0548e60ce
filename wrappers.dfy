/** Optional values and results with an error, as returned by the lookups of the dashboard. */
module Wrappers {

  /** A value that may be missing: Python's `None` or a value. */
  datatype Option<+T> = None | Some(value: T)

  /** The value of a computation, or the error it raises. */
  datatype Result<+R, +E> = Success(value: R) | Failure(error: E)
}
