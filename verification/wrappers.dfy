/** Optional values and results with an error, as the service's callers see them. */
module Wrappers {

  /** A value that may be absent (Python's `Optional`, a cache miss, a missing row). */
  datatype Option<+T> = None | Some(value: T)

  /** The outcome of an operation that may raise. */
  datatype Result<+R, +E> = Success(value: R) | Failure(error: E)
}
