/** Optional values and results, used for absent request fields and for the order route's error paths. */
module Wrappers {

  /** A value that may be absent (a missing or falsy JSON field). */
  datatype Option<+T> = None | Some(value: T)

  /** Either the value an operation produced or the error it threw. */
  datatype Result<+R, +E> = Success(value: R) | Failure(error: E)
}
