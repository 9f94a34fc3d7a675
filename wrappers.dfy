/** Option and Result, the two failure-carrying shapes the model uses. */
module Wrappers {

  /** A value that may be missing: Python's `None` or a regex search that found nothing. */
  datatype Option<+T> = None | Some(value: T)

  /** The outcome of a computation that may raise: `Failure` carries the exception. */
  datatype Result<+R, +E> = Success(value: R) | Failure(error: E)
}
