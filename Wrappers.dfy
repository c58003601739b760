/** Failure-carrying values: the model's stand-in for null returns and exceptions. */
module Wrappers {

  /** A value that may be absent; `None` plays the part of a null reference. */
  datatype Option<+T> = None | Some(value: T)

  /** A computed value, or the exception that stopped the computation. */
  datatype Result<+T, +E> = Success(value: T) | Failure(error: E)

  /** Normal completion of a void routine, or the exception it threw. */
  datatype Outcome<+E> = Pass | Fail(error: E)
}
