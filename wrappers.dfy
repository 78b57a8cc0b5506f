/** Failure-carrying values used in place of Python's `None` returns and raised exceptions. */
module Wrappers {

  datatype Option<+T> = None | Some(value: T)

  /** A computation that either produced `value` or raised `error`. */
  datatype Result<+R, +E> = Success(value: R) | Failure(error: E)

  /** A computation with no value of interest that either completed or raised `error`. */
  datatype Outcome<+E> = Pass | Fail(error: E)
}
