/** Option, Result and Outcome: the error paths of the analyzer as values
    instead of raised exceptions. */
module Wrappers {

  datatype Option<+T> = None | Some(value: T)

  /** The value of a computation that either succeeds or raises. */
  datatype Result<+R, +E> = Success(value: R) | Failure(error: E)

  /** The value of a check that either passes or raises, with no payload. */
  datatype Outcome<+E> = Pass | Fail(error: E)
}
