/** Failure-carrying results for operations whose source throws. */
module Wrappers {

  /** A value, or the error the source would have thrown instead. */
  datatype Result<+T, +E> = Success(value: T) | Failure(error: E)

  /** Completion of a state change, or the error that prevented it. */
  datatype Outcome<+E> = Pass | Fail(error: E)
}
