/** Failure-carrying results: the comparator's exceptions are modelled as values. */
module Wrappers {

  /** A computation that either produced a value or threw. */
  datatype Result<+T, +E> = Success(value: T) | Failure(error: E)

  /** A computation with no value that either completed normally or threw. */
  datatype Outcome<+E> = Pass | Fail(error: E)
}
