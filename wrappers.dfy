/** Failure-compatible wrappers shared by the other modules. */
module Wrappers {

  datatype Option<+T> = None | Some(value: T)

  /** Either a value or the error that the source raises as an exception. */
  datatype Result<+R, +E> = Success(value: R) | Failure(error: E) {
    predicate IsFailure() {
      Failure?
    }

    function PropagateFailure<U>(): Result<U, E>
      requires Failure?
    {
      Failure(error)
    }

    function Extract(): R
      requires Success?
    {
      value
    }
  }

  /** Outcome of an operation that only changes state. */
  datatype Outcome<+E> = Pass | Fail(error: E)
}
