/** Failure-compatible datatypes used for the service's null results and exceptions. */
module Wrappers {

  /** A value that may be absent: the Java `null` of a collaborator's list. */
  datatype Option<+T> = None | Some(value: T)

  /** Either a computed value or the exception the service would throw. */
  datatype Result<+T, +E> = Success(value: T) | Failure(error: E) {

    predicate IsFailure() {
      Failure?
    }

    function PropagateFailure<U>(): Result<U, E>
      requires Failure?
    {
      Failure(error)
    }

    function Extract(): T
      requires Success?
    {
      value
    }
  }
}
