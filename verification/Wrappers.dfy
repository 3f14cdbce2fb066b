module Wrappers {
  datatype Option<+T> = None | Some(value: T)

  /** The outcome of an operation that can fail; which message it fails with is not modelled. */
  datatype Result<+T> = Success(value: T) | Failure {
    predicate IsFailure() {
      Failure?
    }

    function PropagateFailure<U>(): Result<U>
      requires Failure?
    {
      Failure
    }

    function Extract(): T
      requires Success?
    {
      value
    }
  }
}
