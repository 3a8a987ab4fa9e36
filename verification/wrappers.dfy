/** Failure-compatible return types used in place of the C++ exceptions and
    null pointers of the modelled code. */
module Wrappers {

  /** A value that may be absent (a null pointer in the C++ code). */
  datatype Option<+T> = None | Some(value: T)

  /** Either a value or the error that the C++ code would have thrown. */
  datatype Result<+T, +E> = Success(value: T) | Failure(error: E) {

    predicate IsFailure() {
      Failure?
    }

    function PropagateFailure<U>(): Result<U, E>
      requires Failure?
    {
      Failure(error)
    }

    function Extract(): T
      requires Success?
    {
      value
    }
  }
}
