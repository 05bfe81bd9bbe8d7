/** Optional values and fallible results, as Swift's `Optional` and `throws` use them. */
module Wrappers {

  datatype Option<+T> = None | Some(value: T)

  /** The outcome of a call that may throw: a value, or the error it threw. */
  datatype Result<+T, +E> = Success(value: T) | Failure(error: E) {
    predicate IsFailure() {
      Failure?
    }

    function PropagateFailure<U>(): Result<U, E>
      requires Failure?
    {
      Failure(error)
    }

    function Extract(): T
      requires Success?
    {
      value
    }
  }
}
