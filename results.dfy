/** Option and Result, the two failure-compatible wrappers the model uses. */
module Results {

  datatype Option<+T> = None | Some(value: T)

  /** The outcome of a call that can throw: the value, or the error thrown. */
  datatype Result<+T, +E> = Success(value: T) | Failure(error: E) {

    predicate IsFailure() {
      Failure?
    }

    function PropagateFailure<U>(): Result<U, E>
      requires Failure?
    {
      Failure(error)
    }

    function Extract(): T
      requires Success?
    {
      value
    }
  }
}
