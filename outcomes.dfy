/** Option and Result values, used for the loader's error path (the source throws). */
module Outcomes {

  datatype Option<+T> = None | Some(value: T)

  /** Success or Failure; works with `:-` so that a failing step returns early. */
  datatype Result<+T, +E> = Success(value: T) | Failure(error: E) {

    predicate IsFailure() {
      Failure?
    }

    function PropagateFailure<U>(): Result<U, E>
      requires Failure?
    {
      Failure(error)
    }

    function Extract(): T
      requires Success?
    {
      value
    }
  }
}
