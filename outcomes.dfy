/** Option and Result, the failure-compatible wrappers used throughout the model. */
module Outcomes {

  datatype Option<+T> = None | Some(value: T)

  /** The result of an operation that either produces a value or raises. */
  datatype Result<+T, +E> = Ok(value: T) | Err(error: E) {
    predicate IsFailure() {
      Err?
    }

    function PropagateFailure<U>(): Result<U, E>
      requires Err?
    {
      Err(error)
    }

    function Extract(): T
      requires Ok?
    {
      value
    }
  }
}
