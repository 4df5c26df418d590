/** Option and Result, the two failure-compatible wrappers used throughout. */
module Wrappers {

  datatype Option<+T> = None | Some(value: T)

  /** The outcome of a Python expression: a value, or an exception that propagates. */
  datatype Result<+T> = Ok(value: T) | Raises {

    predicate IsFailure() {
      Raises?
    }

    function PropagateFailure<U>(): Result<U>
      requires Raises?
    {
      Raises
    }

    function Extract(): T
      requires Ok?
    {
      value
    }
  }
}
