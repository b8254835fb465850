/** Option and Result: the absent value and the aborted computation. */
module Wrappers {

  datatype Option<+T> = None | Some(value: T)

  /** `Err` stands for a JavaScript exception that aborts the current computation. */
  datatype Result<+T, +E> = Ok(value: T) | Err(error: E) {

    predicate IsFailure() {
      Err?
    }

    function PropagateFailure<U>(): Result<U, E>
      requires Err?
    {
      Err(error)
    }

    function Extract(): T
      requires Ok?
    {
      value
    }
  }
}
