// Option and Result, the two failure-compatible wrappers the reader is written with.
module Outcomes {

  datatype Option<+T> = None | Some(value: T)

  /** A computation that either produced a value or raised an error. */
  datatype Result<+T, +E> = Ok(value: T) | Err(error: E) {

    predicate IsFailure() {
      Err?
    }

    function PropagateFailure<U>(): Result<U, E>
      requires Err?
    {
      Err(error)
    }

    function Extract(): T
      requires Ok?
    {
      value
    }
  }
}
