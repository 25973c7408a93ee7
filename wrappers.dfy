/** Failure-compatible wrappers used throughout the model. */
module Wrappers {

  /** A value that may be absent (a TypeScript optional field or `undefined`). */
  datatype Option<+T> = None | Some(value: T)

  /** The outcome of a step that can throw: a value, or the error it throws. */
  datatype Result<+T, +E> = Ok(value: T) | Err(error: E) {
    predicate IsFailure() { Err? }

    function PropagateFailure<U>(): Result<U, E>
      requires Err?
    {
      Err(error)
    }

    function Extract(): T
      requires Ok?
    {
      value
    }
  }
}
