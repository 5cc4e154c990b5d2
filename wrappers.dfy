/** Option and Result, the two failure-carrying wrappers the model uses. */
module Wrappers {

  /** PHP's `null` next to a value. */
  datatype Option<+T> = None | Some(value: T)

  /** A value, or the fault that replaced it; usable with `:-`. */
  datatype Result<+T, +E> = Ok(value: T) | Err(error: E) {

    predicate IsFailure() {
      Err?
    }

    function PropagateFailure<U>(): Result<U, E>
      requires Err?
    {
      Err(error)
    }

    function Extract(): T
      requires Ok?
    {
      value
    }
  }
}
