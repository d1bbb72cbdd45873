/*
 * Option and Result wrappers shared by every module of the model.
 * Python's `None` and raised exceptions are written with these.
 */
module Outcomes {

  /** A value that may be absent (Python `None`). */
  datatype Option<+T> = None | Some(value: T) {

    /** The value, or `default` when absent (Python `x or default` on an Option). */
    function GetOr(default: T): T
    {
      match this
      case Some(v) => v
      case None => default
    }

    predicate IsFailure()
    {
      None?
    }

    function PropagateFailure<U>(): Option<U>
      requires None?
    {
      None
    }

    function Extract(): T
      requires Some?
    {
      value
    }
  }

  /** A successful value or the error that the source raises instead. */
  datatype Result<+T, +E> = Ok(value: T) | Err(error: E) {

    predicate IsFailure()
    {
      Err?
    }

    function PropagateFailure<U>(): Result<U, E>
      requires Err?
    {
      Err(error)
    }

    function Extract(): T
      requires Ok?
    {
      value
    }
  }
}
