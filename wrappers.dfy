/** Option and Result, the two wrappers the model uses for the source's
    optional dictionary entries and for the exceptions it raises. */
module Wrappers {

  import opened Exceptions

  datatype Option<+T> = None | Some(value: T)
  {
    function GetOr(default: T): T
    {
      match this
      case Some(v) => v
      case None => default
    }
  }

  /** A computation that either succeeds or stops the compilation with a
      diagnostic (the source raises a Python exception at that point). */
  datatype Result<+T> = Ok(value: T) | Err(error: Exception)
  {
    predicate IsFailure()
    {
      Err?
    }

    function PropagateFailure<U>(): Result<U>
      requires Err?
    {
      Err(error)
    }

    function Extract(): T
      requires Ok?
    {
      value
    }
  }
}
