/**
 The error-carrying values every other module returns: Go's `(value, error)`
 pairs become a `Result`, and optional (nil-able) values become an `Option`.
 */
module Wrappers {

  datatype Option<+T> = None | Some(value: T)
  {
    function GetOr(default: T): T
    {
      match this
      case None => default
      case Some(v) => v
    }
  }

  /** `Err` carries the text of the Go error value. */
  datatype Result<+T> = Ok(value: T) | Err(error: string)
  {
    predicate IsFailure()
    {
      Err?
    }

    function PropagateFailure<U>(): Result<U>
      requires Err?
    {
      Err(error)
    }

    function Extract(): T
      requires Ok?
    {
      value
    }
  }

  /** A Go function that returns only an `error`: `None` is a nil error. */
  type Status = Option<string>
}
