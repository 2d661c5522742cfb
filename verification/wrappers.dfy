/** Failure-carrying datatypes shared by every module of the model.
    Python exceptions become an `Err` carrying the exception class. */
module Wrappers {

  /** The exception classes raised by the modelled code. */
  datatype Error =
    | ValueError
    | TypeError
    | IndexError
    | KeyError
    | AttributeError
    | RuntimeError
    | ZeroDivisionError
    /** a bare `raise Exception(...)` */
    | PlainException

  datatype Option<+T> = None | Some(value: T)

  datatype Result<+T> = Ok(value: T) | Err(error: Error) {

    predicate IsFailure() {
      Err?
    }

    function PropagateFailure<U>(): Result<U>
      requires Err?
    {
      Err(error)
    }

    function Extract(): T
      requires Ok?
    {
      value
    }
  }
}
