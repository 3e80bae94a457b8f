/** Results and errors shared by every module of the model.
    A Python exception raised by the system becomes an `Err` (or `Fail`)
    carrying the exception's class. */
module Common {

  /** The Python exception classes the modelled code can raise. */
  datatype Error =
    | TypeError
    | ValueError
    | IndexError
    | AttributeError
    | AssertionError
    | UnboundLocalError
    | NotImplementedError
    /** A division by zero; where numpy would yield inf or nan instead of
        raising, the model still reports it here rather than carrying a
        non-finite value around. */
    | ZeroDivisionError

  datatype Option<+T> = None | Some(value: T)

  datatype Result<+T> = Ok(value: T) | Err(error: Error)

  /** The outcome of a check that returns nothing when it passes. */
  datatype Outcome = Pass | Fail(error: Error)
}
