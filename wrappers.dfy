/** Option and error-carrying results used to model Python's `None` and its
    exceptions (an `assert` that fails, a `TypeError`, a `KeyError`, ...). */
module Wrappers {

  datatype Option<+T> = None | Some(value: T)

  /** The Python exception classes the modelled code can raise. */
  datatype Error =
    | AssertionError
    | TypeError
    | KeyError
    | IndexError
    | ValueError
    | AttributeError

  /** A value, or the exception raised while computing it. */
  datatype Result<+T> = Ok(value: T) | Err(error: Error)

  /** Completion of a statement that returns nothing: normal, or raised. */
  datatype Outcome = Pass | Fail(error: Error)
}
