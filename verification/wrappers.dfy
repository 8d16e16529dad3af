/** Failure-carrying values shared by the model. A Python exception that the
    modelled code lets escape becomes an `Err`/`Fail` carrying the exception
    class, so the error paths are part of every contract. */
module Wrappers {

  /** Python's `None` or a value. */
  datatype Option<+T> = None | Some(value: T)

  /** The built-in exceptions the modelled code can raise. */
  datatype Fault = KeyError | ValueError | AttributeError | ZeroDivisionError

  /** A value, or the exception that was raised instead of returning one. */
  datatype Result<+T> = Ok(value: T) | Err(error: Fault)

  /** Completion of a procedure that returns nothing. */
  datatype Outcome = Pass | Fail(error: Fault)
}
