/** Python's `None`-or-value and value-or-exception, as datatypes. */
module Wrappers {

  datatype Option<+T> = None | Some(value: T)

  /** The value of a call that either returns or raises (the exception's text). */
  datatype Result<+T> = Ok(value: T) | Err(error: string)

  /** A call that returns nothing useful, or raises. */
  datatype Outcome = Pass | Fail(error: string)
}
