/** Failure-carrying datatypes shared by the three contracts. */
module Wrappers {

  /** An optional value: a storage slot that may be empty. */
  datatype Option<+T> = None | Some(value: T) {
    function GetOr(default: T): T {
      match this
      case Some(v) => v
      case None => default
    }
  }

  /** A value or an error, the shape of every fallible contract call. */
  datatype Result<+T, +E> = Ok(value: T) | Err(error: E)

  /** Success or an error, for calls that return no value. */
  datatype Outcome<+E> = Pass | Fail(error: E)
}
