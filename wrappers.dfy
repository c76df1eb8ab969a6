/** Failure-carrying wrappers shared by the model: a JavaScript value that may be
    null or undefined, and the outcome of an operation that can throw. */
module Wrappers {

  datatype Option<+T> = None | Some(value: T) {
    function GetOr(default: T): T {
      match this
      case Some(v) => v
      case None => default
    }
  }

  /** The result of an async operation that either returns a value or throws. */
  datatype Result<+T, +E> = Ok(value: T) | Err(error: E)

  /** The result of an async operation that returns nothing or throws. */
  datatype Outcome<+E> = Pass | Fail(error: E)
}
