/** Option and Result, used for nullable columns and for the services' thrown errors. */
module Wrappers {

  datatype Option<+T> = None | Some(value: T) {
    function GetOr(default: T): T {
      match this
      case Some(v) => v
      case None => default
    }
  }

  /** The outcome of a service call: a value, or the error the service throws. */
  datatype Result<+T, +E> = Ok(value: T) | Err(error: E)

  /** The outcome of a service call that returns nothing (a `Promise<void>`). */
  datatype Outcome<+E> = Pass | Fail(error: E)
}
