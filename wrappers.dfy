/** Option and Result, the two failure-carrying shapes the model uses. */
module Wrappers {

  /** An optional value: `None` stands for a JavaScript property that is `undefined`. */
  datatype Option<+T> = None | Some(value: T) {
    function GetOr(default: T): T {
      match this
      case Some(v) => v
      case None => default
    }
  }

  /** The outcome of a computation that either returns a value or throws. */
  datatype Result<+R, +E> = Ok(value: R) | Err(error: E)

  /**
   * A JavaScript exception: an `Error` built with a message, or the `TypeError` the runtime
   * raises when a property of `undefined` is read (its message is the runtime's own).
   */
  datatype JsError = Error(message: string) | TypeError
}
