/** Option and Result, the two wrappers the rest of the model returns. */
module Wrappers {

  /** A value that may be absent (JavaScript's `undefined`). */
  datatype Option<+T> = None | Some(value: T) {
    function GetOr(default: T): T {
      match this
      case Some(v) => v
      case None => default
    }
  }

  /** The outcome of an operation that can throw: its value, or the thrown message. */
  datatype Result<+T> = Ok(value: T) | Err(message: string)
}
