/** Optional values and success/failure values, used wherever the JavaScript code
    returns `null`/`undefined` or throws. */
module Wrappers {

  /** `None` stands for JavaScript's `null` or `undefined`. */
  datatype Option<+T> = None | Some(value: T) {
    function GetOr(default: T): T {
      match this
      case Some(v) => v
      case None => default
    }
  }

  /** `Err` carries the message of a thrown `Error` or of a rejected promise. */
  datatype Result<+T, +E> = Ok(value: T) | Err(error: E)
}
