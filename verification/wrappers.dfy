/** Option and Result: the model's stand-ins for JavaScript's `null`/`undefined`
    and for a thrown exception. */
module Wrappers {

  datatype Option<+T> = None | Some(value: T) {

    /** The value, or a default when absent (JavaScript's `x || d` on a nullable). */
    function GetOr(default: T): T {
      match this
      case Some(v) => v
      case None => default
    }
  }

  /** Either a value or the message of an exception that was thrown. */
  datatype Result<+R> = Success(value: R) | Failure(error: string)
}
