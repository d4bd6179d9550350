/** Optional values and results with an error message, shared by the other modules. */
module Wrappers {

  /** A value that may be absent: `undefined` or `null` in JavaScript. */
  datatype Option<T> = None | Some(value: T) {
    function GetOr(default: T): (r: T)
      ensures Some? ==> r == value
      ensures None? ==> r == default
    {
      match this
      case None => default
      case Some(v) => v
    }
  }

  /** The outcome of an operation that may throw an error with a message. */
  datatype Result<T> = Ok(value: T) | Error(message: string)
}
