/** Optional values and typed outcomes, used in place of PHP's `null` returns and exceptions. */
module Wrappers {

  /** A value that may be absent (PHP `?T`). */
  datatype Option<+T> = None | Some(value: T) {

    /** The wrapped value, or `default` when absent (PHP `??`). */
    function GetOr(default: T): (r: T)
      ensures Some? ==> r == value
      ensures None? ==> r == default
    {
      match this
      case Some(v) => v
      case None => default
    }
  }

  /** Either a value or an error (a thrown exception in the source). */
  datatype Result<+T, +E> = Ok(value: T) | Err(error: E)
}
