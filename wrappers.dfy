/** Optional values: SQL NULL, an absent array key, a missing cache file. */
module Wrappers {

  datatype Option<+T> = None | Some(value: T) {

    /** The value, or `default` when absent (PHP's `??`). */
    function GetOr(default: T): T {
      match this
      case Some(v) => v
      case None => default
    }
  }

  /** A value or the exception the source throws instead of returning. */
  datatype Result<+T> = Ok(value: T) | Err(error: string)
}
