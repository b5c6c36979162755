/** Optional values and the success-or-error outcome of a service call. */
module Base {

  /** A value that may be absent (JavaScript's null / undefined). */
  datatype Option<+T> = None | Some(value: T) {
    function GetOr(default: T): T {
      if Some? then value else default
    }
  }

  /** A call that either resolves with a value or rejects with an Error whose message is given. */
  datatype Result<+T> = Ok(value: T) | Err(message: string)
}
