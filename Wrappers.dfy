/** Option and Result values standing in for `undefined` returns and thrown validation errors. */
module Wrappers {

  /** `undefined` (None) or a value. */
  datatype Option<+T> = None | Some(value: T) {
    /** The value, or `default` for None. */
    function GetOr(default: T): T {
      match this
      case Some(v) => v
      case None => default
    }
  }

  /** A parsed value or the errors that rejected the input. */
  datatype Result<+T, +E> = Ok(value: T) | Err(error: E)
}
