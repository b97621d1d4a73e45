/** Failure-compatible wrappers used throughout the model. */
module Wrappers {

  /** An optional value: a missing session key, a failed parse, an absent row. */
  datatype Option<+T> = None | Some(value: T) {

    /** The wrapped value, or `default` when there is none. */
    function GetOr(default: T): T {
      match this
      case Some(v) => v
      case None => default
    }
  }

  /** Either a value or an error text, as a Go `(value, error)` pair is used. */
  datatype Result<+T> = Ok(value: T) | Err(message: string)
}
