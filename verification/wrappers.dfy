/** Failure-compatible wrappers shared by every module of the model. */
module Wrappers {

  /** A value that may be absent: Python's `None`, Rust's `Option`, TypeScript's `undefined`. */
  datatype Option<+T> = None | Some(value: T) {
    function GetOr(default: T): T {
      match this
      case Some(v) => v
      case None => default
    }

    /** Rust's `Option::or`: this value when present, otherwise `other`. */
    function Or(other: Option<T>): Option<T> {
      if this.Some? then this else other
    }
  }

  /** The outcome of an operation that can fail with a message (Rust's `Result<T, String>`). */
  datatype Result<+T> = Ok(value: T) | Err(msg: string)
}
