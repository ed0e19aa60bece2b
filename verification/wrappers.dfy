/** Nullable values and success/failure values, in the functional style used throughout the model. */
module Wrappers {

  /** A value that may be absent: a C# `null` reference or nullable result. */
  datatype Option<+T> = None | Some(value: T) {

    /** The value, or `default` when absent (C#'s `x ?? default`). */
    function GetOr(default: T): T {
      match this
      case Some(v) => v
      case None => default
    }
  }

  /** The outcome of an operation that either returns a value or throws. */
  datatype Result<+T, +E> = Ok(value: T) | Err(error: E)
}
