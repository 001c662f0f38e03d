/**
 * The two shapes of a Go `(value, ok)` or `(value, error)` return: an
 * optional value, and a value or an error.
 */
module Wrappers {

  /** A value that may be absent. */
  datatype Option<+T> = None | Some(value: T) {
    /** The value when present, `default` otherwise. */
    function GetOr(default: T): T {
      if Some? then value else default
    }
  }

  /** The outcome of a call that can fail with an error of type `E`. */
  datatype Result<+R, +E> = Success(value: R) | Failure(error: E)
}
