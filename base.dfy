/**
 * Optional values, standing for JavaScript's `undefined`/`null` results, and
 * results that are either a value or an error message.
 */
module Base {

  datatype Option<+T> = None | Some(value: T) {
    /** The value, or `default` when there is none (JavaScript's `x ?? d`). */
    function GetOr(default: T): T {
      match this
      case Some(v) => v
      case None => default
    }
  }

  /** A value, or the error that took its place (a thrown `Error`). */
  datatype Result<+T, +E> = Success(value: T) | Failure(error: E)
}
