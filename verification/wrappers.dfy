/** Small failure-carrying datatypes used across the model: `Option` for the
    source's nullable values and `Result` for calls that can throw. */
module Wrappers {

  /** A nullable value: `None` stands for `null` / `undefined`. */
  datatype Option<+T> = None | Some(value: T) {

    /** The value, or `default` when absent (the source's `?? default`). */
    function GetOr(default: T): T {
      match this
      case Some(v) => v
      case None => default
    }
  }

  /** The outcome of a call that either returns a value or throws. */
  datatype Result<+R, +E> = Success(value: R) | Failure(error: E)

  function Max(a: int, b: int): int {
    if a >= b then a else b
  }
}
