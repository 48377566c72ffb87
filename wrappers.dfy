/** Optional values and results with an error case, used for missing cells and raised errors. */
module Wrappers {

  /** A cell that may be missing (pandas NaN / None). */
  datatype Option<+T> = None | Some(value: T) {

    /** The value of a present cell, or `default` for a missing one (pandas `fillna`). */
    function GetOr(default: T): T {
      match this
      case Some(v) => v
      case None => default
    }
  }

  /** The outcome of an operation that either succeeds with a value or raises an error. */
  datatype Result<+T, +E> = Ok(value: T) | Err(error: E)
}
