/** Optional values and results with an error, the shapes Python's `None` and raised exceptions take here. */
module Wrappers {

  /** A value that may be missing: an absent dictionary key, an element a page does not have. */
  datatype Option<+T> = None | Some(value: T) {
    function GetOr(default: T): T {
      match this
      case Some(v) => v
      case None => default
    }
  }

  /** Either a value or the error the source would raise. */
  datatype Result<+R, +E> = Success(value: R) | Failure(error: E)
}
