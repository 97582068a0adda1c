/** Optional values and error-carrying results, standing in for Swift's
    `Optional` and for `throws`. */
module Wrappers {

  datatype Option<+T> = None | Some(value: T) {
    /** Swift's `??`: the wrapped value, or `default` when there is none. */
    function GetOr(default: T): T {
      match this
      case Some(v) => v
      case None => default
    }
  }

  datatype Result<+R, +E> = Success(value: R) | Failure(error: E)
}
