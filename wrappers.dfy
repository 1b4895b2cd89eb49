/** Optional values and fallible results, used for Swift optionals and for the
    places where the app calls `fatalError`. */
module Wrappers {

  /** Swift's `T?`. */
  datatype Option<+T> = None | Some(value: T) {

    /** The `??` operator: the wrapped value, or `default` for `nil`. */
    function GetOr(default: T): T {
      match this
      case Some(v) => v
      case None => default
    }
  }

  /** Either a computed value or the error that would have stopped the app. */
  datatype Result<+T, +E> = Success(value: T) | Failure(error: E)
}
