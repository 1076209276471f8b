/** Optional values and results with an error, as Swift's `T?` and `throws` are used by the app. */
module Wrappers {

  /** Swift's `Optional`: `None` is `nil`. */
  datatype Option<+T> = None | Some(value: T) {

    /** `self ?? default` */
    function GetOr(default: T): T {
      match this
      case Some(v) => v
      case None => default
    }
  }

  /** The outcome of a Swift function that `throws`. */
  datatype Result<+R, +E> = Success(value: R) | Failure(error: E)
}
