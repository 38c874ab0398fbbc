/** Kotlin's nullable types (`T?`) as an explicit Option. */
module Wrappers {

  datatype Option<+T> = None | Some(value: T) {

    /** The Kotlin elvis operator `x ?: default`. */
    function GetOr(default: T): T {
      match this
      case Some(v) => v
      case None => default
    }
  }
}
