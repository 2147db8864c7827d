/** Optional values: Kotlin's nullable types (`Double?`, `GamePiece?`, `Job?`)
    and the failure of an index access on an empty list. */
module Wrappers {

  datatype Option<+T> = None | Some(value: T) {

    /** The wrapped value, or `default` when absent (Kotlin's `?:`). */
    function GetOr(default: T): T {
      match this
      case Some(v) => v
      case None => default
    }
  }
}
