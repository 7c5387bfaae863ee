/** Kotlin's nullable references (`String?`) as an explicit option type. */
module Wrappers {

  datatype Option<+T> = None | Some(value: T) {

    /** The Elvis operator `x ?: default`. */
    function GetOr(default: T): T {
      match this
      case Some(v) => v
      case None => default
    }
  }
}
