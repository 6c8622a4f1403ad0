/** The optional value used wherever the source has `T | null` or an optional field. */
module Wrappers {

  datatype Option<+T> = None | Some(value: T) {

    /** `x ?? d` in the source. */
    function GetOr(default: T): T {
      match this
      case Some(v) => v
      case None => default
    }
  }
}
