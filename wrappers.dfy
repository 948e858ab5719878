// The optional value used wherever the source has `T | null | undefined`.
module Wrappers {

  datatype Option<+T> = None | Some(value: T) {

    /** The value, or `default` when none is present. */
    function GetOr(default: T): T {
      match this
      case Some(v) => v
      case None => default
    }
  }
}
