/** Shared definitions: values that may be absent, and the integer minimum. */
module Basics {

  /** A value that may be missing, such as an absent field of a stored record. */
  datatype Option<+T> = None | Some(value: T) {

    /** The value, or `default` when it is missing. */
    function GetOr(default: T): T {
      match this
      case Some(v) => v
      case None => default
    }
  }

  function Min(a: int, b: int): int {
    if a <= b then a else b
  }
}
