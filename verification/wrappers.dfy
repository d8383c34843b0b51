/** The Option type used for Python's "value or nothing" and for a call
    that may raise: `None` stands for the exception escaping the call. */
module Wrappers {

  datatype Option<+T> = None | Some(value: T) {

    /** The value in Some, else `default`. */
    function GetOr(default: T): (r: T)
      ensures Some? ==> r == value
      ensures None? ==> r == default
    {
      match this
      case Some(v) => v
      case None => default
    }
  }
}
