/** The optional value used wherever the source has a field or ref that may be
    undefined or null. */
module Wrappers {

  datatype Option<+T> = None | Some(value: T) {

    /** The JavaScript `??` operator: the value when present, else the default. */
    function GetOr(default: T): T {
      match this
      case Some(v) => v
      case None => default
    }

    /** The JavaScript `||` operator on an object field: the first present value. */
    function OrElse(other: Option<T>): Option<T> {
      if Some? then this else other
    }
  }
}
