/** An optional value, standing for the source's `undefined` and for absent JSON keys. */
module Wrappers {
  datatype Option<+T> = None | Some(value: T) {
    /** The source's `value ?? fallback`. */
    function GetOr(fallback: T): T {
      match this
      case Some(v) => v
      case None => fallback
    }
  }
}
