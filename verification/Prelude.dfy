/** Small shared datatypes. */
module Prelude {

  datatype Option<+T> = None | Some(value: T) {
    /** The `x ?? d` of the source, for a value that may be null or undefined. */
    function GetOr(default: T): T {
      match this
      case Some(v) => v
      case None => default
    }
  }

  /** Which rate-limit bucket a purge consumes from. */
  datatype RateClass = Bulk | Single
}
