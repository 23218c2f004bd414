/** Absent values and outcomes of construction. */
module Wrappers {

  /** A value that may be missing: a key left out of a mapping, or a decoding
      that produced nothing. */
  datatype Option<+T> = None | Some(value: T) {

    /** What a field with a default holds: the given value, else `fallback`. */
    function ValueOr(fallback: T): T {
      if Some? then value else fallback
    }
  }

  /** A construction that yields a value or the reason it was refused. */
  datatype Result<+R, +E> = Success(value: R) | Failure(error: E)
}
