/** Option and Result, the shapes Go expresses with nil pointers and
    (value, error) pairs. */
module Wrappers {

  /** A Go pointer field: `None` is nil, `Some(v)` points at `v`. */
  datatype Option<+T> = None | Some(value: T) {

    /** The pointed-to value, or `default` when nil. */
    function GetOr(default: T): (r: T)
      ensures Some? ==> r == value
      ensures None? ==> r == default
    {
      match this
      case Some(v) => v
      case None => default
    }
  }

  /** A Go `(value, error)` return where exactly one half is meaningful. */
  datatype Result<+T, +E> = Success(value: T) | Failure(error: E)
}
