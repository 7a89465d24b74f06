/** Option and Result, shared by the inventory and pricing modules:
    `Option` stands for a Go pointer that may be nil, `Result` for a Go
    `(value, error)` pair. */
module Wrappers {

  datatype Option<+T> = None | Some(value: T) {

    /** The pointed-to value, or the given default when the pointer is nil. */
    function GetOr(default: T): T {
      match this
      case Some(v) => v
      case None => default
    }
  }

  datatype Result<+T, +E> = Success(value: T) | Failure(error: E)
}
