/** Failure-compatible wrappers shared by the whole model. */
module Wrappers {

  /** A value that may be missing: JavaScript's `null`/`undefined`. */
  datatype Option<+T> = None | Some(value: T) {

    /** The wrapped value, or `default` when missing (JavaScript's `??`). */
    function GetOr(default: T): T {
      match this
      case Some(v) => v
      case None => default
    }
  }

  /** The outcome of a store operation that can be refused. */
  datatype Result<+R, +E> = Success(value: R) | Failure(error: E)
}
