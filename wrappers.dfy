/** Option and Result, the failure-carrying values every service returns. */
module Wrappers {

  /** A value that may be absent: JavaScript's `undefined`/`null`, or a nullable column. */
  datatype Option<+T> = None | Some(value: T) {
    function GetOr(default: T): T {
      match this
      case Some(v) => v
      case None => default
    }
  }

  /** The outcome of an operation that can throw one of a closed set of errors. */
  datatype Result<+R, +E> = Success(value: R) | Failure(error: E)
}
