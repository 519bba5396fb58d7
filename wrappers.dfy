/** Option and Result, as the pages use `undefined`/`null` and thrown errors. */
module Wrappers {

  datatype Option<+T> = None | Some(value: T) {
    /** `x || d` on a value that is either present or absent. */
    function GetOr(default: T): T {
      match this
      case Some(v) => v
      case None => default
    }
  }

  datatype Result<+R, +E> = Success(value: R) | Failure(error: E)
}
