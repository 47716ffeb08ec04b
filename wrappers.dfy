/** Option and Result, the small failure-carrying datatypes the rest of the model uses. */
module Wrappers {

  /** `None` stands for a JavaScript property that is absent (`undefined`). */
  datatype Option<+T> = None | Some(value: T) {
    function GetOr(default: T): T {
      match this
      case Some(v) => v
      case None => default
    }
  }

  /** A call that either returns a value or throws the error `error`. */
  datatype Result<+R, +E> = Success(value: R) | Failure(error: E)
}
