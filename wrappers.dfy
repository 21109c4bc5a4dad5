/** Option and Result, the two failure-carrying shapes the model uses:
    a missing JSON field or an absent optional property is an Option,
    an exception thrown by a stage is a Result's Failure. */
module Wrappers {

  datatype Option<+T> = None | Some(value: T) {
    function GetOr(default: T): T {
      match this
      case Some(v) => v
      case None => default
    }
  }

  datatype Result<+R, +E> = Success(value: R) | Failure(error: E)
}
