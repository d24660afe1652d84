/** Option and Result, the two failure-carrying values used across the model:
    `None` stands for PHP's null or false where the source returns one, `Failure`
    for an exception the source throws. */
module Wrappers {

  datatype Option<+T> = None | Some(value: T) {
    function GetOr(default: T): T {
      match this
      case Some(v) => v
      case None => default
    }
  }

  datatype Result<+R, +E> = Success(value: R) | Failure(error: E)
}
