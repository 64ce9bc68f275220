/** Result types shared by every module of the model. */
module Wrappers {

  datatype Option<+T> = None | Some(value: T) {
    function GetOr(fallback: T): T {
      if Some? then value else fallback
    }
  }

  datatype Result<+T, +E> = Success(value: T) | Failure(error: E)
}
