/** Small datatypes shared by every component. */
module Wrappers {

  /** A value the program may not have. */
  datatype Option<+T> = None | Some(value: T) {
    function GetOr(default: T): T {
      match this
      case Some(v) => v
      case None => default
    }
  }

  /** What a fallible operation answers. */
  datatype Result<+T, +E> = Success(value: T) | Failure(error: E)
}
