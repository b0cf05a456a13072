/** Result types shared by the modules of this project. */
module Wrappers {

  /** A value that may be absent: a missing file, a key that does not resolve. */
  datatype Option<+T> = None | Some(value: T)
  {
    function GetOr(default: T): T {
      if Some? then value else default
    }
  }

  /** Either a value or the reason the original raises. */
  datatype Result<+T, +E> = Success(value: T) | Failure(error: E)

  /** The result of an operation that only passes or raises. */
  datatype Outcome<+E> = Pass | Fail(error: E)
}
