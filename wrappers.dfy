/** Optional values: JavaScript's `null`/`undefined`/`NaN` results and "not found". */
module Wrappers {

  datatype Option<+T> = None | Some(value: T) {

    /** The value, or `default` when there is none (JavaScript's `x ?? default`). */
    function GetOr(default: T): T
    {
      match this
      case Some(v) => v
      case None => default
    }
  }

  /** A value, or the exception a computation throws instead. */
  datatype Result<+T> = Success(value: T) | Failure(error: string)
}
