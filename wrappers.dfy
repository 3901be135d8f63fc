/** Optional values and results with an error message, used wherever the
    source returns None/null/undefined or raises. */
module Wrappers {
  datatype Option<T> = None | Some(value: T)
  {
    function GetOr(default: T): T
    {
      match this
      case None => default
      case Some(v) => v
    }
  }

  datatype Result<T> = Success(value: T) | Failure(error: string)
}
