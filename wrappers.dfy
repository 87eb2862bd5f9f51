/** Option and Result values standing in for Python's None and for raised exceptions. */
module Wrappers {

  datatype Option<T> = None | Some(value: T)
  {
    /** Python's `x or default` for a value that is either None or present. */
    function GetOr(default: T): T
    {
      if Some? then value else default
    }
  }

  datatype Result<T, E> = Success(value: T) | Failure(error: E)
}
