/** Optional values and results with an error, the two shapes the model uses for Java's
    `null` returns and for thrown exceptions. */
module Wrappers {

  datatype Option<T> = None | Some(value: T)
  {
    function GetOr(default: T): T
    {
      match this
      case None => default
      case Some(v) => v
    }
  }

  datatype Result<T, E> = Ok(value: T) | Err(error: E)
  {
    function ToOption(): Option<T>
    {
      match this
      case Ok(v) => Some(v)
      case Err(_) => None
    }
  }
}
