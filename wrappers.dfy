// Shared result types: the source reports failure by throwing, the model by
// returning one of these.
module Wrappers {
  datatype Option<T> = None | Some(value: T)
  {
    function GetOr(default: T): T
    {
      match this
      case None => default
      case Some(v) => v
    }
  }

  datatype Result<T, E> = Ok(value: T) | Err(error: E)

  /** The outcome of an operation that returns nothing on success. */
  datatype Outcome<E> = Pass | Fail(error: E)
}
