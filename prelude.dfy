/** Option and Result, the two failure-carrying types the Rust code returns. */
module Prelude {

  datatype Option<+T> = None | Some(value: T)
  {
    /** Rust's `ok_or`: the value as `Ok`, or `Err(e)` when there is none. */
    function OkOr<E>(e: E): Result<T, E>
    {
      match this
      case Some(v) => Ok(v)
      case None => Err(e)
    }
  }

  /** Rust's `Result<T, E>`: `Ok(value)` or `Err(error)`. */
  datatype Result<+T, +E> = Ok(value: T) | Err(error: E)
}
