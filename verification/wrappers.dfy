/** Option and Result, the two failure-carrying shapes the model needs:
    `Option` for Rust's `Option<T>` fields and `Result` for the `?`-propagated
    errors of argument parsing and of the site resolvers. */
module Wrappers {

  datatype Option<+T> = None | Some(value: T) {

    /** The wrapped value, or `default` when there is none. */
    function GetOr(default: T): T
    {
      match this
      case Some(v) => v
      case None => default
    }
  }

  datatype Result<+R, +E> = Ok(value: R) | Err(error: E)
}
