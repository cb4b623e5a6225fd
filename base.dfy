/** Optional values and results shared by the other modules. */
module Base {

  /** A value that may be absent: SQL NULL, a missing optional key, a lookup with no row. */
  datatype Option<T> = None | Some(value: T) {
    /** The value, or `default` when absent. */
    function GetOr(default: T): T {
      match this
      case Some(v) => v
      case None => default
    }
  }

  /** The outcome of an operation that can fail. */
  datatype Result<T, E> = Ok(value: T) | Err(error: E)
}
