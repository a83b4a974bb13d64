/** Optional values and error-or-value results, standing for Python's `None`
    and for an exception that a call raises instead of returning. */
module Results {

  datatype Option<T> = None | Some(value: T) {
    /** The value, or `default` when there is none (Python's `d.get(key, default)`). */
    function GetOr(default: T): T {
      match this
      case Some(v) => v
      case None => default
    }
  }

  datatype Result<T, E> = Ok(value: T) | Err(error: E)
}
