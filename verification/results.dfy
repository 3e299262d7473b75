/** Optional values and success-or-error results, used in place of Rust's
    `Option` and of the panics the modelled code raises. */
module Results {

  /** Rust's `Option<T>`. */
  datatype Option<+T> = None | Some(value: T)

  /** The outcome of an operation that can abort: either its value or the
      reason it aborted. */
  datatype Result<+T, +E> = Ok(value: T) | Err(error: E)
}
