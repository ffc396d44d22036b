/** Optional values and fallible results, in place of null pointers and exceptions. */
module Results {

  /** An owning pointer that may be null, or a lookup that may miss. */
  datatype Option<+T> = None | Some(value: T)

  /** The outcome of a handler that can end in a fatal fault. */
  datatype Result<+T, +E> = Ok(value: T) | Err(error: E)
}
