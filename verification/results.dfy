/** Optional values and the error outcomes the route store reports to its callers. */
module Results {

  /** A value that may be missing: Redis answers a GET on an absent key with nil. */
  datatype Option<+T> = None | Some(value: T)

  /** The store's error conditions: a lookup of a source that has no route. */
  datatype Error = NotFound

  /** Either a value or the error raised instead of returning one. */
  datatype Result<+T> = Ok(value: T) | Err(error: Error)
}
