/** Optional values and error-carrying results shared by every module. */
module Results {

  datatype Option<T> = None | Some(value: T)

  /** The outcome of an operation that EZ-EMFI either completes or rejects with an error. */
  datatype Result<T, E> = Ok(value: T) | Err(error: E)
}
