/** Optional values, results of calls that may throw, and replies of calls that change state. */
module Results {
  datatype Option<+T> = None | Some(value: T)

  datatype Result<+T> = Ok(value: T) | Throws

  datatype Reply = Done | NotFound | Refused
}
