/** A value, or the message the code raises instead; a value, or none. */
module Results {
  datatype Result<+T> = Ok(value: T) | Err(message: string)

  datatype Option<+T> = None | Some(value: T)
}
