/** Values that may be absent and computations that may throw. */
module Results {

  datatype Option<+T> = None | Some(value: T)

  /** `Err` stands for a thrown exception. */
  datatype Result<+T, +E> = Ok(value: T) | Err(error: E)
}
