/** Small shared datatypes. */
module Common {

  /** A value that may be absent: JavaScript's `undefined`/`null`, or `NaN` for a failed number parse. */
  datatype Option<+T> = None | Some(value: T)

  /** The outcome of a call that may throw. */
  datatype Result<+T> = Ok(value: T) | Err(message: string)
}
