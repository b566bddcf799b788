/** Small value wrappers shared by the components. */
module Common {

  /** A value that may be absent: JavaScript's `null`/`undefined` next to a value. */
  datatype Option<+T> = None | Some(value: T)

  /** What an asynchronous service call delivers: its payload, or a rejected promise. */
  datatype Response<+T> = Ok(data: T) | Failed
}
