/** Failure-carrying wrappers shared by the whole model. */
module Results {

  /** A value that may be absent: Python's `None` versus a present value. */
  datatype Option<+T> = None | Some(value: T)

  /** A computation that either returns a value or raises. */
  datatype Result<+T, +E> = Ok(value: T) | Err(error: E)

  /** The two kinds of exception the bot's main loop tells apart:
      a `TypeError` (caught by its own `except` clause) and any other
      `Exception`, which the loop only ever uses through `str(error)`. */
  datatype Fault = TypeError | Raised(text: string)
}
