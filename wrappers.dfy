/** Failure-carrying result types shared by the engine and the client model. */
module Wrappers {

  /** An optional value: Python's `None` / JavaScript's `null` versus a present value. */
  datatype Option<+T> = None | Some(value: T)

  /** The outcome of a call that either returns a value or raises (Python's `ValueError`,
      `IndexError`); the error carries the exception's message. */
  datatype Result<+T> = Ok(value: T) | Err(reason: string)

  /** The outcome of a call that returns nothing but may raise. */
  datatype Outcome = Pass | Fail(reason: string)
}
