/** Failure-carrying results, one constructor per Python exception kind the core raises. */
module Wrappers {

  /** The exception kinds the parsers and writers raise, with the message where the source gives one. */
  datatype Error =
    | ValueError(msg: string)
    | RuntimeError(msg: string)
    | TypeError
    | IndexError
    | KeyError(key: string)
    | AttributeError

  datatype Result<+T> = Ok(value: T) | Err(error: Error)

  datatype Option<+T> = None | Some(value: T)
}
