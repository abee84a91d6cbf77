/** Failure-carrying results: the source's std::optional returns and its ProtocolError throws. */
module Wrappers {

  datatype Option<+T> = None | Some(value: T)

  /** Err carries the text the source throws. */
  datatype Result<+T> = Ok(value: T) | Err(message: string)
}
