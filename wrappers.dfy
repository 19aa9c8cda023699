/** Failure-carrying values: `Result` for the outcomes of the driver and the
    JSON decoder, `Option` for the connection-string parser and the error
    attached to a data response. */
module Wrappers {

  datatype Option<+T> = None | Some(value: T)

  datatype Result<+T, +E> = Success(value: T) | Failure(error: E)
}
