/** The two result shapes that the source uses, and its error type. */
module Prelude {

  datatype Option<+T> = None | Some(value: T)

  datatype Result<+T, +E> = Ok(value: T) | Err(error: E)

  /** `GrpcError`, without the message text; a timeout is `CallAsync.TimedOut`. */
  datatype GrpcError =
    | Connection
    | Proto
    | ProtoCompile
    | Call
}
