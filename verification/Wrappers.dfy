/** Result types shared by every module. */
module Wrappers {
  datatype Option<+T> = None | Some(value: T)

  /** The domain error kinds the stores and services return. */
  datatype Error =
    | InvalidArgument
    | Unauthenticated
    | PermissionDenied
    | NotFound
    | Unavailable
    | Internal

  datatype Result<+T> = Ok(value: T) | Err(error: Error)
}
