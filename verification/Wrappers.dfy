/** Result types shared by the other modules. */
module Wrappers {
  datatype Option<+T> = None | Some(value: T)

  /** The error outcomes the repository names; ErrOther stands for any error without a sentinel. */
  datatype Error =
    | ErrNotFound          // domain.ErrNotFound
    | ErrConflict          // domain.ErrConflict
    | ErrPermissionDenied  // auth.ErrPermissionDenied
    | ErrRateLimited       // ratelimit.ErrRateLimited
    | ErrInvalidArgument   // service.ErrInvalidArgument
    | ErrBadCredentials    // service.ErrBadCredentials
    | ErrOther

  datatype Result<+T> = Ok(value: T) | Err(error: Error)
}
