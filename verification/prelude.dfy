/** The option and result types shared by every module, and the kernel's error codes. */
module Prelude {

  datatype Option<+T> = None | Some(value: T) {
    function UnwrapOr(default: T): T {
      if Some? then value else default
    }
  }

  /** The error codes of `ftl_api::error` that the modelled operations return. */
  datatype ErrorCode =
    | OutOfMemory | OutOfBounds | InvalidArg | InvalidState
    | AlreadyExists | NotAllowed | Unsupported

  datatype Result<+T> = Ok(value: T) | Err(error: ErrorCode)

  const MIN_PAGE_SIZE: nat := 4096

  type Byte = b: int | 0 <= b < 256
}
