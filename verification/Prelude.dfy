/** Small shared datatypes. */
module Prelude {

  datatype Option<+T> = None | Some(value: T)

  datatype Result<+T> = Ok(value: T) | Err(reason: Reason)

  /** The classes of error the modelled operations distinguish. */
  datatype Reason = Invalid | NotFound | Conflict | Forbidden | Unavailable

  const SECOND: int := 1_000_000_000
  const MINUTE: int := 60 * SECOND
}
