/** The optional and result types shared by the ledger modules. */
module Wrappers {

  /** A value that may be absent: the outcome of a `fetchone()` or a `next(..., None)` lookup. */
  datatype Option<+T> = None | Some(value: T)

  /** The errors the modelled operations surface to their callers. */
  datatype Error =
    | UserNotFound      // HTTP 404 "User not found"
    | AgentNotFound     // HTTP 404 "Agent not found"
    | LimitTooLarge     // query validation rejects `limit > 100` (HTTP 422)

  /** Either a successful value or one of the errors above. */
  datatype Result<+T> = Ok(value: T) | Err(error: Error)
}
