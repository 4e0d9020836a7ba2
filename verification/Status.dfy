/** Results and status codes: include/storagefabric/core/status.h. */
module Status {

  datatype StatusCode =
    | InvalidArgument | NotFound | DuplicateIdentity | InvalidState | IntegrityMismatch
    | DigestMismatch | LengthMismatch | Truncated | Corrupted | Malformed | Overflow
    | StaleAuthority | DuplicateReservation | StaleReservation | NegativeAccounting
    | InsufficientCapacity | BackendUnavailable | BackendDegraded | EvictionUnsafe
    | IoError | ProtocolError | TrailingGarbage | Internal

  datatype Option<+T> = None | Some(value: T)

  datatype Result<+T> = Ok(value: T) | Err(code: StatusCode)

  /** The Status of an operation that returns no value. */
  datatype Outcome = Pass | Fail(code: StatusCode)
}
