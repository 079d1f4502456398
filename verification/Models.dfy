/** The values that travel between the handlers, the service and the repositories,
    and the outcomes an external call can have. */
module Models {

  datatype Option<+T> = None | Some(value: T)

  /** The codes of `models.ServiceError`. */
  datatype ErrorCode =
    | Unknown | Internal | InvalidArgument | Unauthenticated | Conflict
    | NotFound | Canceled | DeadlineExceeded | PermissionDenied

  /** A Go `(value, error)` pair in which a nil error means the value is good. */
  datatype Result<+T> = Ok(value: T) | Err(code: ErrorCode)

  datatype Session = Session(
    sessionID: string, accountID: string, machineID: string, clientIP: string, lastActivity: nat)

  datatype SessionInfo = SessionInfo(clientIP: string, machineID: string, lastActivity: nat)

  function InfoOf(session: Session): SessionInfo {
    SessionInfo(session.clientIP, session.machineID, session.lastActivity)
  }

  /** One external call: it worked, it failed without effect, or it took effect while
      the caller was told that it failed. */
  datatype Outcome = Done | Failed | Unacknowledged {
    predicate Applied() { !Failed? }
  }

  /** The error state of the request context when a repository method returns. */
  datatype Context = Open | Ended(deadline: bool)

  /** What a repository method holds in `err` before `handleError` runs. */
  datatype RawError = NoError | RedisNil | Domain(code: ErrorCode) | Foreign

  /** `handleError`: a finished context overrides everything, even a success. */
  function HandleError(ctx: Context, raw: RawError): Option<ErrorCode> {
    match ctx
    case Ended(deadline) => Some(if deadline then DeadlineExceeded else Canceled)
    case Open =>
      match raw
      case NoError => None
      case RedisNil => Some(NotFound)
      case Domain(code) => Some(code)
      case Foreign => Some(Internal)
  }
}
