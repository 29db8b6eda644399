// The closed codes and responses exchanged with an authentication client.
module Protocol {
  type TransactionId = nat

  type ConnectionToken = nat

  datatype DecisionCode =
    | Accepted | InfraredMissing | VisibleMissing | InsufficientQuality | PassiveLivenessFailed
    | ActiveChallengeFailed | FaceMismatch | Cancelled | TimedOut | InternalError

  // Decisions only the session manager may synthesize.
  predicate Reserved(decision: DecisionCode) {
    decision.Cancelled? || decision.TimedOut?
  }

  datatype ProgressCode = PositionFace | HoldStill | Blink | TurnLeft | TurnRight | ReturnToCenter | Processing

  datatype RejectionCode =
    | UnauthorizedPeer | ServiceNotAllowed | NotEnrolled | CameraUnavailable | Busy | ServiceUnavailable

  datatype Response =
    | Started(transaction: TransactionId)
    | Progress(transaction: TransactionId, progress: ProgressCode)
    | Completed(transaction: TransactionId, decision: DecisionCode)
    | Rejected(transaction: TransactionId, reason: RejectionCode)

  datatype Request = Authenticate(transaction: TransactionId) | Cancel(transaction: TransactionId)
}
