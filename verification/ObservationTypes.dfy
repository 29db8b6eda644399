// What the capture loop sees, hands to its consumer and reports, and how either of them fails.
module ObservationTypes {
  import opened Wrappers
  import opened Enrollment

  datatype ObservationFailure = Cancelled | Capture | Inference | Liveness | InvalidEvidence | AttemptLimit | Internal

  datatype Flow<T> = Continue | Break(value: T)

  // What the models make of one pair; `pad` is the passive presentation-attack policy's answer for it.
  datatype Derivation = Derivation(embedding: Embedding, quality: real, pad: Result<bool, Unit>)

  // One derived observation.
  datatype DerivedObservation = DerivedObservation(
    embedding: Embedding, quality: real, yaw: real, pad: Result<bool, Unit>, completedAt: u64)
}
