// The capture loop as a function: one round is a step on the loop's variables, and a session is the
// rounds up to the one that ends it.
module CaptureLoop {
  import opened Wrappers
  import opened Protocol
  import opened ObservationTypes
  import L = Liveness

  const MAX_DERIVED_OBSERVATION_ATTEMPTS := 32

  // One synchronized pair of camera frames.
  datatype CapturedPair = CapturedPair(infraredSequence: u32, visibleSequence: u32, infraredTime: u64, visibleTime: u64)

  // What locating the face in one pair comes to.
  datatype FaceOutcome = Found(eyeOpenness: real, yaw: real) | RetryPosition | Fatal(error: ObservationFailure)

  datatype FreshPairIdentity = FreshPairIdentity(infraredSequence: u32, visibleSequence: u32, timestamp: u64) {
    predicate IsFreshAfter(previous: FreshPairIdentity) {
      infraredSequence != previous.infraredSequence && visibleSequence != previous.visibleSequence
      && timestamp > previous.timestamp
    }
  }

  function IdentityOf(pair: CapturedPair): (i: FreshPairIdentity) {
    FreshPairIdentity(pair.infraredSequence, pair.visibleSequence, Max(pair.infraredTime, pair.visibleTime))
  }

  function EvidenceOf(pair: CapturedPair, eyeOpenness: real, yaw: real): (o: L.ChallengeObservation) {
    L.ChallengeObservation(L.CapturePair(pair.infraredTime, Some(pair.visibleTime)),
                           pair.infraredSequence, pair.visibleSequence, 1, eyeOpenness, yaw)
  }

  function PublicProgress(p: L.ChallengeProgress): (code: ProgressCode) {
    match p
    case BaselineRequired => HoldStill
    case ActionRequired(Blink) => ProgressCode.Blink
    case ActionRequired(TurnLeft) => ProgressCode.TurnLeft
    case ActionRequired(TurnRight) => ProgressCode.TurnRight
    case RecoveryRequired => ReturnToCenter
    case ChallengePassed => Processing
  }

  // The world outside the loop: cameras, models, progress callback and cancellation flag as answers by
  // call number, and a consumer that answers from everything it has been given.
  datatype World<!T> = World(
    config: L.ChallengeConfig, action: Option<L.ChallengeAction>,
    pairs: nat -> Option<CapturedPair>, faces: nat -> FaceOutcome,
    derivations: nat -> Result<Derivation, ObservationFailure>, listens: nat -> Option<ObservationFailure>,
    consume: seq<DerivedObservation> -> Result<Flow<T>, ObservationFailure>, fires: nat -> bool)

  // `announced` counts the calls of the progress callback, `emitted` holds those it took; `refusal` is
  // the challenge's last error; `skipped` counts the pairs without one usable face since the challenge
  // last accepted a pair.
  datatype LoopState = LoopState(
    challenge: Option<L.ChallengeState>, lastProgress: Option<ProgressCode>, previous: Option<FreshPairIdentity>,
    captures: nat, announced: nat, emitted: seq<ProgressCode>, consumed: seq<DerivedObservation>,
    refusal: Option<L.ChallengeError>, skipped: nat, polls: nat)
  {
    predicate Passed() { challenge.Some? && challenge.value.Phase().Passed? }
  }

  function MaximumCaptures(config: L.ChallengeConfig): (n: nat) {
    config.maxObservations * 2 + MAX_DERIVED_OBSERVATION_ATTEMPTS
  }

  // ---------------------------------------------------------------- the parts of a round

  function Polled(s: LoopState): (t: LoopState) { s.(polls := s.polls + 1) }

  // A failure is reported as a cancellation when the flag is up by then.
  function FailureAt<T>(w: World<T>, s: LoopState, f: ObservationFailure): (g: ObservationFailure) {
    if w.fires(s.polls) then ObservationFailure.Cancelled else f
  }

  function Announced<T>(w: World<T>, s: LoopState, code: ProgressCode): (t: LoopState) {
    s.(announced := s.announced + 1, emitted := if w.listens(s.announced).None? then s.emitted + [code] else s.emitted)
  }

  // Captures the next pair, which must be fresh after the previous one.
  function Captured<T>(w: World<T>, s: LoopState): (r: (LoopState, Result<CapturedPair, ObservationFailure>)) {
    var t := Polled(s);
    if w.fires(s.polls) then (t, Failure(ObservationFailure.Cancelled))
    else if s.captures >= MaximumCaptures(w.config) then (t, Failure(AttemptLimit))
    else
      match w.pairs(s.captures)
      case None => (Polled(t), Failure(FailureAt(w, t, Capture)))
      case Some(pair) =>
        var u := t.(captures := s.captures + 1);
        if s.previous.Some? && !IdentityOf(pair).IsFreshAfter(s.previous.value) then (u, Failure(InvalidEvidence))
        else (u.(previous := Some(IdentityOf(pair))), Success(pair))
  }

  // Shows one pair to a challenge that is open.
  function Shown<T>(w: World<T>, s: LoopState, c: L.ChallengeState, o: L.ChallengeObservation)
    : (r: (LoopState, Result<L.ChallengeProgress, ObservationFailure>))
  {
    var cancelled := w.fires(s.polls);
    var t := Polled(s).(challenge := Some(L.After(c, o, cancelled)), refusal := L.Refusal(c, o, cancelled));
    if t.refusal.Some? then (Polled(t), Failure(FailureAt(w, t, Liveness)))
    else (t.(skipped := 0), Success(L.ProgressOf(t.challenge.value.Phase(), c.action)))
  }

  // The challenge, which begins with the first pair that shows a face.
  function Advanced<T>(w: World<T>, s: LoopState, pair: CapturedPair, eyeOpenness: real, yaw: real)
    : (r: (LoopState, Result<L.ChallengeProgress, ObservationFailure>))
  {
    if s.challenge.Some? then Shown(w, s, s.challenge.value, EvidenceOf(pair, eyeOpenness, yaw))
    else
      match L.Begun(w.config, IdentityOf(pair).timestamp, w.action)
      case Failure(e) => (s.(refusal := Some(e)), Failure(Liveness))
      case Success(c) => Shown(w, s, c, EvidenceOf(pair, eyeOpenness, yaw))
  }

  // Advances the challenge with one located face; whether it has now passed.
  function Challenged<T>(w: World<T>, s: LoopState, pair: CapturedPair, eyeOpenness: real, yaw: real)
    : (r: (LoopState, Result<bool, ObservationFailure>))
  {
    var (t, state) := Advanced(w, s, pair, eyeOpenness, yaw);
    if state.Failure? then (t, Failure(state.error))
    else if state.value.ChallengePassed? then (t, Success(true))
    else
      var public := PublicProgress(state.value);
      if t.lastProgress == Some(public) then (t, Success(false))
      else
        var u := Announced(w, t, public);
        match w.listens(t.announced)
        case Some(f) => (u, Failure(f))
        case None => (u.(lastProgress := Some(public)), Success(false))
  }

  // The open challenge replaces whatever was there.
  lemma ShownReplaces<T>(w: World<T>, s: LoopState, c: L.ChallengeState, o: L.ChallengeObservation)
    ensures Shown(w, s.(challenge := Some(c)), c, o) == Shown(w, s, c, o)
  {
  }

  lemma ChallengedTells<T>(w: World<T>, s: LoopState, pair: CapturedPair, eyeOpenness: real, yaw: real)
    ensures var (t, r) := Challenged(w, s, pair, eyeOpenness, yaw); r.Success? ==> (r.value <==> t.Passed())
  {
    hide L.Begun;
    hide L.After;
    hide L.Refusal;
    hide L.Fold;
  }

  function DerivedFrom(d: Derivation, pair: CapturedPair, yaw: real): (o: DerivedObservation) {
    DerivedObservation(d.embedding, d.quality, yaw, d.pad, IdentityOf(pair).timestamp)
  }

  // Derives one observation of a pair and hands it to the consumer.
  function Derived<T>(w: World<T>, s: LoopState, pair: CapturedPair, yaw: real)
    : (r: (LoopState, Option<Result<T, ObservationFailure>>))
  {
    var t := Announced(w, s, Processing);
    if w.listens(s.announced).Some? then (t, Some(Failure(w.listens(s.announced).value)))
    else
      match w.derivations(|s.consumed|)
      case Failure(f) => (t, Some(Failure(f)))
      case Success(d) => Consumed(w, t.(consumed := s.consumed + [DerivedFrom(d, pair, yaw)]))
  }

  // The consumer's decision on the newest observation.
  function Consumed<T>(w: World<T>, s: LoopState): (r: (LoopState, Option<Result<T, ObservationFailure>>)) {
    match w.consume(s.consumed)
    case Failure(f) => (s, Some(Failure(f)))
    case Success(Break(value)) => (s, Some(Success(value)))
    case Success(Continue) =>
      if |s.consumed| >= MAX_DERIVED_OBSERVATION_ATTEMPTS then (s, Some(Failure(AttemptLimit)))
      else (Announced(w, s, HoldStill), Listened(w, s))
  }

  // The loop ends when the progress callback refuses the next call.
  function Listened<T>(w: World<T>, s: LoopState): (r: Option<Result<T, ObservationFailure>>) {
    match w.listens(s.announced) case Some(f) => Some(Failure(f)) case None => None
  }

  // A pair that shows one usable face goes to the challenge until that has passed, and then on.
  function Located<T>(w: World<T>, s: LoopState, pair: CapturedPair, eyeOpenness: real, yaw: real)
    : (r: (LoopState, Option<Result<T, ObservationFailure>>))
  {
    if s.Passed() then Derived(w, s, pair, yaw)
    else
      var (t, passed) := Challenged(w, s, pair, eyeOpenness, yaw);
      if passed.Failure? then (t, Some(Failure(passed.error)))
      else if !passed.value then (t, None)
      else Derived(w, t, pair, yaw)
  }

  // One round of the capture loop.
  function Round<T>(w: World<T>, s: LoopState): (r: (LoopState, Option<Result<T, ObservationFailure>>)) {
    var (t, pair) := Captured(w, s);
    if pair.Failure? then (t, Some(Failure(pair.error)))
    else
      match w.faces(t.captures)
      case Fatal(error) => (t, Some(Failure(error)))
      case RetryPosition => (Announced(w, t, PositionFace).(skipped := t.skipped + 1), Listened(w, t))
      case Found(eyeOpenness, yaw) => Located(w, t, pair.value, eyeOpenness, yaw)
  }

  // ---------------------------------------------------------------- whole sessions

  lemma RoundsAreCounted<T>(w: World<T>, s: LoopState)
    ensures Round(w, s).1.None? ==> Round(w, s).0.captures == s.captures + 1 <= MaximumCaptures(w.config)
  {
    hide L.After;
    hide L.Refusal;
    hide L.Begun;
    hide L.Fold;
  }

  function From<T>(w: World<T>, s: LoopState): (r: (LoopState, Result<T, ObservationFailure>))
    decreases MaximumCaptures(w.config) - s.captures
  {
    RoundsAreCounted(w, s);
    var (t, ended) := Round(w, s);
    if ended.Some? then (t, ended.value) else From(w, t)
  }

  function Initial(polls: nat): (s: LoopState) {
    LoopState(None, None, None, 0, 0, [], [], None, 0, polls)
  }

  // A session as the loop's caller sees it, `polls` polls into the cancellation flag.
  function Session<T>(w: World<T>, polls: nat): (r: (LoopState, Result<T, ObservationFailure>)) {
    var s := Polled(Initial(polls));
    if !w.config.Valid() then (Initial(polls), Failure(Liveness))
    else if w.fires(polls) then (s, Failure(ObservationFailure.Cancelled))
    else if w.listens(0).Some? then (Announced(w, s, PositionFace), Failure(w.listens(0).value))
    else From(w, Announced(w, s, PositionFace))
  }
}
