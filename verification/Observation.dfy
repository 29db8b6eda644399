// The capture loop that drives the challenge and then hands derived observations to a consumer.
module Observation {
  import opened Wrappers
  import opened Protocol
  import opened Cancellation
  import opened ObservationTypes
  import opened CaptureLoop
  import opened CaptureLaws
  import L = Liveness

  class ObservationLoop<T> {
    const config: L.ChallengeConfig
    const action: Option<L.ChallengeAction>
    const pairs: nat -> Option<CapturedPair>
    const faces: nat -> FaceOutcome
    const derivations: nat -> Result<Derivation, ObservationFailure>
    const listens: nat -> Option<ObservationFailure>
    const consume: seq<DerivedObservation> -> Result<Flow<T>, ObservationFailure>
    const probe: CancelProbe
    var challenge: Option<L.ChallengeSession>
    var challengePassed: bool
    var lastProgress: Option<ProgressCode>
    var previousPair: Option<FreshPairIdentity>
    var derivedAttempts: nat
    var captureAttempts: nat
    // What has been announced, handed to the consumer, and refused by the challenge.
    var announced: nat
    ghost var emitted: seq<ProgressCode>
    var consumed: seq<DerivedObservation>
    ghost var refusal: Option<L.ChallengeError>
    ghost var skipped: nat

    ghost function Outside(): (w: World<T>) {
      World(config, action, pairs, faces, derivations, listens, consume, probe.fires)
    }

    ghost function Footprint(): (s: set<object>)
      reads this`challenge
    {
      {this, probe} + if challenge.Some? then {challenge.value} else {}
    }

    ghost function ChallengeValue(): (c: Option<L.ChallengeState>)
      reads this`challenge, if challenge.Some? then {challenge.value} else {}
    {
      if challenge.Some? then Some(challenge.value.State()) else None
    }

    ghost function State(): (s: LoopState)
      reads Footprint()
    {
      LoopState(ChallengeValue(), lastProgress, previousPair, captureAttempts, announced, emitted, consumed, refusal,
                skipped, probe.polls)
    }

    // The loop's variables are what the state derives from the rest.
    ghost predicate Valid()
      reads Footprint()
    {
      && (challenge.Some? ==> challenge.value.Valid())
      && (challengePassed <==> State().Passed())
      && derivedAttempts == |consumed|
    }

    constructor (config: L.ChallengeConfig, action: Option<L.ChallengeAction>, pairs: nat -> Option<CapturedPair>,
                 faces: nat -> FaceOutcome, derivations: nat -> Result<Derivation, ObservationFailure>,
                 listens: nat -> Option<ObservationFailure>,
                 consume: seq<DerivedObservation> -> Result<Flow<T>, ObservationFailure>, probe: CancelProbe)
      ensures Outside() == World(config, action, pairs, faces, derivations, listens, consume, probe.fires)
      ensures this.probe == probe && Valid() && State() == Initial(probe.polls) && challenge.None?
    {
      this.config, this.action, this.pairs, this.faces := config, action, pairs, faces;
      this.derivations, this.listens, this.consume, this.probe := derivations, listens, consume, probe;
      challenge, challengePassed, lastProgress, previousPair := None, false, None, None;
      derivedAttempts, captureAttempts, announced, emitted, consumed := 0, 0, 0, [], [];
      refusal, skipped := None, 0;
    }

    method Announce(code: ProgressCode) returns (failure: Option<ObservationFailure>)
      modifies this`announced, this`emitted
      ensures failure == listens(old(announced))
      ensures State() == Announced(Outside(), old(State()), code)
    {
      failure := listens(announced);
      announced := announced + 1;
      if failure.None? { emitted := emitted + [code]; }
    }

    method EnsureActive() returns (failure: Option<ObservationFailure>)
      modifies probe
      ensures State() == Polled(old(State()))
      ensures failure == if probe.fires(old(probe.polls)) then Some(ObservationFailure.Cancelled) else None
    {
      var stop := probe.ShouldCancel();
      failure := if stop then Some(ObservationFailure.Cancelled) else None;
    }

    // The failure to report, unless the job was cancelled meanwhile.
    method FailureUnlessCancelled(failure: ObservationFailure) returns (f: ObservationFailure)
      modifies probe
      ensures State() == Polled(old(State())) && f == FailureAt(Outside(), old(State()), failure)
    {
      var stop := probe.ShouldCancel();
      f := if stop then ObservationFailure.Cancelled else failure;
    }

    // Captures the next pair, which must be fresh after the previous one.
    method CaptureFresh() returns (r: Result<CapturedPair, ObservationFailure>)
      modifies this`captureAttempts, this`previousPair, probe
      ensures (State(), r) == Captured(Outside(), old(State()))
    {
      var stopped := EnsureActive();
      if stopped.Some? { return Failure(stopped.value); }
      if captureAttempts >= MaximumCaptures(config) { return Failure(AttemptLimit); }
      var pair := pairs(captureAttempts);
      if pair.None? {
        var f := FailureUnlessCancelled(Capture);
        return Failure(f);
      }
      captureAttempts := captureAttempts + 1;
      var identity := IdentityOf(pair.value);
      if previousPair.Some? && !identity.IsFreshAfter(previousPair.value) { return Failure(InvalidEvidence); }
      previousPair := Some(identity);
      r := Success(pair.value);
    }

    // Shows one pair to the open challenge.
    method ShowPair(o: L.ChallengeObservation) returns (r: Result<L.ChallengeProgress, ObservationFailure>)
      requires challenge.Some? && challenge.value.Valid()
      modifies this`refusal, this`skipped, challenge.value, probe
      ensures challenge == old(challenge) && challenge.value.Valid()
      ensures (State(), r) == Shown(Outside(), old(State()), old(challenge.value.State()), o)
    {
      hide L.Refusal;
      hide L.After;
      hide L.Fold;
      hide L.Measured;
      hide L.ChallengeSession.Valid;
      hide L.ChallengeSession.WellMeasured;
      hide L.ChallengeSession.Fresh;
      hide L.ChallengeState.Valid;
      hide L.Admissible;
      hide L.ProgressOf;
      var stop := probe.ShouldCancel();
      var observed := challenge.value.ObserveCancellable(o, stop);
      if observed.Failure? {
        refusal := Some(observed.error);
        var f := FailureUnlessCancelled(Liveness);
        return Failure(f);
      }
      refusal, skipped := None, 0;
      L.FieldsFollowTheTrace(challenge.value);
      r := Success(observed.value);
    }

    // Advances the challenge, which begins with the first pair that shows a face.
    method AdvanceChallenge(pair: CapturedPair, eyeOpenness: real, yaw: real)
      returns (r: Result<L.ChallengeProgress, ObservationFailure>)
      requires challenge.Some? ==> challenge.value.Valid()
      modifies this`challenge, this`refusal, this`skipped, if challenge.Some? then {challenge.value} else {}, probe
      ensures challenge.Some? ==> challenge.value.Valid()
      ensures challenge == old(challenge) || (old(challenge).None? && challenge.Some? && fresh(challenge.value))
      ensures (State(), r) == Advanced(Outside(), old(State()), pair, eyeOpenness, yaw)
    {
      hide Shown;
      hide L.Begun;
      hide IdentityOf;
      hide EvidenceOf;
      hide L.ChallengeSession.Valid;
      if challenge.None? {
        var begun := L.ChallengeSession.Begin(config, IdentityOf(pair).timestamp, action);
        if begun.Failure? {
          refusal := Some(begun.error);
          return Failure(Liveness);
        }
        challenge := Some(begun.value);
        ShownReplaces(Outside(), old(State()), begun.value.State(), EvidenceOf(pair, eyeOpenness, yaw));
      }
      r := ShowPair(EvidenceOf(pair, eyeOpenness, yaw));
    }

    // Advances the challenge with one located face; whether it has now passed.
    method Challenge(pair: CapturedPair, eyeOpenness: real, yaw: real) returns (r: Result<bool, ObservationFailure>)
      requires challenge.Some? ==> challenge.value.Valid()
      modifies this`challenge, this`refusal, this`skipped, this`lastProgress, this`announced, this`emitted
      modifies if challenge.Some? then {challenge.value} else {}, probe
      ensures challenge.Some? ==> challenge.value.Valid()
      ensures challenge == old(challenge) || (old(challenge).None? && challenge.Some? && fresh(challenge.value))
      ensures (State(), r) == Challenged(Outside(), old(State()), pair, eyeOpenness, yaw)
    {
      hide Advanced;
      hide L.ChallengeSession.Valid;
      var state := AdvanceChallenge(pair, eyeOpenness, yaw);
      if state.Failure? { return Failure(state.error); }
      if state.value.ChallengePassed? { return Success(true); }
      var public := PublicProgress(state.value);
      if lastProgress != Some(public) {
        var failure := Announce(public);
        if failure.Some? { return Failure(failure.value); }
        lastProgress := Some(public);
      }
      r := Success(false);
    }

    // Derives one observation of a pair and hands it to the consumer.
    method DeriveAndConsume(pair: CapturedPair, yaw: real) returns (r: Option<Result<T, ObservationFailure>>)
      requires Valid()
      modifies this`derivedAttempts, this`consumed, this`announced, this`emitted
      ensures Valid()
      ensures (State(), r) == Derived(Outside(), old(State()), pair, yaw)
    {
      hide L.ChallengeSession.Valid;
      hide L.Fold;
      hide IdentityOf;
      var failure := Announce(Processing);
      if failure.Some? { return Some(Failure(failure.value)); }
      var derived := derivations(derivedAttempts);
      if derived.Failure? { return Some(Failure(derived.error)); }
      derivedAttempts, consumed := derivedAttempts + 1, consumed + [DerivedFrom(derived.value, pair, yaw)];
      var decision := consume(consumed);
      if decision.Failure? { return Some(Failure(decision.error)); }
      if decision.value.Break? { return Some(Success(decision.value.value)); }
      if derivedAttempts >= MAX_DERIVED_OBSERVATION_ATTEMPTS { return Some(Failure(AttemptLimit)); }
      failure := Announce(HoldStill);
      r := if failure.Some? then Some(Failure(failure.value)) else None;
    }

    // A pair that shows one usable face.
    method Locate(pair: CapturedPair, eyeOpenness: real, yaw: real) returns (r: Option<Result<T, ObservationFailure>>)
      requires Valid()
      modifies Footprint()
      ensures r.None? ==> Valid()
      ensures challenge == old(challenge) || (old(challenge).None? && challenge.Some? && fresh(challenge.value))
      ensures (State(), r) == Located(Outside(), old(State()), pair, eyeOpenness, yaw)
    {
      hide Challenged;
      hide Derived;
      hide L.Fold;
      hide L.ChallengeSession.Valid;
      if !challengePassed {
        ChallengedTells(Outside(), State(), pair, eyeOpenness, yaw);
        var passed := Challenge(pair, eyeOpenness, yaw);
        if passed.Failure? { return Some(Failure(passed.error)); }
        if !passed.value { return None; }
        challengePassed := true;
      }
      r := DeriveAndConsume(pair, yaw);
    }

    // One round of the loop is one step of its specification.
    method Iterate() returns (r: Option<Result<T, ObservationFailure>>)
      requires Valid()
      modifies Footprint()
      ensures r.None? ==> Valid()
      ensures challenge == old(challenge) || (old(challenge).None? && challenge.Some? && fresh(challenge.value))
      ensures (State(), r) == Round(Outside(), old(State()))
    {
      hide Captured;
      hide Located;
      hide L.Fold;
      hide L.ChallengeSession.Valid;
      var pair := CaptureFresh();
      if pair.Failure? { return Some(Failure(pair.error)); }
      var face := faces(captureAttempts);
      match face {
        case Fatal(error) => r := Some(Failure(error));
        case RetryPosition =>
          var failure := Announce(PositionFace);
          skipped := skipped + 1;
          r := if failure.Some? then Some(Failure(failure.value)) else None;
        case Found(eyeOpenness, yaw) => r := Locate(pair.value, eyeOpenness, yaw);
      }
    }

    // The whole session is the run of its specification, and keeps the facts about every such run.
    method RunSession() returns (r: Result<T, ObservationFailure>)
      requires challenge.None? && Valid() && State() == Initial(probe.polls)
      modifies this, probe
      ensures (State(), r) == Session(Outside(), old(probe.polls))
      ensures Facts(Outside(), State())
      ensures r.Success? ==> Broke(Outside(), State(), r.value)
    {
      SessionsKeepTheFacts(Outside(), probe.polls);
      hide Facts;
      hide Broke;
      hide Round;
      if !config.Valid() { return Failure(Liveness); }
      var stopped := EnsureActive();
      if stopped.Some? { return Failure(stopped.value); }
      var failure := Announce(PositionFace);
      if failure.Some? { return Failure(failure.value); }
      ghost var result := From(Outside(), State());
      while true
        invariant Valid() && (challenge.Some? ==> fresh(challenge.value))
        invariant From(Outside(), State()) == result
        decreases MaximumCaptures(config) - captureAttempts
      {
        RoundsAreCounted(Outside(), State());
        var ended := Iterate();
        if ended.Some? { return ended.value; }
      }
    }
  }
}
