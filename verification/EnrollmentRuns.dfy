// Enrollment over the capture loop: when a session of observations can end in a template at all.
module EnrollmentRuns {
  import opened Wrappers
  import opened ObservationTypes
  import opened CaptureLoop
  import opened CaptureLaws
  import L = Liveness
  import E = Enrollment
  import A = EnrollmentAccumulators

  const MAX_PROGRESS_UPDATES := 32

  // The enrollment engine spends one update before the loop starts.
  const PROGRESS_LEFT := MAX_PROGRESS_UPDATES - 1

  // The enrollment session after a series of derived observations.
  ghost function Fed(s: E.SessionState, observations: seq<DerivedObservation>): (t: E.SessionState) {
    if observations == [] then s
    else A.Offered(Fed(s, observations[..|observations| - 1]), observations[|observations| - 1])
  }

  // The observations that were shown to it, and not skipped.
  ghost function Given(s: E.SessionState, observations: seq<DerivedObservation>): (given: seq<E.Observation>) {
    if observations == [] then []
    else
      var rest, o := observations[..|observations| - 1], observations[|observations| - 1];
      var before := Fed(s, rest);
      Given(s, rest) + if A.TooSoon(E.Last(before.times), before.config.minimumInterval, o) || o.pad.Failure? then []
                       else [A.EvidenceOf(o)]
  }

  lemma {:induction false} FedIsARun(s: E.SessionState, observations: seq<DerivedObservation>)
    ensures Fed(s, observations) == E.Run(s, Given(s, observations))
    ensures |Given(s, observations)| <= |observations|
    ensures forall e :: e in Given(s, observations) ==> exists o :: o in observations && e == A.EvidenceOf(o)
    decreases |observations|
  {
    if observations != [] {
      var rest, o := observations[..|observations| - 1], observations[|observations| - 1];
      FedIsARun(s, rest);
      var given := Given(s, rest);
      assert (given + [A.EvidenceOf(o)])[..|given|] == given;
      assert given + [] == given;
      hide E.After;
      hide A.TooSoon;
    }
  }

  // Sample `k` of a session is what the models made of the observation `o`, which passed as live.
  ghost predicate SampleIs(t: E.SessionState, k: nat, o: DerivedObservation)
    requires E.Inv(t) && k < |t.samples|
  {
    && o.embedding.values == t.samples[k] && Some(o.embedding.digest) == t.digest
    && o.quality == t.qualities[k] && o.yaw == t.yaws[k] && o.completedAt == t.times[k]
    && o.pad == Success(true)
  }

  ghost predicate SampleObserved(t: E.SessionState, k: nat, observations: seq<DerivedObservation>)
    requires E.Inv(t) && k < |t.samples|
  {
    exists o :: o in observations && SampleIs(t, k, o)
  }

  // Every sample of a session fed from its start is one of the observations, live, with its own
  // embedding, quality, yaw and time; so there are no more of them.
  lemma SamplesWereObserved(config: E.EnrollmentConfig, issued: u64, observations: seq<DerivedObservation>)
    requires E.ValidConfig(config) && issued + config.duration <= MAX_U64
    ensures var t := Fed(E.Fresh(config, issued), observations);
            && E.Inv(t) && t.config == config && t.issued == issued && |t.samples| <= |observations|
            && forall k :: 0 <= k < |t.samples| ==> SampleObserved(t, k, observations)
  {
    hide E.Refusal;
    hide Fed;
    hide Given;
    hide E.Run;
    hide E.Kept;
    var s := E.Fresh(config, issued);
    assert E.Inv(s);
    hide E.OneModel;
    hide E.Spaced;
    var given := Given(s, observations);
    FedIsARun(s, observations);
    E.RetainedAreShown(s, given);
    StartIsKept(s, given);
    var t := Fed(s, observations);
    assert E.Retained(s) == [];
    assert |t.samples| == |E.Retained(t)| == |t.times|;
    forall k | 0 <= k < |t.samples| ensures SampleObserved(t, k, observations) {
      var e := E.Retained(t)[k];
      assert e in E.Kept(s, given);
      var o :| o in observations && e == A.EvidenceOf(o);
      RetainedHasADigest(t);
      assert SampleIs(t, k, o);
    }
  }

  lemma RetainedHasADigest(t: E.SessionState)
    requires E.Inv(t) && t.samples != []
    ensures t.digest.Some?
  {
  }

  lemma {:induction false} StartIsKept(s: E.SessionState, observations: seq<E.Observation>)
    ensures E.Run(s, observations).config == s.config && E.Run(s, observations).issued == s.issued
    decreases |observations|
  {
    hide E.Refusal;
    if observations != [] { StartIsKept(s, observations[..|observations| - 1]); }
  }

  // What the enrollment consumer answers after a series of observations.
  ghost function Answer(s: E.SessionState, uid: nat, observations: seq<DerivedObservation>, root: real)
    : (r: Result<Flow<E.TemplateRecord>, ObservationFailure>)
  {
    if observations == [] || !E.Inv(Fed(s, observations[..|observations| - 1])) then Failure(Internal)
    else A.Decision(Fed(s, observations[..|observations| - 1]), uid, observations[|observations| - 1], root)
  }

  // The loop's consumer is the enrollment of `s`, which a cancellation may cut short.
  ghost predicate ConsumerIs(w: World<E.TemplateRecord>, s: E.SessionState, uid: nat, root: real,
                             consumed: seq<DerivedObservation>)
  {
    forall k :: 1 <= k <= |consumed| ==>
      w.consume(consumed[..k]) in {Answer(s, uid, consumed[..k], root), Failure(ObservationFailure.Cancelled)}
  }

  // In the world `w`, an enrollment issued at `issued` ends with a template; `root` is its norm.
  ghost predicate Finishes(w: World<E.TemplateRecord>, enrollment: E.EnrollmentConfig, challenge: L.ChallengeConfig,
                           issued: u64, uid: nat, root: real)
    requires issued + enrollment.duration <= MAX_U64
  {
    var (s, r) := Session(w, 0);
    && w.config == challenge && SilentFrom(w.listens, PROGRESS_LEFT) && CapturedAfter(w, issued)
    && r.Success? && ConsumerIs(w, E.Fresh(enrollment, issued), uid, root, s.consumed)
    && var t := Fed(E.Fresh(enrollment, issued), s.consumed);
       E.Inv(t) && E.IsNorm(t, root)
  }

  ghost predicate CanFinish(enrollment: E.EnrollmentConfig, challenge: L.ChallengeConfig, issued: u64, uid: nat)
    requires issued + enrollment.duration <= MAX_U64
  {
    exists w: World<E.TemplateRecord>, root: real :: Finishes(w, enrollment, challenge, issued, uid, root)
  }

  // The time of the earliest pair that can pass a challenge begun with the first pair after `issued`.
  function EarliestPass(challenge: L.ChallengeConfig, issued: u64): (t: nat) {
    issued + 2 + challenge.minimumActionDurationMicros + challenge.recoveryConsecutive
  }

  // At most 14 samples, a challenge that can be passed at all, and time for both.
  predicate Feasible(enrollment: E.EnrollmentConfig, challenge: L.ChallengeConfig, issued: u64) {
    && enrollment.minimumSamples <= 14
    && challenge.minimumActionDurationMicros + challenge.recoveryConsecutive + 1 <= challenge.durationMicros
    && issued + 1 + challenge.durationMicros <= MAX_U64
    && EarliestPass(challenge, issued) + E.Offset(enrollment.minimumInterval, Max(enrollment.minimumSamples - 1, 0))
       < issued + enrollment.duration
  }

  lemma {:induction false} SpacingAddsUp(s: E.SessionState, k: nat)
    requires E.Inv(s) && k < |s.times|
    ensures s.times[0] + E.Offset(s.config.minimumInterval, k) <= s.times[k]
    decreases k
  {
    if k != 0 {
      SpacingAddsUp(s, k - 1);
      E.OneMoreInterval(s.config.minimumInterval, k - 1);
      hide E.Offset;
      hide E.OneModel;
    }
  }

  // A template comes of a session that is ready, so the samples were seen and the time was there.
  lemma FinishedSessionsWereReady(w: World<E.TemplateRecord>, enrollment: E.EnrollmentConfig,
                                  challenge: L.ChallengeConfig, issued: u64, uid: nat, root: real)
    requires E.ValidConfig(enrollment) && issued + enrollment.duration <= MAX_U64
    requires Finishes(w, enrollment, challenge, issued, uid, root)
    ensures var s := Session(w, 0).0;
            && s.consumed != [] && E.Ready(Fed(E.Fresh(enrollment, issued), s.consumed))
  {
    hide Facts;
    hide E.Inv;
    hide E.Refusal;
    hide E.Template;
    hide E.SpansPose;
    hide E.ValidDigest;
    hide E.ValidConfig;
    SessionsKeepTheFacts(w, 0);
    var (s, r) := Session(w, 0);
    var s0 := E.Fresh(enrollment, issued);
    assert s.consumed[..|s.consumed|] == s.consumed;
    assert w.consume(s.consumed) == Success(Break(r.value));
    assert Answer(s0, uid, s.consumed, root) == Success(Break(r.value));
    hide Session;
    hide Finishes;
  }

  lemma FinishingNeedsUpdates(w: World<E.TemplateRecord>, enrollment: E.EnrollmentConfig,
                              challenge: L.ChallengeConfig, issued: u64, uid: nat, root: real)
    requires E.ValidConfig(enrollment) && issued + enrollment.duration <= MAX_U64
    requires Finishes(w, enrollment, challenge, issued, uid, root)
    ensures 2 * |Session(w, 0).0.consumed| + 2 <= PROGRESS_LEFT
  {
    FinishedSessionsWereReady(w, enrollment, challenge, issued, uid, root);
    ProgressBudgetLimitsObservations(w, 0, PROGRESS_LEFT);
    hide Session;
    hide E.Ready;
  }

  // The consumer sees nothing before the challenge could have passed.
  lemma ConsumingComesLate(w: World<E.TemplateRecord>, s: LoopState, issued: u64)
    requires Facts(w, s) && s.consumed != [] && CapturedAfter(w, issued)
    ensures EarliestPass(w.config, issued) <= s.consumed[0].completedAt
    ensures w.config.minimumActionDurationMicros + w.config.recoveryConsecutive + 1 <= w.config.durationMicros
    ensures issued + 1 + w.config.durationMicros <= MAX_U64
    ensures forall o :: o in s.consumed ==> s.consumed[0].completedAt <= o.completedAt
  {
    var c := s.challenge.value;
    assert issued < c.issued;
    L.PassingTakesTime(w.config, c.issued, c.trace);
    assert LastTime(c) <= c.issued + w.config.durationMicros;
    hide L.TracePasses;
    hide L.Admissible;
    hide Counted;
    forall o | o in s.consumed ensures s.consumed[0].completedAt <= o.completedAt {
      var j :| 0 <= j < |s.consumed| && s.consumed[j] == o;
    }
  }

  lemma SamplesTakeTime(t: E.SessionState, first: nat)
    requires E.Inv(t) && E.Ready(t) && forall k :: 0 <= k < |t.times| ==> first <= t.times[k]
    ensures t.config.minimumSamples <= |t.samples|
    ensures first + E.Offset(t.config.minimumInterval, t.config.minimumSamples - 1) < t.issued + t.config.duration
  {
    SpacingAddsUp(t, t.config.minimumSamples - 1);
    hide E.Offset;
    hide E.OneModel;
  }

  lemma FinishedSessionsAreSound(w: World<E.TemplateRecord>, enrollment: E.EnrollmentConfig,
                                 challenge: L.ChallengeConfig, issued: u64, uid: nat, root: real)
    requires E.ValidConfig(enrollment) && issued + enrollment.duration <= MAX_U64
    requires Finishes(w, enrollment, challenge, issued, uid, root)
    ensures Facts(w, Session(w, 0).0) && CapturedAfter(w, issued) && w.config == challenge
  {
    SessionsKeepTheFacts(w, 0);
    hide Session;
    hide Facts;
  }

  lemma FeasibleBySamples(w: World<E.TemplateRecord>, enrollment: E.EnrollmentConfig, issued: u64,
                          consumed: seq<DerivedObservation>, t: E.SessionState)
    requires E.ValidConfig(enrollment) && issued + enrollment.duration <= MAX_U64
    requires consumed != [] && 2 * |consumed| + 2 <= PROGRESS_LEFT
    requires EarliestPass(w.config, issued) <= consumed[0].completedAt
    requires w.config.minimumActionDurationMicros + w.config.recoveryConsecutive + 1 <= w.config.durationMicros
    requires issued + 1 + w.config.durationMicros <= MAX_U64
    requires E.Inv(t) && E.Ready(t) && t.config == enrollment && t.issued == issued && |t.samples| <= |consumed|
    requires forall k :: 0 <= k < |t.times| ==> consumed[0].completedAt <= t.times[k]
    ensures Feasible(enrollment, w.config, issued)
  {
    hide E.Inv;
    hide E.Ready;
    SamplesTakeTime(t, consumed[0].completedAt);
  }

  lemma SamplesAreLate(t: E.SessionState, consumed: seq<DerivedObservation>)
    requires E.Inv(t) && consumed != []
    requires forall o :: o in consumed ==> consumed[0].completedAt <= o.completedAt
    requires forall k :: 0 <= k < |t.samples| ==> SampleObserved(t, k, consumed)
    ensures forall k :: 0 <= k < |t.times| ==> consumed[0].completedAt <= t.times[k]
  {
    forall k | 0 <= k < |t.times| ensures consumed[0].completedAt <= t.times[k] {
      assert SampleObserved(t, k, consumed);
      var o :| o in consumed && SampleIs(t, k, o);
    }
  }

  // An enrollment that finishes is feasible.
  lemma FinishingIsFeasible(w: World<E.TemplateRecord>, enrollment: E.EnrollmentConfig,
                            challenge: L.ChallengeConfig, issued: u64, uid: nat, root: real)
    requires E.ValidConfig(enrollment) && issued + enrollment.duration <= MAX_U64
    requires Finishes(w, enrollment, challenge, issued, uid, root)
    ensures Feasible(enrollment, challenge, issued)
  {
    hide *;
    FinishedSessionsWereReady(w, enrollment, challenge, issued, uid, root);
    FinishingNeedsUpdates(w, enrollment, challenge, issued, uid, root);
    FinishedSessionsAreSound(w, enrollment, challenge, issued, uid, root);
    var s := Session(w, 0).0;
    ConsumingComesLate(w, s, issued);
    SamplesWereObserved(enrollment, issued, s.consumed);
    SamplesAreLate(Fed(E.Fresh(enrollment, issued), s.consumed), s.consumed);
    FeasibleBySamples(w, enrollment, issued, s.consumed, Fed(E.Fresh(enrollment, issued), s.consumed));
  }
}
