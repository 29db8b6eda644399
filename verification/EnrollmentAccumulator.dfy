// Feeding derived observations into an enrollment session until it can finish.
module EnrollmentAccumulators {
  import opened Wrappers
  import opened Enrollment
  import opened ObservationTypes

  // The evidence the session is shown; the challenge has always passed by then.
  function EvidenceOf(o: DerivedObservation): (e: Observation) {
    Observation(o.embedding, o.quality, o.pad.Success? && o.pad.value, true, o.completedAt, o.yaw)
  }

  // The observation is too close to the last accepted one to be offered at all.
  predicate TooSoon(last: Option<u64>, interval: u64, o: DerivedObservation) {
    last.Some? && SaturatingSub(o.completedAt, last.value) < interval
  }

  // A session the loop may still feed.
  ghost predicate Feedable(s: SessionState) {
    Inv(s) && !s.failed && |s.samples| < s.config.maximumSamples && !Ready(s)
  }

  // `root` is the norm of the aggregate this observation completes, if it completes one.
  ghost predicate RootFor(s: SessionState, o: Observation, root: real) {
    Inv(s) && Refusal(s, o).None? && Ready(After(s, o)) ==> Inv(After(s, o)) && IsNorm(After(s, o), root)
  }

  // The session after one observation: one that comes too soon, or has no verdict, is not shown to it.
  ghost function Offered(s: SessionState, o: DerivedObservation): (t: SessionState) {
    if TooSoon(Last(s.times), s.config.minimumInterval, o) || o.pad.Failure? then s else After(s, EvidenceOf(o))
  }

  // What the loop is told: go on, stop with a template, or fail.
  ghost function Decision(s: SessionState, uid: nat, o: DerivedObservation, root: real)
    : (r: Result<Flow<TemplateRecord>, ObservationFailure>)
    requires Inv(s)
  {
    if TooSoon(Last(s.times), s.config.minimumInterval, o) then Success(Continue)
    else if o.pad.Failure? then Failure(Inference)
    else
      match Refusal(s, EvidenceOf(o))
      case Some(e) => if e.InsufficientQuality? then Success(Continue) else Failure(InvalidEvidence)
      case None =>
        ObservationKeepsInv(s, EvidenceOf(o));
        var t := After(s, EvidenceOf(o));
        // Only aggregation and the record's digest can still fail.
        if Ready(t) then
          if Degenerate(t, root) || !ValidDigest(t.digest.value) then Failure(InvalidEvidence)
          else Success(Break(Template(t, uid, root)))
        else if |t.samples| >= t.config.maximumSamples then Failure(AttemptLimit)
        else Success(Continue)
  }

  // The only refusals the loop can meet: nothing out of order, too early or beyond the capacity.
  lemma ReachableRefusals(s: SessionState, o: DerivedObservation)
    requires Feedable(s) && !TooSoon(Last(s.times), s.config.minimumInterval, o)
    ensures Refusal(s, EvidenceOf(o)) !in {Some(SampleLimitReached), Some(SessionFailed)}
    ensures Refusal(s, EvidenceOf(o)) == Some(StaleObservation) ==>
              o.completedAt <= s.issued || o.completedAt >= s.deadline
  {
    hide Inconsistent;
    hide Ready;
    hide OneModel;
  }

  // Inside the window an observation is skipped exactly when the session would find it stale, and fail.
  lemma SkippingIsExact(s: SessionState, o: DerivedObservation)
    requires Inv(s) && s.issued < o.completedAt < s.deadline
    ensures TooSoon(Last(s.times), s.config.minimumInterval, o) <==> Stale(s, o.completedAt)
  {
  }

  // The loop is asked for more exactly as long as the session it leaves can still be fed; and otherwise
  // it is told of a template, of a full session, of a missing verdict, or of invalid evidence.
  lemma DecisionsMean(s: SessionState, uid: nat, o: DerivedObservation, root: real)
    requires Feedable(s)
    ensures
      var r, t := Decision(s, uid, o, root), Offered(s, o);
      var shown := !TooSoon(Last(s.times), s.config.minimumInterval, o);
      && (r == Failure(Inference) <==> shown && o.pad.Failure?)
      && (r == Success(Continue) <==> Feedable(t) && !(shown && o.pad.Failure?))
      && (r == Failure(AttemptLimit) <==> !t.failed && !Ready(t) && |t.samples| >= t.config.maximumSamples)
      && (r.Success? && r.value.Break? <==>
            Ready(t) && Inv(t) && !Degenerate(t, root) && ValidDigest(t.digest.value))
      && (r.Success? && r.value.Break? ==> Inv(t) && root != 0.0 && r.value.value == Template(t, uid, root))
      && (r == Failure(InvalidEvidence) <==>
            t.failed || (Ready(t) && Inv(t) && (Degenerate(t, root) || !ValidDigest(t.digest.value))))
  {
    if !TooSoon(Last(s.times), s.config.minimumInterval, o) && o.pad.Success? {
      ObservationKeepsInv(s, EvidenceOf(o));
      ReachableRefusals(s, o);
      if Refusal(s, EvidenceOf(o)).None? { AcceptedGrows(s, EvidenceOf(o)); }
    }
    hide Inconsistent;
    hide Degenerate;
    hide ValidDigest;
    hide Template;
    hide SpansPose;
    hide OneModel;
    hide Spaced;
  }

  lemma AcceptedGrows(s: SessionState, o: Observation)
    requires Inv(s) && Refusal(s, o).None? && !s.failed
    ensures var t := After(s, o); !t.failed && |t.samples| == |s.samples| + 1 && t.config == s.config
  {
    hide Inconsistent;
  }

  // An observation that the presentation-attack policy rejects, or has no verdict on, adds no sample
  // and completes no template.
  lemma AttacksAreNotEnrolled(s: SessionState, uid: nat, o: DerivedObservation, root: real)
    requires Inv(s) && o.pad != Success(true)
    ensures Offered(s, o).samples == s.samples
    ensures var r := Decision(s, uid, o, root); r.Success? ==> r.value.Continue?
  {
    assert o.pad.Success? ==> Refusal(s, EvidenceOf(o)).Some? by { hide Inconsistent; }
    hide Refusal;
    hide Inv;
    hide Ready;
    hide Degenerate;
    hide ValidDigest;
    hide Template;
  }

  // An observation that adds a sample was live and sharp, and adds its own measurements.
  lemma AcceptedIsLive(s: SessionState, o: DerivedObservation)
    requires Inv(s) && Offered(s, o).samples != s.samples
    ensures o.pad == Success(true) && o.quality >= s.config.minimumQuality
    ensures Offered(s, o).samples == s.samples + [o.embedding.values]
    ensures Offered(s, o).qualities == s.qualities + [o.quality] && Offered(s, o).yaws == s.yaws + [o.yaw]
    ensures Offered(s, o).times == s.times + [o.completedAt]
  {
    hide Inconsistent;
  }

  class EnrollmentAccumulator {
    var session: Option<EnrollmentSession>
    const minimumInterval: u64
    var lastAccepted: Option<u64>

    // The loop's invariant: the accumulator's own clock is the session's.
    ghost predicate Open()
      reads this, if session.Some? then {session.value} else {}
    {
      && session.Some? && session.value.Valid()
      && Feedable(session.value.State())
      && lastAccepted == session.value.lastTimestamp
      && minimumInterval == session.value.config.minimumInterval
    }

    constructor (session: EnrollmentSession)
      requires session.Valid() && session.samples == [] && !session.terminalFailure
      ensures Open() && this.session == Some(session)
    {
      this.session, minimumInterval, lastAccepted := Some(session), session.config.minimumInterval, None;
    }

    method Observe(o: DerivedObservation, root: real) returns (r: Result<Flow<TemplateRecord>, ObservationFailure>)
      requires Open() && RootFor(session.value.State(), EvidenceOf(o), root)
      modifies this, session.value
      ensures r == Decision(old(session.value.State()), old(session.value.uid), o, root)
      ensures old(session.value).State() == Offered(old(session.value.State()), o)
      // A presentation attack is never enrolled.
      ensures o.pad != Success(true) ==>
                && old(session.value).samples == old(session.value.samples)
                && (r.Success? ==> r.value.Continue?)
      // As long as the loop goes on, the session stays open and the two clocks agree.
      ensures r == Success(Continue) ==> Open() && session == old(session)
      ensures r != Failure(Internal)
    {
      assert TooSoon(lastAccepted, minimumInterval, o) ==
             TooSoon(Last(session.value.State().times), minimumInterval, o);
      if lastAccepted.Some? && SaturatingSub(o.completedAt, lastAccepted.value) < minimumInterval {
        return Success(Continue);
      }
      if o.pad.Failure? { return Failure(Inference); }
      if session.None? { return Failure(Internal); }
      var active := session.value;
      ghost var before := active.State();
      ReachableRefusals(before, o);
      if o.pad != Success(true) { AttacksAreNotEnrolled(before, active.uid, o, root); }
      hide Inconsistent;
      hide IsNorm;
      hide Degenerate;
      hide OneModel;
      hide Template;
      var observed := active.Observe(EvidenceOf(o));
      if observed.Failure? {
        return if observed.error.InsufficientQuality? then Success(Continue) else Failure(InvalidEvidence);
      }
      lastAccepted := Some(o.completedAt);
      var ready := active.ReadyToFinish();
      if ready {
        session := None;
        var finished := active.Finish(o.completedAt, root);
        return if finished.Success? then Success(Break(finished.value)) else Failure(InvalidEvidence);
      }
      if active.IsFull() { return Failure(AttemptLimit); }
      r := Success(Continue);
    }
  }
}
