// A world in which a feasible enrollment does end in a template, and with it the exact condition.
module EnrollmentWitness {
  import opened Wrappers
  import opened Arithmetic
  import opened Vectors
  import opened Aggregation
  import opened Simplex
  import opened Protocol
  import opened ObservationTypes
  import opened CaptureLoop
  import opened CaptureLaws
  import opened EnrollmentRuns
  import L = Liveness
  import E = Enrollment
  import A = EnrollmentAccumulators

  // An enrollment to be finished: its policy, the challenge before it, and when it was issued.
  datatype Plan = Plan(enrollment: E.EnrollmentConfig, challenge: L.ChallengeConfig, issued: u64) {
    predicate Valid() {
      && E.ValidConfig(enrollment) && challenge.Valid() && issued + enrollment.duration <= MAX_U64
      && Feasible(enrollment, challenge, issued)
    }

    // How many pairs the challenge takes, and how many samples the enrollment.
    function Steps(): (n: nat) { 1 + challenge.actionConsecutive + challenge.recoveryConsecutive }

    function Samples(): (n: nat) { enrollment.minimumSamples }

    function Length(): (n: nat)
      requires Valid()
    {
      Steps() + Samples() - 1
    }
  }

  // The quickest challenge, and then one sample at each minimum interval.
  function TimeAt(p: Plan, k: nat): (t: u64)
    requires p.Valid() && k < p.Length()
    ensures p.issued < t < p.issued + p.enrollment.duration
  {
    E.OffsetGrows(p.enrollment.minimumInterval, 0, p.Samples() - 1);
    if k < p.Steps() then L.QuickestSample(p.challenge, p.issued + 1, k).timestamp
    else
      E.OffsetGrows(p.enrollment.minimumInterval, k - (p.Steps() - 1), p.Samples() - 1);
      EarliestPass(p.challenge, p.issued) + E.Offset(p.enrollment.minimumInterval, k - (p.Steps() - 1))
  }

  lemma TimesAscend(p: Plan, i: nat, j: nat)
    requires p.Valid() && i < j < p.Length()
    ensures TimeAt(p, i) < TimeAt(p, j)
  {
    var n := p.Steps() - 1;
    if n < i {
      E.OneMoreInterval(p.enrollment.minimumInterval, i - n);
      E.OffsetGrows(p.enrollment.minimumInterval, i - n + 1, j - n);
    } else if n < j {
      E.OneMoreInterval(p.enrollment.minimumInterval, 0);
      E.OffsetGrows(p.enrollment.minimumInterval, 1, j - n);
    }
    hide E.Offset;
  }

  function PairOf(p: Plan, k: nat): (c: CapturedPair)
    requires p.Valid() && k < p.Length()
  {
    CapturedPair(k, k, TimeAt(p, k), TimeAt(p, k))
  }

  // The samples' yaws span sixty degrees, and the first of them faces the camera.
  function Yaw(i: nat): (y: real) {
    if i == 0 then 0.0 else if i == 1 then -30.0 else 30.0
  }

  // Open eyes, a blink as long as the action takes, open eyes again, and then turning.
  function FaceOf(p: Plan, k: nat): (f: FaceOutcome) {
    if 1 <= k <= p.challenge.actionConsecutive then Found(0.0, 0.0)
    else if k < p.Steps() then Found(1.0, 0.0)
    else Found(1.0, Yaw(k - (p.Steps() - 1)))
  }

  function Digest(): (d: string) { seq(64, _ => 'a') }

  // All samples are the same unit vector.
  function EmbeddingOf(p: Plan, i: nat): (e: E.Embedding)
    requires p.Valid() && i < p.Samples()
  {
    E.Embedding(Digest(), Vertices(p.Samples(), 0.0, 1.0)[i])
  }

  function DerivationOf(p: Plan, i: nat): (d: Derivation)
    requires p.Valid() && i < p.Samples()
  {
    Derivation(EmbeddingOf(p, i), 1.0, Success(true))
  }

  ghost function WorldOf(p: Plan, uid: nat): (w: World<E.TemplateRecord>)
    requires p.Valid()
  {
    World(p.challenge, Some(L.Blink),
          (k: nat) => if k < p.Length() then Some(PairOf(p, k)) else None,
          (k: nat) => if k == 0 then RetryPosition else FaceOf(p, k - 1),
          (k: nat) => if k < p.Samples() then Success(DerivationOf(p, k)) else Failure(Internal),
          (k: nat) => if k < PROGRESS_LEFT then None else Some(Internal),
          observations => Answer(E.Fresh(p.enrollment, p.issued), uid, observations, p.Samples() as real),
          _ => false)
  }

  // ---------------------------------------------------------------- the enrollment session

  function ObservationOf(p: Plan, i: nat): (o: DerivedObservation)
    requires p.Valid() && i < p.Samples()
  {
    DerivedFrom(DerivationOf(p, i), PairOf(p, p.Steps() - 1 + i), Yaw(i))
  }

  function Observations(p: Plan, n: nat): (s: seq<DerivedObservation>)
    requires p.Valid() && n <= p.Samples()
    ensures |s| == n
  {
    seq(n, i requires 0 <= i < n => ObservationOf(p, i))
  }

  ghost function Enrolled(p: Plan): (s: E.SessionState)
    requires p.Valid()
  {
    var m := p.Samples();
    E.SessionState(p.enrollment, p.issued, p.issued + p.enrollment.duration, Some(Digest()), Some(DIMENSION),
                   Vertices(m, 0.0, 1.0), Equal(m, 1.0), seq(m, (i: nat) => Yaw(i)),
                   seq<u64>(m, i requires 0 <= i < m => TimeAt(p, p.Steps() - 1 + i)), false)
  }

  lemma SampleTimes(p: Plan, i: nat)
    requires p.Valid() && i < p.Samples()
    ensures TimeAt(p, p.Steps() - 1 + i) ==
            EarliestPass(p.challenge, p.issued) + E.Offset(p.enrollment.minimumInterval, i)
  {
  }

  lemma EnrolledIsSpaced(p: Plan)
    requires p.Valid()
    ensures E.Spaced(Enrolled(p))
  {
    hide Vertices;
    hide E.Offset;
    var times := Enrolled(p).times;
    forall i | 0 <= i < |times| ensures p.issued < times[i] < p.issued + p.enrollment.duration {
      assert times[i] == TimeAt(p, p.Steps() - 1 + i);
    }
    forall i, j | 0 <= i < j < |times| ensures times[i] + p.enrollment.minimumInterval <= times[j] {
      SamplesAreSpaced(p, i, j);
    }
  }

  lemma SamplesAreSpaced(p: Plan, i: nat, j: nat)
    requires p.Valid() && i < j < p.Samples()
    ensures TimeAt(p, p.Steps() - 1 + i) + p.enrollment.minimumInterval <= TimeAt(p, p.Steps() - 1 + j)
  {
    SampleTimes(p, i);
    SampleTimes(p, j);
    E.OneMoreInterval(p.enrollment.minimumInterval, i);
    E.OffsetGrows(p.enrollment.minimumInterval, i + 1, j);
    hide TimeAt;
    hide E.Offset;
  }

  lemma EnrolledIsConsistent(p: Plan)
    requires p.Valid()
    ensures E.OneModel(Enrolled(p))
  {
    var m := p.Samples();
    var f := p.enrollment.minimumSimilarity;
    ProductIsNotNegative(m as real - 1.0, 2.0 - 2.0 * f);
    assert Product(m as real - 1.0, 2.0 - 2.0 * f) == m as real - 1.0 - Product(m as real - 1.0, 2.0 * f - 1.0);
    SimplexIsConsistent(m, 0.0, 1.0, f);
    hide Vertices;
    hide Consistent;
    hide TimeAt;
  }

  lemma EnrolledIsReady(p: Plan)
    requires p.Valid()
    ensures E.Inv(Enrolled(p)) && E.Ready(Enrolled(p))
  {
    EnrolledIsSpaced(p);
    EnrolledIsConsistent(p);
    var s := Enrolled(p);
    assert s.yaws[2] - s.yaws[1] >= p.enrollment.minimumYawSpan;
    hide E.OneModel;
    hide E.Spaced;
    hide Vertices;
    hide TimeAt;
  }

  lemma EnrolledAggregates(p: Plan)
    requires p.Valid() && E.Inv(Enrolled(p))
    ensures E.IsNorm(Enrolled(p), p.Samples() as real) && !E.Degenerate(Enrolled(p), p.Samples() as real)
    ensures E.ValidDigest(Enrolled(p).digest.value)
  {
    var n := p.Samples() as real;
    VerticesNorm(p.Samples(), 0.0, 1.0, 1.0);
    SumsOfEqual(Equal(p.Samples(), 1.0), 1.0);
    assert Product(Product(n, Square(1.0)), Product(n, Square(1.0))) == Product(n, n) && Product(n, 1.0) == n;
    hide Vertices;
    hide Combined;
    hide NormSquared;
    hide TimeAt;
    hide E.Inv;
    hide TotalWeight;
    hide Product;
  }

  lemma EvidenceIsRetained(p: Plan, i: nat)
    requires p.Valid() && E.Inv(Enrolled(p)) && i < p.Samples()
    ensures A.EvidenceOf(ObservationOf(p, i)) == E.Retained(Enrolled(p))[i]
  {
    hide E.Inv;
    hide Vertices;
    hide TimeAt;
    assert ObservationOf(p, i).completedAt == TimeAt(p, p.Steps() - 1 + i);
  }

  // No observation of the plan comes too soon.
  lemma NeverTooSoon(p: Plan, k: nat)
    requires p.Valid() && E.Inv(Enrolled(p)) && k < p.Samples()
    ensures !A.TooSoon(E.Last(E.Earlier(Enrolled(p), k).times), p.enrollment.minimumInterval, ObservationOf(p, k))
  {
    hide E.Inv;
    hide Vertices;
    hide TimeAt;
    if k != 0 { SamplesAreSpaced(p, k - 1, k); }
  }

  lemma OfferingMovesOn(p: Plan, k: nat)
    requires p.Valid() && E.Inv(Enrolled(p)) && k < p.Samples()
    ensures A.Offered(E.Earlier(Enrolled(p), k), ObservationOf(p, k)) == E.Earlier(Enrolled(p), k + 1)
  {
    EvidenceIsRetained(p, k);
    NeverTooSoon(p, k);
    E.NextIsAccepted(Enrolled(p), k);
    assert E.Earlier(Enrolled(p), k).config == p.enrollment && ObservationOf(p, k).pad.Success?;
    hide E.Inv;
    hide E.Earlier;
    hide E.After;
    hide E.Refusal;
    hide A.TooSoon;
    hide A.EvidenceOf;
    hide E.Retained;
    hide ObservationOf;
    hide Enrolled;
  }

  // Feeding the plan's observations rebuilds the session, sample by sample.
  lemma {:induction false} FedIsEarlier(p: Plan, k: nat)
    requires p.Valid() && E.Inv(Enrolled(p)) && k <= p.Samples()
    ensures Fed(E.Fresh(p.enrollment, p.issued), Observations(p, k)) == E.Earlier(Enrolled(p), k)
    decreases k
  {
    hide ObservationOf;
    hide Vertices;
    hide TimeAt;
    if k == 0 {
      NothingFed(p);
    } else {
      FedIsEarlier(p, k - 1);
      assert Observations(p, k)[..k - 1] == Observations(p, k - 1);
      OfferingMovesOn(p, k - 1);
      hide E.Inv;
      hide E.Earlier;
      hide A.Offered;
      hide Enrolled;
    }
  }

  lemma NothingFed(p: Plan)
    requires p.Valid() && E.Inv(Enrolled(p))
    ensures E.Fresh(p.enrollment, p.issued) == E.Earlier(Enrolled(p), 0)
  {
    hide Vertices;
    hide TimeAt;
  }

  // The consumer asks for more until the last observation completes the template.
  lemma AnswerTo(p: Plan, uid: nat, k: nat)
    requires p.Valid() && E.Inv(Enrolled(p)) && E.Ready(Enrolled(p)) && k < p.Samples()
    ensures var r := Answer(E.Fresh(p.enrollment, p.issued), uid, Observations(p, k + 1), p.Samples() as real);
            if k + 1 < p.Samples() then r == Success(Continue) else r.Success? && r.value.Break?
  {
    hide E.Degenerate;
    hide E.ValidDigest;
    hide E.Template;
    hide Fed;
    hide E.Inconsistent;
    var s, observations := Enrolled(p), Observations(p, k + 1);
    FedIsEarlier(p, k);
    assert observations[..k] == Observations(p, k);
    EvidenceIsRetained(p, k);
    NeverTooSoon(p, k);
    E.NextIsAccepted(s, k);
    EarlierIsInv(s, k);
    EnrolledAggregates(p);
    WholeIsLast(s);
    assert |E.Earlier(s, k + 1).samples| == k + 1;
    hide E.Inv;
    hide E.Earlier;
    hide E.After;
    hide E.Refusal;
    hide A.TooSoon;
    hide A.EvidenceOf;
    hide E.Retained;
    hide E.SpansPose;
  }

  lemma EarlierIsInv(s: E.SessionState, k: nat)
    requires E.Inv(s) && !s.failed && k <= |s.samples|
    ensures E.Inv(E.Earlier(s, k))
  {
    E.EarlierIsReachable(s, k);
    E.RunKeepsInv(E.Fresh(s.config, s.issued), E.Retained(s)[..k]);
  }

  lemma WholeIsLast(s: E.SessionState)
    requires E.Inv(s) && s.samples != []
    ensures E.Earlier(s, |s.samples|) == s
  {
  }

  // ---------------------------------------------------------------- the challenge

  // The first `k` samples of the quickest passing trace.
  function Quick(p: Plan, k: nat): (trace: seq<L.Sample>)
    requires p.Valid() && k <= p.Steps()
    ensures |trace| == k
  {
    seq(k, i requires 0 <= i < k => L.QuickestSample(p.challenge, p.issued + 1, i))
  }

  // Where the machine stands after them.
  function MachineAfter(p: Plan, k: nat): (m: L.Machine)
    requires p.Valid() && k <= p.Steps()
  {
    var a := p.challenge.actionConsecutive;
    if k == 0 then L.NEW_MACHINE
    else if k <= a then L.Machine(L.Action, k - 1, if k == 1 then None else Some(p.issued + 2), 0)
    else L.Machine(if k < p.Steps() then L.Recovery else L.Passed, a, Some(p.issued + 2), k - 1 - a)
  }

  lemma {:induction false} QuickFolds(p: Plan, k: nat)
    requires p.Valid() && k <= p.Steps()
    ensures L.Fold(p.challenge, Quick(p, k)) == MachineAfter(p, k)
    decreases k
  {
    if k != 0 {
      QuickFolds(p, k - 1);
      assert Quick(p, k)[..k - 1] == Quick(p, k - 1);
      hide Feasible;
    }
  }

  function EyesOf(p: Plan, k: nat): (eyes: real) {
    if 1 <= k <= p.challenge.actionConsecutive then 0.0 else 1.0
  }

  // What the challenge is shown as its `k`-th pair.
  function EvidenceAt(p: Plan, k: nat): (o: L.ChallengeObservation)
    requires p.Valid() && k < p.Steps()
  {
    EvidenceOf(PairOf(p, k), EyesOf(p, k), 0.0)
  }

  lemma EvidenceSample(p: Plan, k: nat)
    requires p.Valid() && k < p.Steps()
    ensures L.SampleOf(p.challenge, L.Blink, EvidenceAt(p, k)) == L.QuickestSample(p.challenge, p.issued + 1, k)
  {
    hide Feasible;
  }

  function ChallengeAfter(p: Plan, k: nat): (c: L.ChallengeState)
    requires p.Valid() && k <= p.Steps()
  {
    L.ChallengeState(p.challenge, L.Blink, p.issued + 1, k, if k == 0 then None else Some((k - 1, k - 1)), Quick(p, k))
  }

  // The challenge accepts each of them.
  lemma StepAccepted(p: Plan, k: nat)
    requires p.Valid() && k < p.Steps()
    ensures L.Refusal(ChallengeAfter(p, k), EvidenceAt(p, k), false).None?
    ensures L.After(ChallengeAfter(p, k), EvidenceAt(p, k), false) == ChallengeAfter(p, k + 1)
  {
    QuickFolds(p, k);
    EvidenceSample(p, k);
    assert L.Timestamp(EvidenceAt(p, k)) == L.QuickestSample(p.challenge, p.issued + 1, k).timestamp;
    assert Quick(p, k + 1) == Quick(p, k) + [L.QuickestSample(p.challenge, p.issued + 1, k)];
    hide L.Fold;
    hide TimeAt;
    hide Feasible;
    hide L.SampleOf;
  }

  // ---------------------------------------------------------------- rounds that go well

  lemma DerivedWhen<T>(w: World<T>, s: LoopState, pair: CapturedPair, yaw: real, next: seq<DerivedObservation>)
    requires w.listens(s.announced).None? && w.derivations(|s.consumed|).Success?
    requires next == s.consumed + [DerivedFrom(w.derivations(|s.consumed|).value, pair, yaw)]
    requires w.consume(next) == Success(Continue) ==>
               w.listens(s.announced + 1).None? && |next| < MAX_DERIVED_OBSERVATION_ATTEMPTS
    ensures var (t, r) := Derived(w, s, pair, yaw);
            && t == s.(consumed := next, announced := t.announced, emitted := t.emitted)
            && (w.consume(next) == Success(Continue) ==> r.None? && t.announced == s.announced + 2)
            && (w.consume(next).Success? && w.consume(next).value.Break? ==> r.Some? && r.value.Success?)
  {
  }

  lemma ShownWhen<T>(w: World<T>, s: LoopState, t: LoopState, pair: CapturedPair, eyeOpenness: real, yaw: real)
    requires Captured(w, s) == (t, Success(pair)) && w.faces(t.captures) == Found(eyeOpenness, yaw)
    ensures Round(w, s) == Located(w, t, pair, eyeOpenness, yaw)
  {
    hide Captured;
    hide Located;
  }

  lemma LocatedWhen<T>(w: World<T>, s: LoopState, t: LoopState, pair: CapturedPair, eyeOpenness: real, yaw: real,
                       progress: L.ChallengeProgress)
    requires !s.Passed() && Advanced(w, s, pair, eyeOpenness, yaw) == (t, Success(progress))
    requires progress.ChallengePassed? || t.lastProgress == Some(PublicProgress(progress))
             || w.listens(t.announced).None?
    ensures var (u, r) := Located(w, s, pair, eyeOpenness, yaw);
            if progress.ChallengePassed? then (u, r) == Derived(w, t, pair, yaw)
            else
              && r.None?
              && u == t.(lastProgress := Some(PublicProgress(progress)), emitted := u.emitted,
                         announced := if t.lastProgress == Some(PublicProgress(progress)) then t.announced
                                      else t.announced + 1)
  {
    hide Advanced;
    hide Derived;
    hide L.Fold;
  }

  // ---------------------------------------------------------------- the rounds

  function PreviousOf(p: Plan, k: nat): (i: Option<FreshPairIdentity>)
    requires p.Valid() && k <= p.Length()
  {
    if k == 0 then None else Some(IdentityOf(PairOf(p, k - 1)))
  }

  lemma PairIsCaptured(p: Plan, uid: nat, k: nat, s: LoopState)
    requires p.Valid() && k < p.Length() && s.captures == k && s.previous == PreviousOf(p, k)
    ensures Captured(WorldOf(p, uid), s) ==
            (s.(captures := k + 1, previous := PreviousOf(p, k + 1), polls := s.polls + 1), Success(PairOf(p, k)))
  {
    if k != 0 { TimesAscend(p, k - 1, k); }
    assert p.Length() <= MaximumCaptures(p.challenge);
    hide TimeAt;
    hide Answer;
    hide Feasible;
  }

  function AnnouncedAfter(p: Plan, k: nat): (n: nat) {
    1 + (if 1 <= k then 1 else 0) + if p.challenge.actionConsecutive < k then 1 else 0
  }

  function LastAfter(p: Plan, k: nat): (code: Option<ProgressCode>) {
    if k == 0 then None
    else if k <= p.challenge.actionConsecutive then Some(ProgressCode.Blink)
    else Some(ReturnToCenter)
  }

  // The loop after `k` pairs of a challenge that has not passed yet.
  predicate Follows(p: Plan, k: nat, s: LoopState)
    requires p.Valid() && k < p.Steps()
  {
    && s.captures == k && s.previous == PreviousOf(p, k) && s.consumed == []
    && s.challenge == (if k == 0 then None else Some(ChallengeAfter(p, k)))
    && s.announced == AnnouncedAfter(p, k) && s.lastProgress == LastAfter(p, k)
  }

  lemma PairAdvances(p: Plan, uid: nat, k: nat, s: LoopState)
    requires p.Valid() && k < p.Steps() && s.challenge == (if k == 0 then None else Some(ChallengeAfter(p, k)))
    ensures Advanced(WorldOf(p, uid), s, PairOf(p, k), EyesOf(p, k), 0.0) ==
            (s.(challenge := Some(ChallengeAfter(p, k + 1)), refusal := None, skipped := 0, polls := s.polls + 1),
             Success(L.ProgressOf(MachineAfter(p, k + 1).phase, L.Blink)))
  {
    StepAccepted(p, k);
    QuickFolds(p, k + 1);
    assert k == 0 ==> L.Begun(p.challenge, TimeAt(p, 0), Some(L.Blink)) == Success(ChallengeAfter(p, 0)) by {
      hide Answer;
      assert Quick(p, 0) == [];
    }
    hide L.Begun;
    hide L.Refusal;
    hide L.After;
    hide L.Fold;
    hide TimeAt;
    hide Answer;
    hide MachineAfter;
    hide Feasible;
    hide Quick;
  }

  lemma NotPassedYet(p: Plan, k: nat)
    requires p.Valid() && k < p.Steps()
    ensures !ChallengeAfter(p, k).Phase().Passed?
  {
    QuickFolds(p, k);
  }

  // One more pair of the challenge, short of the last.
  lemma ChallengeRound(p: Plan, uid: nat, k: nat, s: LoopState)
    requires p.Valid() && k + 1 < p.Steps() && Follows(p, k, s)
    ensures Round(WorldOf(p, uid), s).1.None? && Follows(p, k + 1, Round(WorldOf(p, uid), s).0)
  {
    hide Captured;
    hide Advanced;
    hide Located;
    hide Round;
    hide Answer;
    hide ChallengeAfter;
    hide PreviousOf;
    hide PairOf;
    hide Feasible;
    var w := WorldOf(p, uid);
    PairIsCaptured(p, uid, k, s);
    var t := Captured(w, s).0;
    OpenUntilLast(p, k, t);
    assert w.faces(k + 1) == Found(EyesOf(p, k), 0.0);
    PairAdvances(p, uid, k, t);
    ShownWhen(w, s, t, PairOf(p, k), EyesOf(p, k), 0.0);
    var progress := L.ProgressOf(MachineAfter(p, k + 1).phase, L.Blink);
    assert AnnouncedAfter(p, k) < PROGRESS_LEFT;
    LocatedWhen(w, t, Advanced(w, t, PairOf(p, k), EyesOf(p, k), 0.0).0, PairOf(p, k), EyesOf(p, k), 0.0, progress);
  }

  lemma OpenUntilLast(p: Plan, k: nat, s: LoopState)
    requires p.Valid() && k < p.Steps() && s.challenge == (if k == 0 then None else Some(ChallengeAfter(p, k)))
    ensures !s.Passed()
  {
    NotPassedYet(p, k);
  }

  // The loop after the `i`-th sample.
  predicate Gathers(p: Plan, i: nat, s: LoopState)
    requires p.Valid() && i <= p.Samples()
  {
    && s.captures == p.Steps() - 1 + i && s.previous == PreviousOf(p, p.Steps() - 1 + i)
    && s.challenge == Some(ChallengeAfter(p, p.Steps())) && s.consumed == Observations(p, i)
    && s.announced == 3 + 2 * i
  }

  // What the world answers for the `i`-th sample.
  lemma WorldAnswers(p: Plan, uid: nat, i: nat)
    requires p.Valid() && i < p.Samples()
    ensures var w, next := WorldOf(p, uid), Observations(p, i + 1);
            && w.listens(3 + 2 * i).None? && (i + 1 < p.Samples() ==> w.listens(4 + 2 * i).None?)
            && w.derivations(i) == Success(DerivationOf(p, i))
            && w.consume(next) == Answer(E.Fresh(p.enrollment, p.issued), uid, next, p.Samples() as real)
            && next == Observations(p, i) + [DerivedFrom(DerivationOf(p, i), PairOf(p, p.Steps() - 1 + i), Yaw(i))]
            && |next| < MAX_DERIVED_OBSERVATION_ATTEMPTS
  {
    hide Answer;
    hide DerivedFrom;
    hide TimeAt;
  }

  // One sample is derived and consumed; the last of them ends the session.
  lemma SampleIsTaken(p: Plan, uid: nat, i: nat, s: LoopState)
    requires p.Valid() && E.Inv(Enrolled(p)) && E.Ready(Enrolled(p)) && i < p.Samples()
    requires s.consumed == Observations(p, i) && s.announced == 3 + 2 * i
    ensures var (t, r) := Derived(WorldOf(p, uid), s, PairOf(p, p.Steps() - 1 + i), Yaw(i));
            && t == s.(consumed := Observations(p, i + 1), announced := t.announced, emitted := t.emitted)
            && (if i + 1 < p.Samples() then r.None? && t.announced == 5 + 2 * i else r.Some? && r.value.Success?)
  {
    var pair := PairOf(p, p.Steps() - 1 + i);
    hide *;
    AnswerTo(p, uid, i);
    WorldAnswers(p, uid, i);
    DerivedWhen(WorldOf(p, uid), s, pair, Yaw(i), Observations(p, i + 1));
  }

  lemma SampleRound(p: Plan, uid: nat, i: nat, s: LoopState)
    requires p.Valid() && E.Inv(Enrolled(p)) && E.Ready(Enrolled(p)) && 1 <= i < p.Samples() && Gathers(p, i, s)
    ensures var (t, r) := Round(WorldOf(p, uid), s);
            if i + 1 < p.Samples() then r.None? && Gathers(p, i + 1, t)
            else r.Some? && r.value.Success? && t.consumed == Observations(p, p.Samples())
  {
    hide Captured;
    hide Derived;
    hide Challenged;
    hide Round;
    hide L.Fold;
    hide Answer;
    hide PreviousOf;
    hide PairOf;
    hide Feasible;
    hide E.Inv;
    hide E.Ready;
    hide Quick;
    hide Observations;
    hide Yaw;
    var w, k := WorldOf(p, uid), p.Steps() - 1 + i;
    PairIsCaptured(p, uid, k, s);
    var t := Captured(w, s).0;
    QuickFolds(p, p.Steps());
    assert t.Passed();
    assert w.faces(k + 1) == Found(1.0, Yaw(i));
    ShownWhen(w, s, t, PairOf(p, k), 1.0, Yaw(i));
    SampleIsTaken(p, uid, i, t);
  }

  // The last pair of the challenge is also the first sample.
  lemma PassingRound(p: Plan, uid: nat, s: LoopState)
    requires p.Valid() && E.Inv(Enrolled(p)) && E.Ready(Enrolled(p)) && Follows(p, p.Steps() - 1, s)
    ensures Round(WorldOf(p, uid), s).1.None? && Gathers(p, 1, Round(WorldOf(p, uid), s).0)
  {
    hide Captured;
    hide Derived;
    hide Located;
    hide Advanced;
    hide Round;
    hide L.Fold;
    hide Answer;
    hide PreviousOf;
    hide PairOf;
    hide Feasible;
    hide E.Inv;
    hide E.Ready;
    hide ChallengeAfter;
    var w, k := WorldOf(p, uid), p.Steps() - 1;
    PairIsCaptured(p, uid, k, s);
    var t := Captured(w, s).0;
    OpenUntilLast(p, k, t);
    assert w.faces(k + 1) == Found(EyesOf(p, k), 0.0);
    PairAdvances(p, uid, k, t);
    ShownWhen(w, s, t, PairOf(p, k), EyesOf(p, k), 0.0);
    var u := Advanced(w, t, PairOf(p, k), EyesOf(p, k), 0.0).0;
    LocatedWhen(w, t, u, PairOf(p, k), EyesOf(p, k), 0.0, L.ChallengePassed);
    assert u.consumed == Observations(p, 0);
    hide Observations;
    SampleIsTaken(p, uid, 0, u);
  }

  // ---------------------------------------------------------------- the whole session

  lemma {:induction false} SamplesFinish(p: Plan, uid: nat, i: nat, s: LoopState)
    requires p.Valid() && E.Inv(Enrolled(p)) && E.Ready(Enrolled(p)) && 1 <= i < p.Samples() && Gathers(p, i, s)
    ensures From(WorldOf(p, uid), s).1.Success?
    ensures From(WorldOf(p, uid), s).0.consumed == Observations(p, p.Samples())
    decreases p.Samples() - i
  {
    hide Round;
    hide Gathers;
    hide WorldOf;
    hide Observations;
    hide Enrolled;
    SampleRound(p, uid, i, s);
    if i + 1 < p.Samples() { SamplesFinish(p, uid, i + 1, Round(WorldOf(p, uid), s).0); }
  }

  lemma {:induction false} ChallengeFinishes(p: Plan, uid: nat, k: nat, s: LoopState)
    requires p.Valid() && E.Inv(Enrolled(p)) && E.Ready(Enrolled(p)) && k < p.Steps() && Follows(p, k, s)
    ensures From(WorldOf(p, uid), s).1.Success?
    ensures From(WorldOf(p, uid), s).0.consumed == Observations(p, p.Samples())
    decreases p.Steps() - k
  {
    hide Round;
    hide Gathers;
    hide Follows;
    hide WorldOf;
    hide Observations;
    hide Enrolled;
    if k + 1 < p.Steps() {
      ChallengeRound(p, uid, k, s);
      ChallengeFinishes(p, uid, k + 1, Round(WorldOf(p, uid), s).0);
    } else {
      PassingRound(p, uid, s);
      SamplesFinish(p, uid, 1, Round(WorldOf(p, uid), s).0);
    }
  }

  lemma PlanFinishes(p: Plan, uid: nat)
    requires p.Valid()
    ensures Session(WorldOf(p, uid), 0).1.Success?
    ensures Session(WorldOf(p, uid), 0).0.consumed == Observations(p, p.Samples())
  {
    var w := WorldOf(p, uid);
    EnrolledIsReady(p);
    var s := Announced(w, Polled(Initial(0)), PositionFace);
    assert Observations(p, 0) == [];
    assert Follows(p, 0, s);
    ChallengeFinishes(p, uid, 0, s);
    hide From;
    hide Follows;
    hide Observations;
    hide Answer;
  }

  lemma WorldIsSilent(p: Plan, uid: nat)
    requires p.Valid()
    ensures SilentFrom(WorldOf(p, uid).listens, PROGRESS_LEFT) && CapturedAfter(WorldOf(p, uid), p.issued)
  {
    hide TimeAt;
    hide Answer;
  }

  // What the plan's world does is an enrollment that ends with a template.
  lemma PlanIsAFinish(p: Plan, uid: nat)
    requires p.Valid()
    ensures Finishes(WorldOf(p, uid), p.enrollment, p.challenge, p.issued, uid, p.Samples() as real)
  {
    PlanFinishes(p, uid);
    WorldIsSilent(p, uid);
    EnrolledIsReady(p);
    EnrolledAggregates(p);
    FedIsEarlier(p, p.Samples());
    WholeIsLast(Enrolled(p));
    assert Fed(E.Fresh(p.enrollment, p.issued), Observations(p, p.Samples())) == Enrolled(p);
    assert ConsumerIs(WorldOf(p, uid), E.Fresh(p.enrollment, p.issued), uid, p.Samples() as real,
                      Observations(p, p.Samples())) by {
      hide Answer;
      hide Observations;
    }
    assert WorldOf(p, uid).config == p.challenge;
    hide Session;
    hide WorldOf;
    hide Observations;
    hide Fed;
    hide Enrolled;
    hide ConsumerIs;
    hide SilentFrom;
    hide CapturedAfter;
    hide E.Inv;
    hide E.IsNorm;
  }

  // A valid enrollment behind a valid challenge can end with a template exactly when it asks for at
  // most 14 samples and there is time for the challenge and the intervals between them.
  lemma CanFinishIffFeasible(enrollment: E.EnrollmentConfig, challenge: L.ChallengeConfig, issued: u64, uid: nat)
    requires E.ValidConfig(enrollment) && challenge.Valid() && issued + enrollment.duration <= MAX_U64
    ensures CanFinish(enrollment, challenge, issued, uid) <==> Feasible(enrollment, challenge, issued)
  {
    if Feasible(enrollment, challenge, issued) {
      PlanIsAFinish(Plan(enrollment, challenge, issued), uid);
      hide Finishes;
    }
    if CanFinish(enrollment, challenge, issued, uid) {
      var w: World<E.TemplateRecord>, root: real :| Finishes(w, enrollment, challenge, issued, uid, root);
      FinishingIsFeasible(w, enrollment, challenge, issued, uid, root);
    }
  }

  const PATIENT := E.EnrollmentConfig(120_000_000, 15, 16, 0.5, 0.75, 50_000, 5.0)

  // Validation accepts an enrollment that nobody can finish, whatever the challenge and the time.
  lemma SomeValidEnrollmentNeverFinishes(challenge: L.ChallengeConfig, issued: u64, uid: nat)
    requires challenge.Valid() && issued + PATIENT.duration <= MAX_U64
    ensures E.ValidConfig(PATIENT) && !CanFinish(PATIENT, challenge, issued, uid)
  {
    CanFinishIffFeasible(PATIENT, challenge, issued, uid);
    hide CanFinish;
  }

  const HURRIED := E.EnrollmentConfig(5_000_000, 3, 14, 0.5, 0.75, 5_000_000, 5.0)

  // Nor is a small number of samples enough: three of them five seconds apart do not fit in five seconds.
  lemma SomeValidEnrollmentHasNoTime(challenge: L.ChallengeConfig, issued: u64, uid: nat)
    requires challenge.Valid() && issued + HURRIED.duration <= MAX_U64
    ensures E.ValidConfig(HURRIED) && HURRIED.minimumSamples <= 14 && !CanFinish(HURRIED, challenge, issued, uid)
  {
    CanFinishIffFeasible(HURRIED, challenge, issued, uid);
    assert E.Offset(5_000_000, 2) == 10_000_000;
    hide CanFinish;
  }
}
