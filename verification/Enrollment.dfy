// The bounded multi-observation enrollment session.
module Enrollment {
  import opened Wrappers
  import opened Arithmetic
  import opened Vectors
  import opened Aggregation

  datatype EnrollmentError =
    | InvalidConfig | DeadlineOverflow | SessionFailed | StaleObservation | InsufficientQuality | InvalidPose
    | LivenessRequired | EmbeddingInvalid | EmbeddingIncompatible | InconsistentIdentity | SampleLimitReached
    | DeadlineElapsed | InsufficientSamples(actual: nat, required: nat) | InsufficientPoseCoverage
    | AggregateInvalid | RecordInvalid

  const MAX_ENROLLMENT_SAMPLES := 16
  const MAX_EMBEDDING_DIMENSION := 4096
  const MIN_EMBEDDING_DIMENSION := 32

  // Two to the minus 23.
  const EPSILON := 0.00000011920928955078125

  datatype EnrollmentConfig = EnrollmentConfig(
    duration: u64, minimumSamples: u8, maximumSamples: u8, minimumQuality: real, minimumSimilarity: real,
    minimumInterval: u64, minimumYawSpan: real)

  predicate UnitScore(x: real) { 0.0 <= x <= 1.0 }

  predicate ValidConfig(c: EnrollmentConfig) {
    && 5_000_000 <= c.duration <= 120_000_000
    && 3 <= c.minimumSamples <= c.maximumSamples <= MAX_ENROLLMENT_SAMPLES
    && UnitScore(c.minimumQuality) && UnitScore(c.minimumSimilarity)
    && 50_000 <= c.minimumInterval <= 5_000_000
    && 5.0 <= c.minimumYawSpan <= 60.0
  }

  datatype Embedding = Embedding(digest: string, values: seq<real>)

  datatype Observation = Observation(
    embedding: Embedding, quality: real, passive: bool, active: bool, timestamp: u64, yaw: real)

  datatype TemplateRecord = TemplateRecord(uid: nat, digest: string, embedding: seq<real>)

  predicate LowerHex(c: char) { '0' <= c <= '9' || 'a' <= c <= 'f' }

  predicate ValidDigest(digest: string) {
    |digest| == 64 && forall i :: 0 <= i < |digest| ==> LowerHex(digest[i])
  }

  // The stored record's own validation; the norm is compared squared.
  predicate ValidRecord(record: TemplateRecord) {
    && ValidDigest(record.digest)
    && 0 < |record.embedding| <= MAX_EMBEDDING_DIMENSION
    && 0.998001 <= NormSquared(record.embedding) <= 1.002001
  }

  // ---------------------------------------------------------------- the session as a state

  datatype SessionState = SessionState(
    config: EnrollmentConfig, issued: u64, deadline: u64, digest: Option<string>, dimension: Option<nat>,
    samples: seq<seq<real>>, qualities: seq<real>, yaws: seq<real>, times: seq<u64>, failed: bool)

  function Last(times: seq<u64>): (t: Option<u64>) {
    if times == [] then None else Some(times[|times| - 1])
  }

  predicate Stale(s: SessionState, timestamp: u64) {
    || timestamp <= s.issued || timestamp >= s.deadline
    || (s.times != [] && timestamp <= s.times[|s.times| - 1])
    || (s.times != [] && timestamp - s.times[|s.times| - 1] < s.config.minimumInterval)
  }

  // Some retained sample is not the same person by the configured floor.
  ghost predicate Inconsistent(s: SessionState, values: seq<real>) {
    exists i :: 0 <= i < |s.samples| && |s.samples[i]| == |values|
                && Mapped(Dot(s.samples[i], values)) < s.config.minimumSimilarity
  }

  // Why an observation is refused, in the order the checks are made.
  ghost function Refusal(s: SessionState, o: Observation): (e: Option<EnrollmentError>) {
    if s.failed then Some(SessionFailed)
    else if Stale(s, o.timestamp) then Some(StaleObservation)
    else if !UnitScore(o.quality) || o.quality < s.config.minimumQuality then Some(InsufficientQuality)
    else if !(-90.0 <= o.yaw <= 90.0) then Some(InvalidPose)
    else if !o.passive || !o.active then Some(LivenessRequired)
    else if !(MIN_EMBEDDING_DIMENSION <= |o.embedding.values| <= MAX_EMBEDDING_DIMENSION) then Some(EmbeddingInvalid)
    else if |s.samples| >= s.config.maximumSamples then Some(SampleLimitReached)
    else if s.digest.Some? && s.dimension.Some?
            && (s.digest.value != o.embedding.digest || s.dimension.value != |o.embedding.values|)
    then Some(EmbeddingIncompatible)
    else if Inconsistent(s, o.embedding.values) then Some(InconsistentIdentity)
    else None
  }

  function Accepted(s: SessionState, o: Observation): (t: SessionState) {
    s.(digest := Some(o.embedding.digest), dimension := Some(|o.embedding.values|),
       samples := s.samples + [o.embedding.values], qualities := s.qualities + [o.quality],
       yaws := s.yaws + [o.yaw], times := s.times + [o.timestamp])
  }

  // Every refusal but a low quality is final.
  ghost function After(s: SessionState, o: Observation): (t: SessionState) {
    match Refusal(s, o)
    case None => Accepted(s, o)
    case Some(e) => if e.InsufficientQuality? then s else s.(failed := true)
  }

  ghost function Run(s: SessionState, observations: seq<Observation>): (t: SessionState) {
    if observations == [] then s
    else After(Run(s, observations[..|observations| - 1]), observations[|observations| - 1])
  }

  // ---------------------------------------------------------------- the invariant

  ghost predicate Spaced(s: SessionState) {
    && (forall i :: 0 <= i < |s.times| ==> s.issued < s.times[i] < s.deadline)
    && (forall i, j :: 0 <= i < j < |s.times| ==> s.times[i] + s.config.minimumInterval <= s.times[j])
  }

  ghost predicate OneModel(s: SessionState) {
    && (s.digest.Some? <==> s.samples != [])
    && (s.dimension.Some? <==> s.samples != [])
    && (s.samples != [] ==>
          && MIN_EMBEDDING_DIMENSION <= s.dimension.value <= MAX_EMBEDDING_DIMENSION
          && Rectangular(s.samples, s.dimension.value)
          && Consistent(s.samples, s.dimension.value, s.config.minimumSimilarity))
  }

  ghost predicate Parallel(s: SessionState) {
    && |s.samples| == |s.qualities| == |s.yaws| == |s.times| <= s.config.maximumSamples
    && (forall i :: 0 <= i < |s.qualities| ==> s.config.minimumQuality <= s.qualities[i] <= 1.0)
    && (forall i :: 0 <= i < |s.yaws| ==> -90.0 <= s.yaws[i] <= 90.0)
  }

  ghost predicate Inv(s: SessionState) {
    && ValidConfig(s.config) && s.deadline == s.issued + s.config.duration
    && Parallel(s) && Spaced(s) && OneModel(s)
  }

  // The least time from one sample to the `i`-th after it.
  function Offset(interval: nat, i: nat): (t: nat) { i * interval }

  lemma OffsetGrows(interval: nat, i: nat, j: nat)
    requires i <= j
    ensures Offset(interval, i) <= Offset(interval, j)
  {
    assert (j - i) * interval >= 0;
  }

  lemma OneMoreInterval(interval: nat, i: nat)
    ensures Offset(interval, i + 1) == Offset(interval, i) + interval
  {
  }

  lemma AcceptKeepsModel(s: SessionState, o: Observation)
    requires Inv(s) && Refusal(s, o).None?
    ensures OneModel(Accepted(s, o))
  {
    var t := Accepted(s, o);
    hide Dot;
    hide Mapped;
    assert Rectangular(t.samples, t.dimension.value);
    forall i, j | 0 <= i < j < |t.samples|
      ensures Mapped(Dot(t.samples[i], t.samples[j])) >= s.config.minimumSimilarity
    {
      if j < |s.samples| { assert Mapped(Dot(s.samples[i], s.samples[j])) >= s.config.minimumSimilarity; }
    }
  }

  lemma ObservationKeepsInv(s: SessionState, o: Observation)
    requires Inv(s)
    ensures Inv(After(s, o))
  {
    if Refusal(s, o).None? {
      AcceptKeepsModel(s, o);
      hide OneModel;
      hide Inconsistent;
    }
  }

  // Every reachable session keeps parallel, bounded, consistent samples of one model, spaced in time.
  lemma {:induction false} RunKeepsInv(s: SessionState, observations: seq<Observation>)
    requires Inv(s)
    ensures Inv(Run(s, observations))
    decreases |observations|
  {
    if observations != [] {
      RunKeepsInv(s, observations[..|observations| - 1]);
      ObservationKeepsInv(Run(s, observations[..|observations| - 1]), observations[|observations| - 1]);
    }
  }

  // Once failed, a session never changes again and refuses everything.
  lemma {:induction false} FailureIsAbsorbing(s: SessionState, observations: seq<Observation>, o: Observation)
    requires s.failed
    ensures Run(s, observations) == s && Refusal(s, o) == Some(SessionFailed)
    decreases |observations|
  {
    if observations != [] {
      FailureIsAbsorbing(s, observations[..|observations| - 1], observations[|observations| - 1]);
    }
  }

  // ---------------------------------------------------------------- how observations are judged

  // Strictly inside the session's time, and at least an interval after every retained sample.
  predicate Timely(s: SessionState, timestamp: u64) {
    && s.issued < timestamp < s.deadline
    && forall k :: 0 <= k < |s.times| ==> s.times[k] + s.config.minimumInterval <= timestamp
  }

  predicate Sharp(s: SessionState, quality: real) {
    0.0 <= quality <= 1.0 && quality >= s.config.minimumQuality
  }

  // A live face of the retained model and person that there is still room for.
  ghost predicate Genuine(s: SessionState, o: Observation) {
    && -90.0 <= o.yaw <= 90.0 && o.passive && o.active
    && 32 <= |o.embedding.values| <= 4096 && |s.samples| + 1 <= s.config.maximumSamples
    && (s.samples != [] ==> s.digest == Some(o.embedding.digest))
    && forall k :: 0 <= k < |s.samples| ==>
         && |s.samples[k]| == |o.embedding.values|
         && s.config.minimumSimilarity <= Mapped(Dot(s.samples[k], o.embedding.values))
  }

  // An open session accepts the timely, sharp and genuine observations, forgives those that are
  // timely and only lack sharpness, and fails at every other.
  lemma ObservationsAreJudged(s: SessionState, o: Observation)
    requires Inv(s) && !s.failed
    ensures Refusal(s, o).None? <==> Timely(s, o.timestamp) && Sharp(s, o.quality) && Genuine(s, o)
    ensures After(s, o) == s <==> Timely(s, o.timestamp) && !Sharp(s, o.quality)
    ensures After(s, o).failed <==> !Timely(s, o.timestamp) || (Sharp(s, o.quality) && !Genuine(s, o))
  {
    TimelyIsNotStale(s, o.timestamp);
    hide Stale;
    hide Timely;
    hide Spaced;
    hide Dot;
    hide Mapped;
    if s.samples != [] { assert |s.samples[0]| == s.dimension.value; }
    assert Refusal(s, o).None? ==> |After(s, o).samples| == |s.samples| + 1;
  }

  lemma TimelyIsNotStale(s: SessionState, timestamp: u64)
    requires Inv(s)
    ensures Timely(s, timestamp) <==> !Stale(s, timestamp)
  {
    hide OneModel;
  }

  // The fault a refusal names is there.
  lemma RefusalsAreDeserved(s: SessionState, o: Observation)
    requires Inv(s)
    ensures Refusal(s, o) == Some(StaleObservation) ==> !Timely(s, o.timestamp)
    ensures Refusal(s, o) == Some(InsufficientQuality) ==> !Sharp(s, o.quality)
    ensures Refusal(s, o) == Some(InvalidPose) ==> o.yaw < -90.0 || o.yaw > 90.0
    ensures Refusal(s, o) == Some(LivenessRequired) ==> !(o.passive && o.active)
    ensures Refusal(s, o) == Some(EmbeddingInvalid) ==> |o.embedding.values| < 32 || |o.embedding.values| > 4096
    ensures Refusal(s, o) == Some(SampleLimitReached) ==> |s.samples| == s.config.maximumSamples
    ensures Refusal(s, o) == Some(EmbeddingIncompatible) ==>
              s.samples != [] && (s.digest != Some(o.embedding.digest) || |s.samples[0]| != |o.embedding.values|)
    ensures Refusal(s, o) == Some(InconsistentIdentity) ==>
              exists k :: 0 <= k < |s.samples| && |s.samples[k]| == |o.embedding.values|
                          && Mapped(Dot(s.samples[k], o.embedding.values)) < s.config.minimumSimilarity
  {
    TimelyIsNotStale(s, o.timestamp);
    hide Stale;
    hide Timely;
    hide Spaced;
    hide Dot;
    hide Mapped;
    if s.samples != [] { assert |s.samples[0]| == s.dimension.value; }
  }

  ghost predicate Spoils(s: SessionState, o: Observation) {
    !Timely(s, o.timestamp) || (Sharp(s, o.quality) && !Genuine(s, o))
  }

  ghost predicate SpoiledAt(s: SessionState, observations: seq<Observation>, k: nat) {
    k < |observations| && Spoils(Run(s, observations[..k]), observations[k])
  }

  lemma OneMoreObservation(s: SessionState, o: Observation)
    requires Inv(s)
    ensures After(s, o).failed <==> s.failed || Spoils(s, o)
  {
    if !s.failed {
      ObservationsAreJudged(s, o);
      assert Spoils(s, o) <==> !Timely(s, o.timestamp) || (Sharp(s, o.quality) && !Genuine(s, o));
    }
  }

  // A run has failed exactly when some observation spoiled the session that those before it left.
  lemma {:induction false} RunFailsIffSpoiled(s: SessionState, observations: seq<Observation>)
    requires Inv(s) && !s.failed
    ensures Run(s, observations).failed <==> exists k: nat :: SpoiledAt(s, observations, k)
    decreases |observations|
  {
    hide Inv;
    hide After;
    hide Spoils;
    if observations == [] {
    } else {
      var n := |observations| - 1;
      var rest := observations[..n];
      RunFailsIffSpoiled(s, rest);
      RunKeepsInv(s, rest);
      OneMoreObservation(Run(s, rest), observations[n]);
      assert SpoiledAt(s, observations, n) <==> Spoils(Run(s, rest), observations[n]);
      forall k: nat | k < n ensures SpoiledAt(s, rest, k) <==> SpoiledAt(s, observations, k) {
        assert rest[..k] == observations[..k];
      }
      hide SpoiledAt;
      assert forall k: nat :: SpoiledAt(s, observations, k) ==> k < n || k == n by { WithinRun(s, observations); }
      assert forall k: nat :: SpoiledAt(s, rest, k) ==> k < n by { WithinRun(s, rest); }
    }
  }

  lemma WithinRun(s: SessionState, observations: seq<Observation>)
    ensures forall k: nat :: SpoiledAt(s, observations, k) ==> k < |observations|
  {
    hide Run;
    hide Spoils;
  }

  // ---------------------------------------------------------------- which observations are retained

  function Fresh(config: EnrollmentConfig, issued: u64): (s: SessionState)
    requires issued + config.duration <= MAX_U64
  {
    SessionState(config, issued, issued + config.duration, None, None, [], [], [], [], false)
  }

  // The observations accepted along a run, in order.
  ghost function Kept(s: SessionState, observations: seq<Observation>): (kept: seq<Observation>) {
    if observations == [] then []
    else
      var rest, o := observations[..|observations| - 1], observations[|observations| - 1];
      Kept(s, rest) + if Refusal(Run(s, rest), o).None? then [o] else []
  }

  // The retained samples as observations.
  ghost function Retained(s: SessionState): (kept: seq<Observation>)
    requires Inv(s)
  {
    seq(|s.samples|, i requires 0 <= i < |s.samples| =>
      Observation(Embedding(s.digest.value, s.samples[i]), s.qualities[i], true, true, s.times[i], s.yaws[i]))
  }

  lemma AcceptRetains(s: SessionState, o: Observation)
    requires Inv(s) && Refusal(s, o).None? && Inv(Accepted(s, o))
    ensures Retained(Accepted(s, o)) == Retained(s) + [o]
  {
    hide Inconsistent;
    hide Spaced;
  }

  // A session retains exactly the observations it accepted, in the order they were shown.
  lemma {:induction false} RetainedAreShown(s: SessionState, observations: seq<Observation>)
    requires Inv(s)
    ensures Inv(Run(s, observations)) && Retained(Run(s, observations)) == Retained(s) + Kept(s, observations)
    ensures |Kept(s, observations)| <= |observations|
    ensures forall o :: o in Kept(s, observations) ==> o in observations
    decreases |observations|
  {
    RunKeepsInv(s, observations);
    if observations == [] {
      assert Retained(s) + [] == Retained(s);
    } else {
      var rest, o := observations[..|observations| - 1], observations[|observations| - 1];
      RetainedAreShown(s, rest);
      var t := Run(s, rest);
      hide Inv;
      hide Kept;
      hide Retained;
      if Refusal(t, o).None? { AcceptRetains(t, o); }
    }
  }

  // The session as it was when it held its first `k` samples.
  ghost function Earlier(s: SessionState, k: nat): (t: SessionState)
    requires Inv(s) && k <= |s.samples|
  {
    s.(digest := if k == 0 then None else s.digest, dimension := if k == 0 then None else s.dimension,
       samples := s.samples[..k], qualities := s.qualities[..k], yaws := s.yaws[..k], times := s.times[..k])
  }

  lemma NextIsAccepted(s: SessionState, k: nat)
    requires Inv(s) && !s.failed && k < |s.samples|
    ensures Refusal(Earlier(s, k), Retained(s)[k]).None?
    ensures After(Earlier(s, k), Retained(s)[k]) == Earlier(s, k + 1)
  {
    var t, o := Earlier(s, k), Retained(s)[k];
    hide Dot;
    hide Mapped;
    assert !Inconsistent(t, o.embedding.values) by {
      forall i | 0 <= i < k ensures Mapped(Dot(s.samples[i], s.samples[k])) >= s.config.minimumSimilarity {
      }
    }
    assert !Stale(t, o.timestamp);
    hide Inconsistent;
    assert Refusal(t, o).None?;
  }

  lemma RetainedIsLong(s: SessionState)
    requires Inv(s)
    ensures |Retained(s)| == |s.samples|
  {
  }

  lemma {:induction false} EarlierIsReachable(s: SessionState, k: nat)
    requires Inv(s) && !s.failed && k <= |s.samples|
    ensures Run(Fresh(s.config, s.issued), Retained(s)[..k]) == Earlier(s, k)
    decreases k
  {
    if k == 0 {
      assert Earlier(s, 0) == Fresh(s.config, s.issued);
    } else {
      hide Inv;
      hide After;
      hide Retained;
      hide Earlier;
      EarlierIsReachable(s, k - 1);
      NextIsAccepted(s, k - 1);
      RetainedIsLong(s);
      assert Retained(s)[..k][..k - 1] == Retained(s)[..k - 1];
    }
  }

  // The invariant is exact: every state it allows is reached by showing the retained samples.
  lemma InvIsReachable(s: SessionState)
    requires Inv(s) && !s.failed
    ensures Run(Fresh(s.config, s.issued), Retained(s)) == s
  {
    EarlierIsReachable(s, |s.samples|);
    assert Retained(s)[..|s.samples|] == Retained(s);
  }

  // ---------------------------------------------------------------- pose coverage

  ghost predicate SpansPose(yaws: seq<real>, span: real) {
    exists i, j :: 0 <= i < |yaws| && 0 <= j < |yaws| && yaws[j] - yaws[i] >= span
  }

  method HasPoseCoverage(yaws: seq<real>, span: real) returns (b: bool)
    requires span > 0.0
    ensures b <==> SpansPose(yaws, span)
    ensures b <==> exists i, j :: 0 <= i < |yaws| && 0 <= j < |yaws| && yaws[i] + span <= yaws[j]
  {
    if yaws == [] { return false; }
    var low, high := 0, 0;
    for i := 0 to |yaws|
      invariant 0 <= low < |yaws| && 0 <= high < |yaws|
      invariant forall k :: 0 <= k < i ==> yaws[low] <= yaws[k] <= yaws[high]
    {
      if yaws[i] < yaws[low] { low := i; }
      if yaws[high] < yaws[i] { high := i; }
    }
    b := yaws[high] - yaws[low] >= span;
  }

  ghost predicate Ready(s: SessionState) {
    !s.failed && |s.samples| >= s.config.minimumSamples && SpansPose(s.yaws, s.config.minimumYawSpan)
  }

  // ---------------------------------------------------------------- finishing

  // The root the normalization takes of the aggregate's squared norm.
  ghost predicate IsNorm(s: SessionState, root: real)
    requires Inv(s)
  {
    s.samples != [] ==>
      root >= 0.0 && Product(root, root) == NormSquared(Combined(s.samples, s.qualities, s.dimension.value))
  }

  ghost predicate Degenerate(s: SessionState, root: real)
    requires Inv(s)
  {
    TotalWeight(s.qualities) <= EPSILON || root <= EPSILON
  }

  ghost function Template(s: SessionState, uid: nat, root: real): (t: TemplateRecord)
    requires Inv(s) && s.samples != [] && root != 0.0
  {
    TemplateRecord(uid, s.digest.value, Divided(Combined(s.samples, s.qualities, s.dimension.value), root))
  }

  // A normalized aggregate passes the record's own validation exactly when its digest is well formed.
  lemma TemplateIsValid(s: SessionState, uid: nat, root: real)
    requires Inv(s) && s.samples != [] && IsNorm(s, root) && root > 0.0
    ensures NormSquared(Template(s, uid, root).embedding) == 1.0
    ensures ValidRecord(Template(s, uid, root)) <==> ValidDigest(s.digest.value)
  {
    DividedIsUnit(Combined(s.samples, s.qualities, s.dimension.value), root);
    hide NormSquared;
    hide Combined;
    hide Divided;
  }

  // Record validation admits an embedding within a thousandth of unit length under a digest of 64
  // lower-case hexadecimal digits.
  lemma RecordTolerance(record: TemplateRecord, root: real)
    requires root >= 0.0 && Product(root, root) == NormSquared(record.embedding)
    ensures ValidRecord(record) <==>
              && |record.digest| == 64
              && (forall c :: c in record.digest ==> c in "0123456789abcdef")
              && 1 <= |record.embedding| <= 4096
              && -0.001 <= root - 1.0 <= 0.001
  {
    var squared := NormSquared(record.embedding);
    assert 0.998001 <= squared <= 1.002001 <==> 0.999 <= root <= 1.001 by {
      SquaresKeepOrder(0.999, root);
      SquaresKeepOrder(root, 1.001);
    }
    hide NormSquared;
    assert forall c :: LowerHex(c) <==> c in "0123456789abcdef";
  }

  lemma WeightedQualities(s: SessionState)
    requires Inv(s)
    ensures Weighted(s.qualities)
  {
  }

  // A finished template meets the session's own similarity floor against every sample.
  lemma FinishedTemplateMatches(s: SessionState, uid: nat, root: real, k: nat)
    requires Inv(s) && IsNorm(s, root) && root > 0.0 && Units(s.samples) && k < |s.samples|
    requires s.config.minimumSimilarity >= 0.5
    ensures Mapped(Dot(Template(s, uid, root).embedding, s.samples[k])) >= s.config.minimumSimilarity
  {
    WeightedQualities(s);
    hide Dot;
    TemplateMatchesEverySample(s.samples, s.qualities, s.dimension.value, s.config.minimumSimilarity, root, k);
  }

  method AddScaledInPlace(a: array<real>, x: seq<real>, q: real)
    requires a.Length == |x|
    modifies a
    ensures a[..] == AddScaled(old(a[..]), x, q)
  {
    for i := 0 to a.Length
      invariant forall k :: 0 <= k < i ==> a[k] == old(a[k]) + Product(x[k], q)
      invariant forall k :: i <= k < a.Length ==> a[k] == old(a[k])
    {
      a[i] := a[i] + Product(x[i], q);
    }
  }

  // Divides by the norm unless it is negligible.
  method Normalize(a: array<real>, root: real) returns (r: Result<Unit, EnrollmentError>)
    requires root >= 0.0
    modifies a
    ensures r == if root <= EPSILON then Failure(AggregateInvalid) else Success(Unit)
    ensures r.Success? ==> a[..] == Divided(old(a[..]), root)
  {
    if root <= EPSILON { return Failure(AggregateInvalid); }
    for i := 0 to a.Length
      invariant forall k :: 0 <= k < i ==> a[k] == old(a[k]) / root
      invariant forall k :: i <= k < a.Length ==> a[k] == old(a[k])
    {
      a[i] := a[i] / root;
    }
    r := Success(Unit);
  }

  // ---------------------------------------------------------------- the session object

  class EnrollmentSession {
    const config: EnrollmentConfig
    const uid: nat
    const issued: u64
    const deadline: u64
    var lastTimestamp: Option<u64>
    var digest: Option<string>
    var dimension: Option<nat>
    var samples: seq<seq<real>>
    var qualities: seq<real>
    var yaws: seq<real>
    var terminalFailure: bool
    ghost var times: seq<u64>

    ghost function State(): (s: SessionState)
      reads this
    {
      SessionState(config, issued, deadline, digest, dimension, samples, qualities, yaws, times, terminalFailure)
    }

    ghost predicate Valid()
      reads this
    {
      Inv(State()) && lastTimestamp == Last(times)
    }

    constructor Open(config: EnrollmentConfig, uid: nat, issued: u64)
      requires ValidConfig(config) && issued + config.duration <= MAX_U64
      ensures Valid() && this.config == config && this.uid == uid
      ensures State() == Fresh(config, issued)
    {
      this.config, this.uid, this.issued, this.deadline := config, uid, issued, issued + config.duration;
      lastTimestamp, digest, dimension := None, None, None;
      samples, qualities, yaws, times, terminalFailure := [], [], [], [], false;
    }

    static method Start(config: EnrollmentConfig, uid: nat, issued: u64)
      returns (r: Result<EnrollmentSession, EnrollmentError>)
      ensures !ValidConfig(config) ==> r == Failure(InvalidConfig)
      ensures r != Failure(InvalidConfig) <==>
                && 5_000_000 <= config.duration && config.duration <= 120_000_000
                && 3 <= config.minimumSamples && config.minimumSamples <= config.maximumSamples
                && config.maximumSamples <= 16
                && 0.0 <= config.minimumQuality && config.minimumQuality <= 1.0
                && 0.0 <= config.minimumSimilarity && config.minimumSimilarity <= 1.0
                && 50_000 <= config.minimumInterval && config.minimumInterval <= 5_000_000
                && 5.0 <= config.minimumYawSpan && config.minimumYawSpan <= 60.0
      ensures ValidConfig(config) && issued + config.duration > MAX_U64 ==> r == Failure(DeadlineOverflow)
      ensures ValidConfig(config) && issued + config.duration <= MAX_U64 ==>
                && r.Success? && fresh(r.value) && r.value.Valid() && r.value.uid == uid
                && r.value.State() == Fresh(config, issued)
    {
      if !ValidConfig(config) { return Failure(InvalidConfig); }
      if issued + config.duration > MAX_U64 { return Failure(DeadlineOverflow); }
      var session := new EnrollmentSession.Open(config, uid, issued);
      r := Success(session);
    }

    method ReadyToFinish() returns (b: bool)
      requires Valid()
      ensures b <==> Ready(State())
    {
      var covered := HasPoseCoverage(yaws, config.minimumYawSpan);
      b := !terminalFailure && |samples| >= config.minimumSamples && covered;
    }

    predicate IsFull()
      reads this
    {
      |samples| >= config.maximumSamples
    }

    method ValidateObservation(o: Observation) returns (r: Result<Unit, EnrollmentError>)
      requires Valid() && !terminalFailure
      ensures r.Failure? ==> Refusal(State(), o) == Some(r.error)
      ensures r.Success? ==>
                && !Stale(State(), o.timestamp) && UnitScore(o.quality) && config.minimumQuality <= o.quality
                && -90.0 <= o.yaw <= 90.0 && o.passive && o.active
                && MIN_EMBEDDING_DIMENSION <= |o.embedding.values| <= MAX_EMBEDDING_DIMENSION
    {
      if o.timestamp <= issued || o.timestamp >= deadline
         || (lastTimestamp.Some? && o.timestamp <= lastTimestamp.value)
         || (lastTimestamp.Some? && o.timestamp - lastTimestamp.value < config.minimumInterval) {
        return Failure(StaleObservation);
      }
      if !UnitScore(o.quality) || o.quality < config.minimumQuality { return Failure(InsufficientQuality); }
      if !(-90.0 <= o.yaw <= 90.0) { return Failure(InvalidPose); }
      if !o.passive || !o.active { return Failure(LivenessRequired); }
      if !(MIN_EMBEDDING_DIMENSION <= |o.embedding.values| <= MAX_EMBEDDING_DIMENSION) {
        return Failure(EmbeddingInvalid);
      }
      r := Success(Unit);
    }

    method ConsistentWithSamples(values: seq<real>) returns (b: bool)
      requires Rectangular(samples, |values|)
      ensures b <==> !Inconsistent(State(), values)
    {
      hide Dot;
      hide Mapped;
      for i := 0 to |samples|
        invariant forall k :: 0 <= k < i ==> Mapped(Dot(samples[k], values)) >= config.minimumSimilarity
      {
        if Mapped(Dot(samples[i], values)) < config.minimumSimilarity { return false; }
      }
      b := true;
    }

    method ObserveInner(o: Observation) returns (r: Result<Unit, EnrollmentError>)
      requires Valid() && !terminalFailure
      modifies this
      ensures r == match Refusal(old(State()), o) case None => Success(Unit) case Some(e) => Failure(e)
      ensures State() == if r.Success? then Accepted(old(State()), o) else old(State())
      ensures lastTimestamp == Last(times)
    {
      var validated := ValidateObservation(o);
      if validated.Failure? { return validated; }
      if |samples| >= config.maximumSamples { return Failure(SampleLimitReached); }
      if digest.Some? && dimension.Some? {
        if digest.value != o.embedding.digest || dimension.value != |o.embedding.values| {
          return Failure(EmbeddingIncompatible);
        }
      } else {
        digest, dimension := Some(o.embedding.digest), Some(|o.embedding.values|);
      }
      var consistent := ConsistentWithSamples(o.embedding.values);
      if !consistent { return Failure(InconsistentIdentity); }
      samples, qualities, yaws := samples + [o.embedding.values], qualities + [o.quality], yaws + [o.yaw];
      lastTimestamp, times := Some(o.timestamp), times + [o.timestamp];
      r := Success(Unit);
    }

    // One observation is one step of the session's run.
    method Observe(o: Observation) returns (r: Result<Unit, EnrollmentError>)
      requires Valid()
      modifies this
      ensures Valid() && State() == After(old(State()), o)
      ensures r == match Refusal(old(State()), o) case None => Success(Unit) case Some(e) => Failure(e)
    {
      ObservationKeepsInv(State(), o);
      hide Inconsistent;
      if terminalFailure { return Failure(SessionFailed); }
      r := ObserveInner(o);
      if r.Failure? && !r.error.InsufficientQuality? { terminalFailure := true; }
    }

    // Aggregates the samples; `root` stands for the square root the normalization takes.
    method Finish(now: u64, root: real) returns (r: Result<TemplateRecord, EnrollmentError>)
      requires Valid() && IsNorm(State(), root)
      ensures terminalFailure ==> r == Failure(SessionFailed)
      ensures !terminalFailure && now >= deadline ==> r == Failure(DeadlineElapsed)
      ensures !terminalFailure && now < deadline && |samples| < config.minimumSamples ==>
                r == Failure(InsufficientSamples(|samples|, config.minimumSamples))
      ensures !terminalFailure && now < deadline && |samples| >= config.minimumSamples && !Ready(State()) ==>
                r == Failure(InsufficientPoseCoverage)
      ensures Ready(State()) && now < deadline ==>
                r == if Degenerate(State(), root) then Failure(AggregateInvalid)
                     else if !ValidDigest(digest.value) then Failure(RecordInvalid)
                     else Success(Template(State(), uid, root))
    {
      if terminalFailure { return Failure(SessionFailed); }
      if now >= deadline { return Failure(DeadlineElapsed); }
      if |samples| < config.minimumSamples { return Failure(InsufficientSamples(|samples|, config.minimumSamples)); }
      var covered := HasPoseCoverage(yaws, config.minimumYawSpan);
      if !covered { return Failure(InsufficientPoseCoverage); }
      r := Aggregate(root);
    }

    method Aggregate(root: real) returns (r: Result<TemplateRecord, EnrollmentError>)
      requires Valid() && samples != [] && IsNorm(State(), root)
      ensures r == if Degenerate(State(), root) then Failure(AggregateInvalid)
                   else if !ValidDigest(digest.value) then Failure(RecordInvalid)
                   else Success(Template(State(), uid, root))
    {
      var aggregate := new real[dimension.value](_ => 0.0);
      var totalWeight := 0.0;
      assert aggregate[..] == Zero(dimension.value);
      hide AddScaled;
      for i := 0 to |samples|
        invariant Rectangular(samples[..i], dimension.value)
        invariant totalWeight == TotalWeight(qualities[..i])
        invariant aggregate[..] == Combined(samples[..i], qualities[..i], dimension.value)
      {
        assert samples[..i + 1][..i] == samples[..i] && qualities[..i + 1][..i] == qualities[..i];
        totalWeight := totalWeight + qualities[i];
        AddScaledInPlace(aggregate, samples[i], qualities[i]);
      }
      assert samples[..|samples|] == samples && qualities[..|samples|] == qualities;
      if totalWeight <= EPSILON { return Failure(AggregateInvalid); }
      var normalized := Normalize(aggregate, root);
      if normalized.Failure? { return Failure(normalized.error); }
      var record := TemplateRecord(uid, digest.value, aggregate[..]);
      TemplateIsValid(State(), uid, root);
      r := if ValidRecord(record) then Success(record) else Failure(RecordInvalid);
    }
  }
}
