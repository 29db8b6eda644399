// The randomized active-liveness challenge: a session object, its state machine as a fold over the
// accepted observations, and what a passing trace must look like.
module Liveness {
  import opened Wrappers

  datatype ChallengeAction = Blink | TurnLeft | TurnRight

  datatype ChallengeConfig = ChallengeConfig(
    maxPairSkewMicros: u64,
    durationMicros: u64,
    maxObservations: u16,
    openEyeThreshold: real,
    closedEyeThreshold: real,
    neutralYawDegrees: real,
    turnYawDegrees: real,
    actionConsecutive: u8,
    minimumActionDurationMicros: u64,
    recoveryConsecutive: u8)
  {
    predicate Valid() {
      && maxPairSkewMicros != 0
      && 1_000_000 <= durationMicros <= 30_000_000
      && 3 <= maxObservations <= 300
      && 2 <= actionConsecutive <= 15
      && 2 <= recoveryConsecutive <= 15
      && 20_000 <= minimumActionDurationMicros <= 2_000_000
      && minimumActionDurationMicros < durationMicros
      && actionConsecutive + recoveryConsecutive + 1 <= maxObservations
      && 0.0 <= closedEyeThreshold < openEyeThreshold <= 1.0
      && 0.0 <= neutralYawDegrees <= 45.0
      && 5.0 <= turnYawDegrees <= 75.0
      && neutralYawDegrees < turnYawDegrees
    }
  }

  datatype CapturePair = CapturePair(infraredTimestampMicros: u64, visibleTimestampMicros: Option<u64>)

  datatype ChallengeObservation = ChallengeObservation(
    timing: CapturePair,
    infraredSequence: u32,
    visibleSequence: u32,
    faceCount: u8,
    eyeOpenness: real,
    yawDegrees: real)

  datatype ChallengeError =
    | InvalidConfig | Cancelled | DeadlineOverflow | Random | VisibleFrameRequired | InvalidFramePair
    | SingleFaceRequired(actual: u8) | InvalidMeasurement | NonIncreasingTimestamp | PredatesChallenge
    | RepeatedCameraFrame | Expired | ObservationBudgetExhausted | AlreadyCompleted

  datatype ChallengeProgress =
    | BaselineRequired | ActionRequired(action: ChallengeAction) | RecoveryRequired | ChallengePassed

  datatype Phase = Baseline | Action | Recovery | Passed

  // What the machine needs of one accepted observation.
  datatype Sample = Sample(timestamp: u64, neutral: bool, action: bool)

  datatype Machine = Machine(phase: Phase, actionStreak: u8, actionStarted: Option<u64>, recoveryStreak: u8)

  const NEW_MACHINE := Machine(Baseline, 0, None, 0)

  function Abs(x: real): (r: real) {
    if x < 0.0 then -x else x
  }

  // The later of the two frame times; the visible frame is mandatory.
  function Timestamp(o: ChallengeObservation): (t: u64)
    requires o.timing.visibleTimestampMicros.Some?
  {
    Max(o.timing.infraredTimestampMicros, o.timing.visibleTimestampMicros.value)
  }

  function SampleOf(config: ChallengeConfig, action: ChallengeAction, o: ChallengeObservation): (x: Sample)
    requires o.timing.visibleTimestampMicros.Some?
  {
    Sample(
      Timestamp(o),
      o.eyeOpenness >= config.openEyeThreshold && Abs(o.yawDegrees) <= config.neutralYawDegrees,
      match action
      case Blink => o.eyeOpenness <= config.closedEyeThreshold
      case TurnLeft => o.yawDegrees <= -config.turnYawDegrees
      case TurnRight => o.yawDegrees >= config.turnYawDegrees)
  }

  function SaturatingIncrement(n: u8): (m: u8) {
    if n == 0xFF then n else n + 1
  }

  // One accepted observation moves the machine by one step.
  function Step(config: ChallengeConfig, m: Machine, x: Sample): (n: Machine) {
    match m.phase
    case Baseline => if x.neutral then m.(phase := Action) else m
    case Action =>
      if !x.action then m.(actionStreak := 0, actionStarted := None)
      else
        var started := if m.actionStarted.Some? then m.actionStarted.value else x.timestamp;
        var streak := SaturatingIncrement(m.actionStreak);
        if streak >= config.actionConsecutive
           && SaturatingSub(x.timestamp, started) >= config.minimumActionDurationMicros
        then Machine(Recovery, streak, Some(started), 0)
        else Machine(Action, streak, Some(started), m.recoveryStreak)
    case Recovery =>
      if !x.neutral then m.(recoveryStreak := 0)
      else
        var streak := SaturatingIncrement(m.recoveryStreak);
        m.(recoveryStreak := streak,
           phase := if streak >= config.recoveryConsecutive then Passed else Recovery)
    case Passed => m
  }

  function Fold(config: ChallengeConfig, trace: seq<Sample>): (m: Machine) {
    if trace == [] then NEW_MACHINE
    else Step(config, Fold(config, trace[..|trace| - 1]), trace[|trace| - 1])
  }

  // ---------------------------------------------------------------- what a pass means

  ghost predicate Increasing(trace: seq<Sample>) {
    forall i, j :: 0 <= i < j < |trace| ==> trace[i].timestamp < trace[j].timestamp
  }

  // Samples `first..=last` are a long enough and slow enough contiguous run of the action.
  ghost predicate ActionRun(config: ChallengeConfig, trace: seq<Sample>, first: nat, last: nat) {
    && first <= last < |trace|
    && (forall k :: first <= k <= last ==> trace[k].action)
    && last - first + 1 >= config.actionConsecutive
    && trace[last].timestamp - trace[first].timestamp >= config.minimumActionDurationMicros
  }

  ghost predicate RecoveryRun(config: ChallengeConfig, trace: seq<Sample>, first: nat) {
    && first + config.recoveryConsecutive <= |trace|
    && forall k :: first <= k < first + config.recoveryConsecutive ==> trace[k].neutral
  }

  // A neutral baseline, a later action run, and a still later neutral run.
  ghost predicate TracePasses(config: ChallengeConfig, trace: seq<Sample>) {
    exists baseline: nat, first: nat, last: nat, recovery: nat ::
      && baseline < first && last < recovery
      && baseline < |trace| && trace[baseline].neutral
      && ActionRun(config, trace, first, last)
      && RecoveryRun(config, trace, recovery)
  }

  // ---------------------------------------------------------------- the fold explains the trace

  // Where the machine's phase and counters come from: `b` is the first neutral sample, `n` the
  // length of the current action run, `e` the end of the first action run, `r` the neutral run.
  datatype Marks = Marks(b: nat, n: nat, e: nat, r: nat)

  ghost predicate FirstNeutral(trace: seq<Sample>, b: nat) {
    b < |trace| && trace[b].neutral && forall k :: 0 <= k < b ==> !trace[k].neutral
  }

  // The trace ends in `n` samples of the action after the baseline at `b`, and no more.
  ghost predicate ActionTail(trace: seq<Sample>, b: nat, n: nat) {
    && FirstNeutral(trace, b)
    && b + n < |trace|
    && (forall i :: |trace| - n <= i < |trace| ==> trace[i].action)
    && (b + n + 1 < |trace| ==> !trace[|trace| - n - 1].action)
  }

  ghost predicate NoActionRun(config: ChallengeConfig, trace: seq<Sample>, b: nat, end: nat) {
    forall first: nat, last: nat :: b < first && last < end ==> !ActionRun(config, trace, first, last)
  }

  ghost predicate ActionExplained(config: ChallengeConfig, trace: seq<Sample>, m: Machine, k: Marks) {
    && ActionTail(trace, k.b, k.n)
    && m.actionStreak == Min(k.n, 0xFF)
    && m.actionStarted == (if k.n == 0 then None else Some(trace[|trace| - k.n].timestamp))
    && NoActionRun(config, trace, k.b, |trace|)
  }

  // The trace ends in `r` neutral samples after sample `e`, and no more.
  ghost predicate RecoveryTail(trace: seq<Sample>, e: nat, r: nat) {
    && e + r < |trace|
    && (forall i :: |trace| - r <= i < |trace| ==> trace[i].neutral)
    && (e + r + 1 < |trace| ==> !trace[|trace| - r - 1].neutral)
  }

  ghost predicate NoRecoveryRun(config: ChallengeConfig, trace: seq<Sample>, e: nat) {
    forall recovery: nat :: e < recovery ==> !RecoveryRun(config, trace, recovery)
  }

  ghost predicate RecoveryExplained(config: ChallengeConfig, trace: seq<Sample>, m: Machine, k: Marks) {
    && FirstNeutral(trace, k.b)
    && (exists first: nat :: k.b < first && ActionRun(config, trace, first, k.e))
    && NoActionRun(config, trace, k.b, k.e)
    && RecoveryTail(trace, k.e, k.r)
    && m.recoveryStreak == Min(k.r, 0xFF)
    && NoRecoveryRun(config, trace, k.e)
  }

  ghost predicate Explained(config: ChallengeConfig, trace: seq<Sample>, m: Machine, k: Marks) {
    match m.phase
    case Baseline => m == NEW_MACHINE && forall i :: 0 <= i < |trace| ==> !trace[i].neutral
    case Action => ActionExplained(config, trace, m, k) && m.recoveryStreak == 0
    case Recovery => RecoveryExplained(config, trace, m, k)
    case Passed => TracePasses(config, trace)
  }

  // Runs that end before the newest sample are runs of the shorter trace.
  lemma RunsOfPrefix(config: ChallengeConfig, trace: seq<Sample>)
    requires trace != []
    ensures forall first: nat, last: nat :: last < |trace| - 1 ==>
              (ActionRun(config, trace, first, last) <==> ActionRun(config, trace[..|trace| - 1], first, last))
    ensures forall recovery: nat :: recovery + config.recoveryConsecutive < |trace| ==>
              (RecoveryRun(config, trace, recovery) <==> RecoveryRun(config, trace[..|trace| - 1], recovery))
  {
  }

  lemma ActionTailGrows(trace: seq<Sample>, b: nat, n: nat)
    requires trace != [] && ActionTail(trace[..|trace| - 1], b, n)
    ensures ActionTail(trace, b, if trace[|trace| - 1].action then n + 1 else 0)
  {
    assert FirstNeutral(trace, b);
  }

  // A tail that is too short or too quick holds no action run.
  lemma ShortTailIsNoRun(config: ChallengeConfig, trace: seq<Sample>, b: nat, n: nat, first: nat)
    requires ActionTail(trace, b, n) && Increasing(trace) && b < first
    requires n == 0 || n < config.actionConsecutive
             || trace[|trace| - 1].timestamp - trace[|trace| - n].timestamp < config.minimumActionDurationMicros
    ensures !ActionRun(config, trace, first, |trace| - 1)
  {
    if first <= |trace| - n - 1 < |trace| && b + n + 1 < |trace| { assert !trace[|trace| - n - 1].action; }
  }

  // The action run goes on, or is broken, without being long enough.
  lemma ActionContinues(config: ChallengeConfig, trace: seq<Sample>, k: Marks) returns (j: Marks)
    requires config.Valid() && trace != [] && Increasing(trace)
    requires Fold(config, trace[..|trace| - 1]).phase.Action? && Fold(config, trace).phase.Action?
    requires Explained(config, trace[..|trace| - 1], Fold(config, trace[..|trace| - 1]), k)
    ensures Explained(config, trace, Fold(config, trace), j)
  {
    j := Marks(k.b, if trace[|trace| - 1].action then k.n + 1 else 0, 0, 0);
    ActionTailGrows(trace, k.b, k.n);
    RunsOfPrefix(config, trace);
    hide FirstNeutral;
    hide ActionRun;
    hide RecoveryRun;
    forall first: nat, last: nat | k.b < first && last < |trace| ensures !ActionRun(config, trace, first, last) {
      if last == |trace| - 1 { ShortTailIsNoRun(config, trace, k.b, j.n, first); }
    }
  }

  // The newest sample completes the first action run.
  lemma ActionCompletes(config: ChallengeConfig, trace: seq<Sample>, k: Marks) returns (j: Marks)
    requires config.Valid() && trace != [] && Increasing(trace)
    requires Fold(config, trace[..|trace| - 1]).phase.Action? && !Fold(config, trace).phase.Action?
    requires Explained(config, trace[..|trace| - 1], Fold(config, trace[..|trace| - 1]), k)
    ensures Explained(config, trace, Fold(config, trace), j)
  {
    RunsOfPrefix(config, trace);
    ActionTailGrows(trace, k.b, k.n);
    j := Marks(k.b, k.n + 1, |trace| - 1, 0);
    assert ActionRun(config, trace, |trace| - (k.n + 1), |trace| - 1);
  }

  lemma ActionStepExplained(config: ChallengeConfig, trace: seq<Sample>, k: Marks) returns (j: Marks)
    requires config.Valid() && trace != [] && Increasing(trace)
    requires Fold(config, trace[..|trace| - 1]).phase.Action?
    requires Explained(config, trace[..|trace| - 1], Fold(config, trace[..|trace| - 1]), k)
    ensures Explained(config, trace, Fold(config, trace), j)
  {
    hide Explained;
    if Fold(config, trace).phase.Action? { j := ActionContinues(config, trace, k); }
    else { j := ActionCompletes(config, trace, k); }
  }

  lemma RecoveryTailGrows(trace: seq<Sample>, e: nat, r: nat)
    requires trace != [] && RecoveryTail(trace[..|trace| - 1], e, r)
    ensures RecoveryTail(trace, e, if trace[|trace| - 1].neutral then r + 1 else 0)
  {
  }

  // A tail shorter than the recovery length holds no recovery run that reaches its end.
  lemma ShortTailIsNoRecovery(config: ChallengeConfig, trace: seq<Sample>, e: nat, r: nat, recovery: nat)
    requires RecoveryTail(trace, e, r) && e < recovery && r < config.recoveryConsecutive
    requires recovery + config.recoveryConsecutive == |trace|
    ensures !RecoveryRun(config, trace, recovery)
  {
    assert recovery <= |trace| - r - 1 < |trace|;
  }

  lemma RecoveryContinues(config: ChallengeConfig, trace: seq<Sample>, k: Marks) returns (j: Marks)
    requires config.Valid() && trace != []
    requires Fold(config, trace[..|trace| - 1]).phase.Recovery? && Fold(config, trace).phase.Recovery?
    requires Explained(config, trace[..|trace| - 1], Fold(config, trace[..|trace| - 1]), k)
    ensures Explained(config, trace, Fold(config, trace), j)
  {
    var before := trace[..|trace| - 1];
    RunsOfPrefix(config, trace);
    assert FirstNeutral(trace, k.b);
    var first: nat :| k.b < first && ActionRun(config, before, first, k.e);
    assert ActionRun(config, trace, first, k.e);
    j := k.(r := if trace[|trace| - 1].neutral then k.r + 1 else 0);
    RecoveryTailGrows(trace, k.e, k.r);
    hide ActionRun;
    forall recovery: nat | k.e < recovery ensures !RecoveryRun(config, trace, recovery) {
      if recovery + config.recoveryConsecutive == |trace| { ShortTailIsNoRecovery(config, trace, k.e, j.r, recovery); }
    }
  }

  lemma RecoveryCompletes(config: ChallengeConfig, trace: seq<Sample>, k: Marks)
    requires config.Valid() && trace != []
    requires Fold(config, trace[..|trace| - 1]).phase.Recovery? && Fold(config, trace).phase.Passed?
    requires Explained(config, trace[..|trace| - 1], Fold(config, trace[..|trace| - 1]), k)
    ensures TracePasses(config, trace)
  {
    RunsOfPrefix(config, trace);
    assert FirstNeutral(trace, k.b);
    var first: nat :| k.b < first && ActionRun(config, trace[..|trace| - 1], first, k.e);
    assert ActionRun(config, trace, first, k.e);
    RecoveryTailGrows(trace, k.e, k.r);
    assert RecoveryRun(config, trace, |trace| - config.recoveryConsecutive);
  }

  lemma RecoveryStepExplained(config: ChallengeConfig, trace: seq<Sample>, k: Marks) returns (j: Marks)
    requires config.Valid() && trace != []
    requires Fold(config, trace[..|trace| - 1]).phase.Recovery?
    requires Explained(config, trace[..|trace| - 1], Fold(config, trace[..|trace| - 1]), k)
    ensures Explained(config, trace, Fold(config, trace), j)
  {
    if Fold(config, trace).phase.Recovery? {
      j := RecoveryContinues(config, trace, k);
    } else {
      RecoveryCompletes(config, trace, k);
      j := k;
    }
  }

  lemma PassSurvivesExtension(config: ChallengeConfig, trace: seq<Sample>)
    requires trace != [] && TracePasses(config, trace[..|trace| - 1])
    ensures TracePasses(config, trace)
  {
    var before := trace[..|trace| - 1];
    var b: nat, first: nat, last: nat, recovery: nat :|
      b < first && last < recovery && b < |before| && before[b].neutral
      && ActionRun(config, before, first, last) && RecoveryRun(config, before, recovery);
    assert ActionRun(config, trace, first, last) && RecoveryRun(config, trace, recovery);
  }

  lemma {:induction false} FoldExplained(config: ChallengeConfig, trace: seq<Sample>) returns (k: Marks)
    requires config.Valid() && Increasing(trace)
    ensures Explained(config, trace, Fold(config, trace), k)
    decreases |trace|
  {
    k := Marks(0, 0, 0, 0);
    if trace != [] {
      var before := trace[..|trace| - 1];
      k := FoldExplained(config, before);
      match Fold(config, before).phase
      case Baseline =>
        if trace[|trace| - 1].neutral {
          k := Marks(|trace| - 1, 0, 0, 0);
        }
      case Action => k := ActionStepExplained(config, trace, k);
      case Recovery => k := RecoveryStepExplained(config, trace, k);
      case Passed => PassSurvivesExtension(config, trace);
    }
  }

  // The challenge is passed after exactly those traces that contain the three parts in order.
  lemma PassedIffTracePasses(config: ChallengeConfig, trace: seq<Sample>)
    requires config.Valid() && Increasing(trace)
    ensures Fold(config, trace).phase.Passed? <==> TracePasses(config, trace)
  {
    var k := FoldExplained(config, trace);
    if TracePasses(config, trace) {
      var b: nat, first: nat, last: nat, recovery: nat :|
        b < first && last < recovery && b < |trace| && trace[b].neutral
        && ActionRun(config, trace, first, last) && RecoveryRun(config, trace, recovery);
      assert !Fold(config, trace).phase.Baseline?;
    }
  }

  // ---------------------------------------------------------------- which configurations can be passed

  ghost predicate Admissible(config: ChallengeConfig, issued: u64, trace: seq<Sample>) {
    && Increasing(trace)
    && |trace| <= config.maxObservations
    && forall i :: 0 <= i < |trace| ==> issued <= trace[i].timestamp <= issued + config.durationMicros
  }

  lemma AdmissibleExtension(config: ChallengeConfig, issued: u64, trace: seq<Sample>, x: Sample)
    requires Admissible(config, issued, trace) && |trace| < config.maxObservations
    requires issued <= x.timestamp <= issued + config.durationMicros
    requires trace != [] ==> trace[|trace| - 1].timestamp < x.timestamp
    ensures Admissible(config, issued, trace + [x])
  {
    forall i | 0 <= i < |trace| ensures trace[i].timestamp < x.timestamp {
      if i < |trace| - 1 { assert trace[i].timestamp < trace[|trace| - 1].timestamp; }
    }
  }

  lemma FoldAppend(config: ChallengeConfig, trace: seq<Sample>, x: Sample)
    ensures Fold(config, trace + [x]) == Step(config, Fold(config, trace), x)
  {
    assert (trace + [x])[..|trace|] == trace;
  }

  lemma {:induction false} GapAtLeast(trace: seq<Sample>, i: nat, j: nat)
    requires Increasing(trace) && i <= j < |trace|
    ensures trace[j].timestamp - trace[i].timestamp >= j - i
    decreases j - i
  {
    if i < j { GapAtLeast(trace, i, j - 1); }
  }

  // The quickest passing trace: baseline at once, the action held for exactly its minimum time.
  function QuickestSample(config: ChallengeConfig, issued: u64, i: nat): (x: Sample)
    requires config.Valid() && issued + config.durationMicros <= MAX_U64
    requires i < 1 + config.actionConsecutive + config.recoveryConsecutive
    requires config.minimumActionDurationMicros + config.recoveryConsecutive + 1 <= config.durationMicros
  {
    var a := config.actionConsecutive;
    if i == 0 then Sample(issued, true, false)
    else if i < a then Sample(issued + i, false, true)
    else if i == a then Sample(issued + 1 + config.minimumActionDurationMicros, false, true)
    else Sample(issued + 1 + config.minimumActionDurationMicros + (i - a), true, false)
  }

  lemma QuickestTracePasses(config: ChallengeConfig, issued: u64) returns (trace: seq<Sample>)
    requires config.Valid() && issued + config.durationMicros <= MAX_U64
    requires config.minimumActionDurationMicros + config.recoveryConsecutive + 1 <= config.durationMicros
    ensures Admissible(config, issued, trace) && TracePasses(config, trace)
  {
    var a: nat, r: nat := config.actionConsecutive, config.recoveryConsecutive;
    trace := seq(1 + a + r, i requires 0 <= i < 1 + a + r => QuickestSample(config, issued, i));
    assert ActionRun(config, trace, 1, a) && RecoveryRun(config, trace, a + 1);
    assert trace[0].neutral;
  }

  // No admissible trace passes any sooner.
  lemma PassingTakesTime(config: ChallengeConfig, issued: u64, trace: seq<Sample>)
    requires Admissible(config, issued, trace) && TracePasses(config, trace)
    ensures trace != []
    ensures trace[|trace| - 1].timestamp >= issued + 1 + config.minimumActionDurationMicros + config.recoveryConsecutive
  {
    var b: nat, first: nat, last: nat, recovery: nat :|
      b < first && last < recovery && b < |trace| && trace[b].neutral
      && ActionRun(config, trace, first, last) && RecoveryRun(config, trace, recovery);
    GapAtLeast(trace, b, first);
    var end := recovery + config.recoveryConsecutive - 1;
    GapAtLeast(trace, last, end);
    GapAtLeast(trace, end, |trace| - 1);
  }

  // Validation asks only that the action fit inside the challenge, but the baseline before it and
  // the recovery after it take time too: a validated challenge can be passed by some admissible
  // trace exactly when it leaves one microsecond for the baseline and one per recovery sample.
  lemma PassableIffTimeIsLeft(config: ChallengeConfig, issued: u64)
    requires config.Valid() && issued + config.durationMicros <= MAX_U64
    ensures (exists trace :: Admissible(config, issued, trace) && TracePasses(config, trace)) <==>
              config.minimumActionDurationMicros + config.recoveryConsecutive + 1 <= config.durationMicros
  {
    if config.minimumActionDurationMicros + config.recoveryConsecutive + 1 <= config.durationMicros {
      var trace := QuickestTracePasses(config, issued);
    }
    if trace: seq<Sample> :| Admissible(config, issued, trace) && TracePasses(config, trace) {
      PassingTakesTime(config, issued, trace);
    }
  }

  // A configuration that validation accepts and that nobody can pass.
  lemma SomeValidChallengeCannotBePassed(issued: u64)
    requires issued + 1_000_000 <= MAX_U64
    ensures exists config: ChallengeConfig ::
              && config.Valid() && config.durationMicros == 1_000_000
              && forall trace :: Admissible(config, issued, trace) ==> !TracePasses(config, trace)
  {
    var config := ChallengeConfig(100_000, 1_000_000, 90, 0.65, 0.25, 10.0, 20.0, 2, 999_999, 2);
    PassableIffTimeIsLeft(config, issued);
    assert config.Valid();
  }

  // ---------------------------------------------------------------- the session as a value

  // What a session remembers: the accepted samples, the frames of the last of them, and the budget used.
  datatype ChallengeState = ChallengeState(
    config: ChallengeConfig, action: ChallengeAction, issued: u64, observations: u16,
    sequences: Option<(u32, u32)>, trace: seq<Sample>)
  {
    function Phase(): (p: Phase) { Fold(config, trace).phase }

    ghost predicate Valid() {
      && config.Valid() && issued + config.durationMicros <= MAX_U64
      && Admissible(config, issued, trace)
      && |trace| == Min(observations, config.maxObservations)
      && (sequences.Some? <==> trace != [])
    }
  }

  function ProgressOf(phase: Phase, action: ChallengeAction): (p: ChallengeProgress) {
    match phase
    case Baseline => BaselineRequired
    case Action => ActionRequired(action)
    case Recovery => RecoveryRequired
    case Passed => ChallengePassed
  }

  function Begun(config: ChallengeConfig, issued: u64, action: Option<ChallengeAction>)
    : (r: Result<ChallengeState, ChallengeError>)
  {
    if action.None? then Failure(Random)
    else if !config.Valid() then Failure(InvalidConfig)
    else if issued + config.durationMicros > MAX_U64 then Failure(DeadlineOverflow)
    else Success(ChallengeState(config, action.value, issued, 0, None, []))
  }

  // The frame pair and its measurements are usable at all.
  predicate Measured(config: ChallengeConfig, o: ChallengeObservation) {
    && o.timing.visibleTimestampMicros.Some?
    && AbsDiff(o.timing.infraredTimestampMicros, o.timing.visibleTimestampMicros.value) <= config.maxPairSkewMicros
    && o.faceCount == 1
    && 0.0 <= o.eyeOpenness <= 1.0
    && -90.0 <= o.yawDegrees <= 90.0
  }

  function MeasurementError(config: ChallengeConfig, o: ChallengeObservation): (e: ChallengeError) {
    if o.timing.visibleTimestampMicros.None?
       || AbsDiff(o.timing.infraredTimestampMicros, o.timing.visibleTimestampMicros.value) > config.maxPairSkewMicros
    then InvalidFramePair
    else if o.faceCount != 1 then SingleFaceRequired(o.faceCount)
    else InvalidMeasurement
  }

  // The observation shares a camera frame with the last accepted one.
  predicate Repeats(s: ChallengeState, o: ChallengeObservation) {
    s.sequences.Some?
    && (s.sequences.value.0 == o.infraredSequence || s.sequences.value.1 == o.visibleSequence)
  }

  // Why an observation is refused, in the order the checks are made.
  function Refusal(s: ChallengeState, o: ChallengeObservation, cancelled: bool): (e: Option<ChallengeError>) {
    if cancelled then Some(Cancelled)
    else if s.Phase().Passed? then Some(AlreadyCompleted)
    else if !Measured(s.config, o) then Some(MeasurementError(s.config, o))
    else if Timestamp(o) < s.issued then Some(PredatesChallenge)
    else if Timestamp(o) > s.issued + s.config.durationMicros then Some(Expired)
    else if s.trace != [] && Timestamp(o) <= s.trace[|s.trace| - 1].timestamp then Some(NonIncreasingTimestamp)
    else if Repeats(s, o) then Some(RepeatedCameraFrame)
    else if s.observations >= s.config.maxObservations then Some(ObservationBudgetExhausted)
    else None
  }

  function After(s: ChallengeState, o: ChallengeObservation, cancelled: bool): (t: ChallengeState) {
    match Refusal(s, o, cancelled)
    case None =>
      s.(observations := if s.observations == MAX_U16 then MAX_U16 else s.observations + 1,
         sequences := Some((o.infraredSequence, o.visibleSequence)),
         trace := s.trace + [SampleOf(s.config, s.action, o)])
    case Some(ObservationBudgetExhausted) => s.(observations := Min(s.observations + 1, MAX_U16))
    case Some(_) => s
  }

  lemma ObservationKeepsValid(s: ChallengeState, o: ChallengeObservation, cancelled: bool)
    requires s.Valid()
    ensures After(s, o, cancelled).Valid()
  {
    if Refusal(s, o, cancelled).None? {
      AdmissibleExtension(s.config, s.issued, s.trace, SampleOf(s.config, s.action, o));
    }
  }

  // Both frames exist, their times differ by at most the skew, and one face was measured in range.
  predicate Usable(config: ChallengeConfig, o: ChallengeObservation) {
    && o.timing.visibleTimestampMicros.Some?
    && o.timing.infraredTimestampMicros <= o.timing.visibleTimestampMicros.value + config.maxPairSkewMicros
    && o.timing.visibleTimestampMicros.value <= o.timing.infraredTimestampMicros + config.maxPairSkewMicros
    && o.faceCount == 1 && 0.0 <= o.eyeOpenness && o.eyeOpenness <= 1.0
    && -90.0 <= o.yawDegrees && o.yawDegrees <= 90.0
  }

  // One of the pair's frames is later than the given moment, and neither is past the window's end.
  predicate InTime(s: ChallengeState, o: ChallengeObservation)
    requires o.timing.visibleTimestampMicros.Some?
  {
    var ir, rgb := o.timing.infraredTimestampMicros, o.timing.visibleTimestampMicros.value;
    && (ir >= s.issued || rgb >= s.issued)
    && ir <= s.issued + s.config.durationMicros && rgb <= s.issued + s.config.durationMicros
    && forall k :: 0 <= k < |s.trace| ==> ir > s.trace[k].timestamp || rgb > s.trace[k].timestamp
  }

  // A challenge counts exactly the usable, timely pairs of new frames it still has room for, while it is
  // open; and then it remembers that pair and the sample read from it.
  lemma ObservationsAreJudged(s: ChallengeState, o: ChallengeObservation, cancelled: bool)
    requires s.Valid()
    ensures Refusal(s, o, cancelled).None? <==>
              && !cancelled && !s.Phase().Passed? && Usable(s.config, o) && InTime(s, o)
              && (s.sequences.Some? ==>
                    s.sequences.value.0 != o.infraredSequence && s.sequences.value.1 != o.visibleSequence)
              && s.observations + 1 <= s.config.maxObservations
    ensures After(s, o, cancelled).trace != s.trace <==> Refusal(s, o, cancelled).None?
    ensures var t := After(s, o, cancelled);
            t.trace != s.trace ==>
              && t.trace[..|s.trace|] == s.trace && t.observations == s.observations + 1
              && t.sequences == Some((o.infraredSequence, o.visibleSequence))
              && t.trace[|s.trace|] == SampleOf(s.config, s.action, o)
    // No face is at once the neutral one and the one asked for.
    ensures Usable(s.config, o) ==> !(SampleOf(s.config, s.action, o).neutral && SampleOf(s.config, s.action, o).action)
  {
    assert s.config.maxObservations <= 300;
    hide Fold;
  }

  // The fault a refusal names is there.
  lemma RefusalsAreDeserved(s: ChallengeState, o: ChallengeObservation, cancelled: bool)
    requires s.Valid()
    ensures var visible, ir := o.timing.visibleTimestampMicros, o.timing.infraredTimestampMicros;
            match Refusal(s, o, cancelled)
            case None => true
            case Some(Cancelled) => cancelled
            case Some(AlreadyCompleted) => s.Phase().Passed?
            case Some(InvalidFramePair) =>
              || visible.None? || ir > visible.value + s.config.maxPairSkewMicros
              || visible.value > ir + s.config.maxPairSkewMicros
            case Some(SingleFaceRequired(faces)) => faces == o.faceCount != 1
            case Some(InvalidMeasurement) =>
              o.eyeOpenness < 0.0 || o.eyeOpenness > 1.0 || o.yawDegrees < -90.0 || o.yawDegrees > 90.0
            case Some(PredatesChallenge) => ir < s.issued && visible.Some? && visible.value < s.issued
            case Some(Expired) =>
              ir > s.issued + s.config.durationMicros
              || (visible.Some? && visible.value > s.issued + s.config.durationMicros)
            case Some(NonIncreasingTimestamp) =>
              s.trace != [] && ir <= s.trace[|s.trace| - 1].timestamp
              && visible.Some? && visible.value <= s.trace[|s.trace| - 1].timestamp
            case Some(RepeatedCameraFrame) =>
              s.sequences.Some?
              && (s.sequences.value.0 == o.infraredSequence || s.sequences.value.1 == o.visibleSequence)
            case Some(ObservationBudgetExhausted) => s.observations >= s.config.maxObservations
            case Some(_) => false
  {
    hide Fold;
    hide ChallengeConfig.Valid;
    hide Admissible;
  }

  // ---------------------------------------------------------------- the session object

  class ChallengeSession {
    const config: ChallengeConfig
    const action: ChallengeAction
    const issuedAtMicros: u64
    const deadlineMicros: u64
    var observations: u16
    var lastTimestampMicros: Option<u64>
    var lastSequences: Option<(u32, u32)>
    var phase: Phase
    var actionStreak: u8
    var actionStreakStartedAtMicros: Option<u64>
    var recoveryStreak: u8
    ghost var trace: seq<Sample>   // the accepted observations, in order

    ghost predicate Valid()
      reads this
    {
      && config.Valid()
      && deadlineMicros == issuedAtMicros + config.durationMicros
      && Admissible(config, issuedAtMicros, trace)
      && |trace| == Min(observations, config.maxObservations)
      && Machine(phase, actionStreak, actionStreakStartedAtMicros, recoveryStreak) == Fold(config, trace)
      && lastTimestampMicros == (if trace == [] then None else Some(trace[|trace| - 1].timestamp))
      && (lastSequences.Some? <==> trace != [])
    }

    constructor (config: ChallengeConfig, action: ChallengeAction, issued: u64)
      requires config.Valid() && issued + config.durationMicros <= MAX_U64
      ensures Valid() && trace == [] && observations == 0
      ensures this.config == config && this.action == action && issuedAtMicros == issued
    {
      this.config, this.action, issuedAtMicros := config, action, issued;
      deadlineMicros := issued + config.durationMicros;
      observations, lastTimestampMicros, lastSequences := 0, None, None;
      phase, actionStreak, actionStreakStartedAtMicros, recoveryStreak := Baseline, 0, None, 0;
      trace := [];
    }

    // `action` is what the random source produced, if it produced anything.
    static method Begin(config: ChallengeConfig, issued: u64, action: Option<ChallengeAction>)
      returns (r: Result<ChallengeSession, ChallengeError>)
      ensures r.Success? <==> action.Some? && config.Valid() && issued + config.durationMicros <= MAX_U64
      ensures r.Success? || r == Failure(DeadlineOverflow) <==>
                && action.Some? && config.maxPairSkewMicros >= 1
                && 1_000_000 <= config.durationMicros && config.durationMicros <= 30_000_000
                && config.minimumActionDurationMicros < config.durationMicros
                && 20_000 <= config.minimumActionDurationMicros && config.minimumActionDurationMicros <= 2_000_000
                && 3 <= config.maxObservations && config.maxObservations <= 300
                && 2 <= config.actionConsecutive && config.actionConsecutive <= 15
                && 2 <= config.recoveryConsecutive && config.recoveryConsecutive <= 15
                && config.actionConsecutive + config.recoveryConsecutive < config.maxObservations
                && 0.0 <= config.closedEyeThreshold && config.closedEyeThreshold < config.openEyeThreshold
                && config.openEyeThreshold <= 1.0
                && 0.0 <= config.neutralYawDegrees && config.neutralYawDegrees <= 45.0
                && 5.0 <= config.turnYawDegrees && config.turnYawDegrees <= 75.0
                && config.neutralYawDegrees < config.turnYawDegrees
      ensures r.Success? ==> fresh(r.value) && r.value.Valid() && r.value.trace == [] && r.value.observations == 0
      ensures r.Success? ==>
                r.value.config == config && r.value.action == action.value && r.value.issuedAtMicros == issued
      ensures r.Success? ==> Begun(config, issued, action) == Success(r.value.State())
      ensures r.Failure? ==> Begun(config, issued, action) == Failure(r.error)
    {
      if action.None? { return Failure(Random); }
      if !config.Valid() { return Failure(InvalidConfig); }
      if issued + config.durationMicros > MAX_U64 { return Failure(DeadlineOverflow); }
      var session := new ChallengeSession(config, action.value, issued);
      r := Success(session);
    }

    function Progress(): (p: ChallengeProgress)
      reads this
    {
      ProgressOf(phase, action)
    }

    predicate WellMeasured(o: ChallengeObservation) { Measured(config, o) }

    ghost function State(): (s: ChallengeState)
      reads this
    {
      ChallengeState(config, action, issuedAtMicros, observations, lastSequences, trace)
    }

    // The observation is later than everything accepted, inside the window, and from new frames.
    predicate Fresh(o: ChallengeObservation)
      requires o.timing.visibleTimestampMicros.Some?
      reads this
    {
      && issuedAtMicros <= Timestamp(o) <= deadlineMicros
      && (lastTimestampMicros.Some? ==> lastTimestampMicros.value < Timestamp(o))
      && (lastSequences.Some? ==>
            lastSequences.value.0 != o.infraredSequence && lastSequences.value.1 != o.visibleSequence)
    }

    method Validate(o: ChallengeObservation) returns (r: Result<Unit, ChallengeError>)
      requires config.maxPairSkewMicros != 0
      ensures r == if WellMeasured(o) then Success(Unit.Unit) else Failure(MeasurementError(config, o))
    {
      if o.timing.visibleTimestampMicros.None?
         || AbsDiff(o.timing.infraredTimestampMicros, o.timing.visibleTimestampMicros.value)
            > config.maxPairSkewMicros {
        return Failure(InvalidFramePair);
      }
      if o.faceCount != 1 { return Failure(SingleFaceRequired(o.faceCount)); }
      if !(0.0 <= o.eyeOpenness <= 1.0) || !(-90.0 <= o.yawDegrees <= 90.0) {
        return Failure(InvalidMeasurement);
      }
      r := Success(Unit.Unit);
    }

    // `cancelled` is the one answer of the cancellation callback.
    method ObserveCancellable(o: ChallengeObservation, cancelled: bool)
      returns (r: Result<ChallengeProgress, ChallengeError>)
      requires Valid()
      modifies this
      ensures Valid()
      // Accepted exactly when the call is live, the challenge open, the pair usable and fresh, and
      // the budget not spent.
      ensures r.Success? <==>
                && !cancelled && !old(phase).Passed? && WellMeasured(o) && old(Fresh(o))
                && old(observations) < config.maxObservations
      ensures r.Success? ==>
                && trace == old(trace) + [SampleOf(config, action, o)]
                && observations == old(observations) + 1
                && lastSequences == Some((o.infraredSequence, o.visibleSequence))
                && r.value == Progress()
      // Anything else changes at most the budget counter.
      ensures r.Failure? ==>
                && unchanged(`trace, `phase, `actionStreak, `actionStreakStartedAtMicros, `recoveryStreak)
                && unchanged(`lastTimestampMicros, `lastSequences)
                && observations == (if r.error.ObservationBudgetExhausted? then Min(old(observations) + 1, MAX_U16)
                                    else old(observations))
      // Which check refused, and what the call leaves behind.
      ensures r == match Refusal(old(State()), o, cancelled) case None => Success(Progress()) case Some(e) => Failure(e)
      ensures State() == After(old(State()), o, cancelled)
    {
      if cancelled { return Failure(Cancelled); }
      if phase.Passed? { return Failure(AlreadyCompleted); }
      var valid := Validate(o);
      if valid.Failure? { return Failure(valid.error); }
      var timestamp := Timestamp(o);
      if timestamp < issuedAtMicros { return Failure(PredatesChallenge); }
      if timestamp > deadlineMicros { return Failure(Expired); }
      if lastTimestampMicros.Some? && timestamp <= lastTimestampMicros.value {
        return Failure(NonIncreasingTimestamp);
      }
      if lastSequences.Some?
         && (lastSequences.value.0 == o.infraredSequence || lastSequences.value.1 == o.visibleSequence) {
        return Failure(RepeatedCameraFrame);
      }
      if observations == MAX_U16 { return Failure(ObservationBudgetExhausted); }
      if observations + 1 > config.maxObservations {
        observations := observations + 1;
        return Failure(ObservationBudgetExhausted);
      }
      Accept(o, timestamp);
      r := Success(Progress());
    }

    // The tail of an accepted call: count it, remember it, and move the machine one step.
    method Accept(o: ChallengeObservation, timestamp: u64)
      requires Valid() && !phase.Passed? && WellMeasured(o) && Fresh(o)
      requires timestamp == Timestamp(o) && observations < config.maxObservations
      modifies this
      ensures Valid()
      ensures trace == old(trace) + [SampleOf(config, action, o)]
      ensures observations == old(observations) + 1
      ensures lastSequences == Some((o.infraredSequence, o.visibleSequence))
    {
      ghost var before, x := trace, SampleOf(config, action, o);
      AdmissibleExtension(config, issuedAtMicros, before, x);
      FoldAppend(config, before, x);
      assert x.timestamp == timestamp && o.timing.visibleTimestampMicros.Some?;
      hide Admissible;
      observations := observations + 1;
      lastTimestampMicros := Some(timestamp);
      lastSequences := Some((o.infraredSequence, o.visibleSequence));
      Advance(o, timestamp);
      trace := before + [x];
    }

    method Advance(o: ChallengeObservation, timestamp: u64)
      requires o.timing.visibleTimestampMicros.Some? && timestamp == Timestamp(o) && !phase.Passed?
      modifies `phase, `actionStreak, `actionStreakStartedAtMicros, `recoveryStreak
      ensures Counters() == Step(config, old(Counters()), SampleOf(config, action, o))
    {
      var neutral := o.eyeOpenness >= config.openEyeThreshold && Abs(o.yawDegrees) <= config.neutralYawDegrees;
      match phase {
        case Baseline => if neutral { phase := Action; }
        case Action => ObserveAction(o, timestamp);
        case Recovery => ObserveRecovery(neutral);
      }
    }

    ghost function Counters(): Machine
      reads this
    {
      Machine(phase, actionStreak, actionStreakStartedAtMicros, recoveryStreak)
    }

    method ObserveAction(o: ChallengeObservation, timestamp: u64)
      requires o.timing.visibleTimestampMicros.Some? && timestamp == Timestamp(o) && phase.Action?
      modifies `phase, `actionStreak, `actionStreakStartedAtMicros, `recoveryStreak
      ensures Counters() == Step(config, old(Counters()), SampleOf(config, action, o))
    {
      if !ActionObserved(o) {
        actionStreak, actionStreakStartedAtMicros := 0, None;
        return;
      }
      if actionStreakStartedAtMicros.None? { actionStreakStartedAtMicros := Some(timestamp); }
      var started := actionStreakStartedAtMicros.value;
      actionStreak := SaturatingIncrement(actionStreak);
      if actionStreak >= config.actionConsecutive
         && SaturatingSub(timestamp, started) >= config.minimumActionDurationMicros {
        phase, recoveryStreak := Recovery, 0;
      }
    }

    method ObserveRecovery(neutral: bool)
      requires phase.Recovery?
      modifies `phase, `recoveryStreak
      ensures forall x: Sample :: x.neutral == neutral ==> Counters() == Step(config, old(Counters()), x)
    {
      if !neutral {
        recoveryStreak := 0;
        return;
      }
      recoveryStreak := SaturatingIncrement(recoveryStreak);
      if recoveryStreak >= config.recoveryConsecutive { phase := Passed; }
    }

    predicate ActionObserved(o: ChallengeObservation) {
      match action
      case Blink => o.eyeOpenness <= config.closedEyeThreshold
      case TurnLeft => o.yawDegrees <= -config.turnYawDegrees
      case TurnRight => o.yawDegrees >= config.turnYawDegrees
    }
  }

  // A session's fields are the fold and the last time of its accepted trace.
  lemma FieldsFollowTheTrace(session: ChallengeSession)
    requires session.Valid()
    ensures session.State().Valid()
    ensures session.phase == Fold(session.config, session.trace).phase
    ensures session.lastTimestampMicros ==
            if session.trace == [] then None else Some(session.trace[|session.trace| - 1].timestamp)
  {
  }

  // Any session that reports a pass has accepted a trace that passes, and conversely.
  lemma SessionPassedIffTracePasses(session: ChallengeSession)
    requires session.Valid()
    ensures session.phase.Passed? <==> TracePasses(session.config, session.trace)
    ensures session.Progress().ChallengePassed? <==> TracePasses(session.config, session.trace)
  {
    PassedIffTracePasses(session.config, session.trace);
  }
}
