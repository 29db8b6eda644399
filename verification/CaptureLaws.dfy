// What every round of the capture loop keeps, and what holds however a session ends.
module CaptureLaws {
  import opened Wrappers
  import opened Protocol
  import opened ObservationTypes
  import opened CaptureLoop
  import L = Liveness

  // Challenge errors the loop can never see.
  predicate Unreachable(e: L.ChallengeError) {
    e.NonIncreasingTimestamp? || e.PredatesChallenge? || e.AlreadyCompleted? || e.SingleFaceRequired?
    || e.VisibleFrameRequired? || e.InvalidConfig?
  }

  ghost predicate Ascending(consumed: seq<DerivedObservation>) {
    forall i, j :: 0 <= i < j < |consumed| ==> consumed[i].completedAt < consumed[j].completedAt
  }

  // A progress callback that refuses every call from the `cap`-th on.
  ghost predicate SilentFrom(listens: nat -> Option<ObservationFailure>, cap: nat) {
    forall k: nat :: cap <= k ==> listens(k).Some?
  }

  // Every pair the cameras deliver is later than `time`.
  ghost predicate CapturedAfter<T>(w: World<T>, time: u64) {
    forall k: nat :: w.pairs(k).Some? ==> time < w.pairs(k).value.infraredTime && time < w.pairs(k).value.visibleTime
  }

  function LastTime(c: L.ChallengeState): (t: u64)
    requires c.trace != []
  {
    c.trace[|c.trace| - 1].timestamp
  }

  // No more is announced than the callback admits.
  ghost predicate Counted<T>(w: World<T>, s: LoopState) {
    |s.emitted| <= s.announced && forall cap: nat :: SilentFrom(w.listens, cap) ==> |s.emitted| <= cap
  }

  // Every phase of the challenge has been announced, and every consumed observation twice.
  ghost predicate Narrated(s: LoopState) {
    if s.challenge.None? then |s.emitted| >= 1 && s.lastProgress.None?
    else
      var c := s.challenge.value;
      match c.Phase()
      case Baseline => |s.emitted| >= 1 && (s.lastProgress.None? || s.lastProgress == Some(HoldStill))
      case Action => |s.emitted| >= 2 && s.lastProgress == Some(PublicProgress(L.ActionRequired(c.action)))
      case Recovery => |s.emitted| >= 3 && s.lastProgress == Some(ReturnToCenter)
      case Passed => |s.emitted| >= 3 + 2 * |s.consumed|
  }

  // The consumer has asked for more after each of its observations.
  ghost predicate AskedOn<T>(w: World<T>, consumed: seq<DerivedObservation>) {
    forall k :: 1 <= k <= |consumed| ==> w.consume(consumed[..k]) == Success(Continue)
  }

  ghost predicate ChallengeSound<T>(w: World<T>, s: LoopState) {
    s.challenge.Some? ==>
      && s.challenge.value.Valid() && s.challenge.value.config == w.config && s.challenge.value.trace != []
      && s.previous.Some? && s.challenge.value.issued <= s.previous.value.timestamp
      && forall time: u64 :: CapturedAfter(w, time) ==> time < s.challenge.value.issued
  }

  // The pair the challenge passed on is the first the consumer may see.
  ghost predicate PassedFirst(s: LoopState) {
    s.consumed != [] ==>
      s.Passed() && s.challenge.value.trace != [] && LastTime(s.challenge.value) <= s.consumed[0].completedAt
  }

  ghost predicate Common<T>(w: World<T>, s: LoopState) {
    && w.config.Valid() && s.captures <= MaximumCaptures(w.config) && |s.consumed| < MAX_DERIVED_OBSERVATION_ATTEMPTS
    && s.refusal.None? && Ascending(s.consumed) && AskedOn(w, s.consumed)
    && Counted(w, s) && Narrated(s) && ChallengeSound(w, s) && PassedFirst(s)
  }

  // Between rounds: nothing is later than the last pair, and unless a pair was skipped since, that pair
  // is the last the challenge accepted.
  ghost predicate Settled(s: LoopState) {
    && (s.challenge.Some? && s.challenge.value.trace != [] ==>
          s.previous.Some? && LastTime(s.challenge.value) <= s.previous.value.timestamp)
    && (s.consumed != [] ==>
          s.previous.Some? && s.consumed[|s.consumed| - 1].completedAt <= s.previous.value.timestamp)
    && (s.challenge.Some? && !s.Passed() && s.skipped == 0 && s.previous.Some? ==>
          s.challenge.value.sequences == Some((s.previous.value.infraredSequence, s.previous.value.visibleSequence)))
  }

  // Just after a capture: the new pair is later than everything, and repeats no frame of the last
  // accepted pair unless a pair was skipped since.
  ghost predicate Advancing(s: LoopState) {
    && s.previous.Some?
    && (s.challenge.Some? && s.challenge.value.trace != [] ==>
          LastTime(s.challenge.value) < s.previous.value.timestamp)
    && (s.consumed != [] ==> s.consumed[|s.consumed| - 1].completedAt < s.previous.value.timestamp)
    && (s.challenge.Some? && !s.Passed() && s.skipped == 0 && s.challenge.value.sequences.Some? ==>
          && s.challenge.value.sequences.value.0 != s.previous.value.infraredSequence
          && s.challenge.value.sequences.value.1 != s.previous.value.visibleSequence)
  }

  ghost predicate Running<T>(w: World<T>, s: LoopState) {
    Common(w, s) && Settled(s)
  }

  // What holds however the loop ends.
  ghost predicate Facts<T>(w: World<T>, s: LoopState) {
    && s.captures <= 2 * w.config.maxObservations + 32 && |s.consumed| <= 32
    && Counted(w, s) && Ascending(s.consumed)
    && (s.consumed != [] ==>
          && s.challenge.Some? && s.challenge.value.Valid() && s.challenge.value.config == w.config
          && (forall time: u64 :: CapturedAfter(w, time) ==> time < s.challenge.value.issued)
          && L.TracePasses(w.config, s.challenge.value.trace)
          && s.challenge.value.trace != [] && LastTime(s.challenge.value) <= s.consumed[0].completedAt
          && |s.emitted| >= 2 * |s.consumed| + 2)
    && (s.refusal.Some? ==> !Unreachable(s.refusal.value))
    && (s.refusal == Some(L.RepeatedCameraFrame) ==> s.skipped > 0)
  }

  // The session succeeded on the consumer's own word, given after its last observation and not before.
  ghost predicate Broke<T>(w: World<T>, s: LoopState, value: T) {
    && s.consumed != [] && w.consume(s.consumed) == Success(Break(value))
    && AskedOn(w, s.consumed[..|s.consumed| - 1])
  }

  // ---------------------------------------------------------------- one round

  lemma AnnouncingIsCounted<T>(w: World<T>, s: LoopState, code: ProgressCode)
    requires Counted(w, s)
    ensures Counted(w, Announced(w, s, code))
  {
    forall cap: nat | SilentFrom(w.listens, cap) ensures |Announced(w, s, code).emitted| <= cap {
      if cap <= s.announced { assert w.listens(s.announced).Some?; }
    }
  }

  lemma PassedHasFacts<T>(w: World<T>, s: LoopState)
    requires Common(w, s)
    ensures Facts(w, s)
  {
    if s.consumed != [] { L.PassedIffTracePasses(w.config, s.challenge.value.trace); }
  }

  // A capture changes the captures, the polls and the last pair alone.
  lemma CaptureKeeps<T>(w: World<T>, s: LoopState)
    requires Running(w, s)
    ensures Captured(w, s).1.Failure? ==> Facts(w, Captured(w, s).0)
    ensures Captured(w, s).1.Success? ==> Common(w, Captured(w, s).0) && Advancing(Captured(w, s).0)
    ensures Captured(w, s).1.Success? ==>
              && w.pairs(s.captures) == Some(Captured(w, s).1.value)
              && Captured(w, s).0.previous == Some(IdentityOf(Captured(w, s).1.value))
  {
    hide L.TracePasses;
    hide L.ChallengeState.Valid;
    hide L.Fold;
    hide AskedOn;
    hide Ascending;
    hide SilentFrom;
    hide CapturedAfter;
    hide IdentityOf;
    PassedHasFacts(w, s);
    assert Counted(w, Captured(w, s).0) && Narrated(Captured(w, s).0);
    hide Counted;
    hide Narrated;
  }

  // A machine moves at most one phase per accepted observation.
  predicate PhaseMoved(before: L.Phase, after: L.Phase) {
    || after == before
    || (before.Baseline? && after.Action?) || (before.Action? && after.Recovery?) || (before.Recovery? && after.Passed?)
  }

  // The state is ready to show `pair` to the challenge `c`.
  ghost predicate Showable(c: L.ChallengeState, pair: CapturedPair, skipped: nat) {
    && c.Valid() && !c.Phase().Passed? && c.issued <= IdentityOf(pair).timestamp
    && (c.trace != [] ==> LastTime(c) < IdentityOf(pair).timestamp)
    && (skipped == 0 && c.sequences.Some? ==>
          c.sequences.value.0 != pair.infraredSequence && c.sequences.value.1 != pair.visibleSequence)
  }

  lemma RefusalsAreReachable(c: L.ChallengeState, pair: CapturedPair, skipped: nat, eyeOpenness: real, yaw: real,
                             cancelled: bool)
    requires Showable(c, pair, skipped)
    ensures var e := L.Refusal(c, EvidenceOf(pair, eyeOpenness, yaw), cancelled);
            && (e.Some? ==> !Unreachable(e.value))
            && (e == Some(L.RepeatedCameraFrame) ==> skipped > 0)
  {
    hide L.Fold;
    hide L.Admissible;
  }

  lemma AcceptedIsNewest(c: L.ChallengeState, pair: CapturedPair, eyeOpenness: real, yaw: real, cancelled: bool)
    requires c.Valid() && L.Refusal(c, EvidenceOf(pair, eyeOpenness, yaw), cancelled).None?
    ensures var d := L.After(c, EvidenceOf(pair, eyeOpenness, yaw), cancelled);
            && d.Valid() && d.config == c.config && d.issued == c.issued && d.action == c.action && d.trace != []
            && LastTime(d) == IdentityOf(pair).timestamp
            && d.sequences == Some((pair.infraredSequence, pair.visibleSequence))
            && PhaseMoved(c.Phase(), d.Phase())
  {
    var o := EvidenceOf(pair, eyeOpenness, yaw);
    L.ObservationKeepsValid(c, o, cancelled);
    L.FoldAppend(c.config, c.trace, L.SampleOf(c.config, c.action, o));
    hide L.Admissible;
    hide L.SampleOf;
    hide L.Fold;
  }

  // What showing one pair leaves of the state it is shown in.
  ghost predicate ShownWell<T>(w: World<T>, s: LoopState, t: LoopState, c: L.ChallengeState, pair: CapturedPair) {
    && t == s.(challenge := t.challenge, refusal := None, skipped := 0, polls := t.polls)
    && t.challenge.Some? && t.challenge.value.Valid() && t.challenge.value.config == c.config
    && t.challenge.value.issued == c.issued && t.challenge.value.action == c.action
    && t.challenge.value.trace != [] && LastTime(t.challenge.value) == IdentityOf(pair).timestamp
    && t.challenge.value.sequences == Some((pair.infraredSequence, pair.visibleSequence))
    && PhaseMoved(c.Phase(), t.challenge.value.Phase())
  }

  // A refusal that ends the session.
  ghost predicate RefusedWell(s: LoopState, t: LoopState) {
    && t == s.(challenge := t.challenge, refusal := t.refusal, polls := t.polls)
    && (t.refusal.Some? ==> !Unreachable(t.refusal.value))
    && (t.refusal == Some(L.RepeatedCameraFrame) ==> s.skipped > 0)
  }

  lemma ShowingKeeps<T>(w: World<T>, s: LoopState, c: L.ChallengeState, pair: CapturedPair, eyeOpenness: real,
                        yaw: real)
    requires Showable(c, pair, s.skipped)
    ensures var (t, r) := Shown(w, s, c, EvidenceOf(pair, eyeOpenness, yaw));
            && (r.Failure? ==> RefusedWell(s, t))
            && (r.Success? ==> ShownWell(w, s, t, c, pair)
                               && r.value == L.ProgressOf(t.challenge.value.Phase(), t.challenge.value.action))
  {
    hide L.Refusal;
    hide L.After;
    hide L.ChallengeState.Valid;
    hide L.Fold;
    hide EvidenceOf;
    hide IdentityOf;
    hide Unreachable;
    var cancelled := w.fires(s.polls);
    RefusalsAreReachable(c, pair, s.skipped, eyeOpenness, yaw, cancelled);
    if L.Refusal(c, EvidenceOf(pair, eyeOpenness, yaw), cancelled).None? {
      AcceptedIsNewest(c, pair, eyeOpenness, yaw, cancelled);
    }
  }

  // The challenge before a pair is shown to it: the open one, or the one the pair begins.
  function Opened<T>(w: World<T>, s: LoopState, pair: CapturedPair): (c: Result<L.ChallengeState, L.ChallengeError>) {
    if s.challenge.Some? then Success(s.challenge.value) else L.Begun(w.config, IdentityOf(pair).timestamp, w.action)
  }

  lemma OpenedIsShowable<T>(w: World<T>, s: LoopState, pair: CapturedPair)
    requires Common(w, s) && Advancing(s) && !s.Passed() && s.previous == Some(IdentityOf(pair))
    requires exists k :: w.pairs(k) == Some(pair)
    ensures var c := Opened(w, s, pair);
            && (c.Failure? ==> !Unreachable(c.error) && c.error != L.RepeatedCameraFrame)
            && (c.Success? ==>
                  && Showable(c.value, pair, s.skipped) && c.value.config == w.config
                  && forall time: u64 :: CapturedAfter(w, time) ==> time < c.value.issued)
  {
    hide Counted;
    hide Ascending;
    hide AskedOn;
    hide Narrated;
    hide SilentFrom;
    if s.challenge.None? {
      forall time: u64 | CapturedAfter(w, time) ensures time < IdentityOf(pair).timestamp {
        var k :| w.pairs(k) == Some(pair);
      }
    }
  }

  // What one located face leaves while the challenge is open.
  lemma AdvancingKeeps<T>(w: World<T>, s: LoopState, pair: CapturedPair, eyeOpenness: real, yaw: real)
    requires Common(w, s) && Advancing(s) && !s.Passed() && s.previous == Some(IdentityOf(pair))
    requires exists k :: w.pairs(k) == Some(pair)
    ensures var (t, r) := Advanced(w, s, pair, eyeOpenness, yaw);
            && (r.Failure? ==> RefusedWell(s, t))
            && (r.Success? ==>
                  && Opened(w, s, pair).Success? && ShownWell(w, s, t, Opened(w, s, pair).value, pair)
                  && r.value == L.ProgressOf(t.challenge.value.Phase(), t.challenge.value.action))
  {
    OpenedIsShowable(w, s, pair);
    if Opened(w, s, pair).Success? { ShowingKeeps(w, s, Opened(w, s, pair).value, pair, eyeOpenness, yaw); }
    hide Common;
    hide Advancing;
    hide ShownWell;
    hide Showable;
    hide Shown;
    hide L.Begun;
  }

  // The phases the challenge has moved through are announced as they are reached.
  lemma NarrationKeeps<T>(w: World<T>, s: LoopState, t: LoopState, c: L.ChallengeState, pair: CapturedPair)
    requires Narrated(s) && s.consumed == [] && ShownWell(w, s, t, c, pair)
    requires if s.challenge.Some? then s.challenge == Some(c) else c.trace == []
    ensures t.Passed() ==> Narrated(t)
    ensures var public := PublicProgress(L.ProgressOf(t.challenge.value.Phase(), t.challenge.value.action));
            !t.Passed() ==> if t.lastProgress == Some(public) then Narrated(t)
                            else w.listens(t.announced).None? ==>
                              Narrated(Announced(w, t, public).(lastProgress := Some(public)))
  {
    assert c.trace == [] ==> c.Phase().Baseline?;
    hide L.Fold;
    hide L.ChallengeState.Valid;
    hide IdentityOf;
  }

  lemma ShownIsCommon<T>(w: World<T>, s: LoopState, t: LoopState, pair: CapturedPair)
    requires Common(w, s) && Advancing(s) && !s.Passed() && s.previous == Some(IdentityOf(pair))
    requires exists k :: w.pairs(k) == Some(pair)
    requires Opened(w, s, pair).Success? && ShownWell(w, s, t, Opened(w, s, pair).value, pair)
    ensures s.consumed == [] && ChallengeSound(w, t) && Settled(t)
  {
    OpenedIsShowable(w, s, pair);
    hide L.ChallengeState.Valid;
    hide L.Fold;
    hide Counted;
    hide AskedOn;
    hide Ascending;
    hide Narrated;
    hide CapturedAfter;
    hide L.Begun;
  }

  lemma NothingConsumedHasFacts<T>(w: World<T>, s: LoopState)
    requires s.consumed == [] && s.captures <= MaximumCaptures(w.config) && Counted(w, s)
    requires s.refusal.Some? ==> !Unreachable(s.refusal.value)
    requires s.refusal == Some(L.RepeatedCameraFrame) ==> s.skipped > 0
    ensures Facts(w, s)
  {
  }

  lemma ChallengingKeeps<T>(w: World<T>, s: LoopState, pair: CapturedPair, eyeOpenness: real, yaw: real)
    requires Common(w, s) && Advancing(s) && !s.Passed() && s.previous == Some(IdentityOf(pair))
    requires exists k :: w.pairs(k) == Some(pair)
    ensures var (t, r) := Challenged(w, s, pair, eyeOpenness, yaw);
            && (r.Failure? ==> Facts(w, t))
            && (r.Success? ==> Running(w, t) && (r.value <==> t.Passed()) && t.previous == s.previous
                               && t.consumed == [] && t.challenge.Some?
                               && t.challenge.value.trace != []
                               && LastTime(t.challenge.value) == IdentityOf(pair).timestamp)
  {
    hide L.Fold;
    hide L.ChallengeState.Valid;
    hide SilentFrom;
    hide CapturedAfter;
    hide Ascending;
    hide AskedOn;
    hide Advanced;
    hide Narrated;
    hide Facts;
    AdvancingKeeps(w, s, pair, eyeOpenness, yaw);
    var (t, state) := Advanced(w, s, pair, eyeOpenness, yaw);
    if state.Failure? {
      NothingConsumedHasFacts(w, t);
    } else {
      var c := Opened(w, s, pair).value;
      ShownIsCommon(w, s, t, pair);
      NarrationKeeps(w, s, t, c, pair);
      var public := PublicProgress(state.value);
      AnnouncingIsCounted(w, t, public);
      var u := Announced(w, t, public);
      NothingConsumedHasFacts(w, u);
      assert Counted(w, t);
      assert ChallengeSound(w, u.(lastProgress := Some(public))) && Settled(u.(lastProgress := Some(public)));
      hide Counted;
      hide ChallengeSound;
      hide Settled;
    }
  }

  // The state is ready to derive an observation of its last pair.
  ghost predicate Derivable<T>(w: World<T>, s: LoopState, time: u64) {
    && Common(w, s) && s.Passed() && s.previous.Some? && s.previous.value.timestamp == time
    && LastTime(s.challenge.value) <= time
    && (s.consumed != [] ==> s.consumed[|s.consumed| - 1].completedAt < time)
  }

  lemma OneMoreAscends(consumed: seq<DerivedObservation>, o: DerivedObservation)
    requires Ascending(consumed) && (consumed != [] ==> consumed[|consumed| - 1].completedAt < o.completedAt)
    ensures Ascending(consumed + [o])
  {
    var longer := consumed + [o];
    forall i, j | 0 <= i < j < |longer| ensures longer[i].completedAt < longer[j].completedAt {
      if j == |consumed| && i < |consumed| - 1 {
        assert consumed[i].completedAt < consumed[|consumed| - 1].completedAt;
      }
    }
  }

  lemma AskedOnceMore<T>(w: World<T>, consumed: seq<DerivedObservation>, o: DerivedObservation)
    requires AskedOn(w, consumed)
    ensures AskedOn(w, (consumed + [o])[..|consumed|])
    ensures w.consume(consumed + [o]) == Success(Continue) ==> AskedOn(w, consumed + [o])
  {
    var longer := consumed + [o];
    assert longer[..|consumed|] == consumed;
    forall k | 1 <= k <= |longer| && w.consume(longer) == Success(Continue)
      ensures w.consume(longer[..k]) == Success(Continue)
    {
      assert longer[..k] == if k <= |consumed| then consumed[..k] else longer;
    }
  }

  // The facts about an observation that has been announced and handed over.
  lemma ConsumedHasFacts<T>(w: World<T>, s: LoopState)
    requires w.config.Valid() && s.captures <= MaximumCaptures(w.config)
             && |s.consumed| <= MAX_DERIVED_OBSERVATION_ATTEMPTS
    requires s.refusal.None? && Ascending(s.consumed) && Counted(w, s) && ChallengeSound(w, s) && PassedFirst(s)
    requires s.consumed != [] ==> |s.emitted| >= 2 * |s.consumed| + 2
    ensures Facts(w, s)
  {
    if s.consumed != [] { L.PassedIffTracePasses(w.config, s.challenge.value.trace); }
  }

  // The newest observation has been handed over.
  ghost predicate Handed<T>(w: World<T>, s: LoopState, newest: DerivedObservation) {
    && Facts(w, s) && s.Passed() && w.config.Valid() && s.refusal.None? && ChallengeSound(w, s) && PassedFirst(s)
    && s.previous.Some? && LastTime(s.challenge.value) <= s.previous.value.timestamp == newest.completedAt
    && s.consumed != [] && s.consumed[|s.consumed| - 1] == newest && AskedOn(w, s.consumed[..|s.consumed| - 1])
    && (w.consume(s.consumed) == Success(Continue) ==> AskedOn(w, s.consumed))
  }

  lemma HandingOver<T>(w: World<T>, s: LoopState, newest: DerivedObservation)
    requires Derivable(w, s, newest.completedAt) && w.listens(s.announced).None?
    ensures Handed(w, Announced(w, s, Processing).(consumed := s.consumed + [newest]), newest)
  {
    hide L.Fold;
    hide L.TracePasses;
    hide L.ChallengeState.Valid;
    hide CapturedAfter;
    hide SilentFrom;
    hide Ascending;
    hide AskedOn;
    hide Facts;
    var u := Announced(w, s, Processing).(consumed := s.consumed + [newest]);
    AnnouncingIsCounted(w, s, Processing);
    OneMoreAscends(s.consumed, newest);
    AskedOnceMore(w, s.consumed, newest);
    assert ChallengeSound(w, u) && PassedFirst(u) && Counted(w, u) && |u.emitted| >= 2 * |u.consumed| + 2;
    hide ChallengeSound;
    hide PassedFirst;
    hide Counted;
    hide Narrated;
    ConsumedHasFacts(w, u);
  }

  lemma ConsumingKeeps<T>(w: World<T>, s: LoopState, newest: DerivedObservation)
    requires Handed(w, s, newest)
    ensures var (t, r) := Consumed(w, s);
            && (r.None? ==> Running(w, t))
            && (r.Some? ==> Facts(w, t))
            && (r.Some? && r.value.Success? ==> Broke(w, t, r.value.value))
  {
    var u := Announced(w, s, HoldStill);
    AnnouncingIsCounted(w, s, HoldStill);
    assert ChallengeSound(w, u) && PassedFirst(u) && Settled(u);
    assert w.listens(s.announced).None? ==> Narrated(u);
    ConsumedHasFacts(w, u);
    hide Facts;
    hide Counted;
    hide ChallengeSound;
    hide PassedFirst;
    hide Ascending;
    hide AskedOn;
    hide Narrated;
    hide Settled;
    hide L.Fold;
  }

  lemma DerivingKeeps<T>(w: World<T>, s: LoopState, pair: CapturedPair, yaw: real)
    requires Derivable(w, s, IdentityOf(pair).timestamp)
    ensures var (t, r) := Derived(w, s, pair, yaw);
            && (r.None? ==> Running(w, t))
            && (r.Some? ==> Facts(w, t))
            && (r.Some? && r.value.Success? ==> Broke(w, t, r.value.value))
  {
    AnnouncingHasFacts(w, s);
    if w.listens(s.announced).None? && w.derivations(|s.consumed|).Success? {
      var o := DerivedFrom(w.derivations(|s.consumed|).value, pair, yaw);
      HandingOver(w, s, o);
      ConsumingKeeps(w, Announced(w, s, Processing).(consumed := s.consumed + [o]), o);
    }
    hide Facts;
    hide Running;
    hide Broke;
    hide Derivable;
    hide Handed;
    hide Consumed;
    hide Announced;
  }

  lemma AnnouncingHasFacts<T>(w: World<T>, s: LoopState)
    requires Common(w, s) && s.Passed()
    ensures Facts(w, Announced(w, s, Processing))
  {
    AnnouncingIsCounted(w, s, Processing);
    assert ChallengeSound(w, Announced(w, s, Processing)) && PassedFirst(Announced(w, s, Processing));
    hide Counted;
    hide Ascending;
    hide AskedOn;
    hide L.Fold;
    ConsumedHasFacts(w, Announced(w, s, Processing));
  }

  // ---------------------------------------------------------------- rounds and sessions

  lemma ChallengedIsDerivable<T>(w: World<T>, s: LoopState, pair: CapturedPair)
    requires Running(w, s) && s.Passed() && s.previous == Some(IdentityOf(pair)) && s.consumed == []
    requires s.challenge.value.trace != [] && LastTime(s.challenge.value) == IdentityOf(pair).timestamp
    ensures Derivable(w, s, IdentityOf(pair).timestamp)
  {
  }

  lemma RoundKeeps<T>(w: World<T>, s: LoopState)
    requires Running(w, s)
    ensures var (t, r) := Round(w, s);
            && (r.None? ==> Running(w, t))
            && (r.Some? ==> Facts(w, t))
            && (r.Some? && r.value.Success? ==> Broke(w, t, r.value.value))
  {
    hide Facts;
    hide Common;
    hide Settled;
    hide Advancing;
    hide Broke;
    hide Captured;
    hide Challenged;
    hide Derived;
    hide IdentityOf;
    hide L.Fold;
    hide Derivable;
    hide Running;
    hide Announced;
    CaptureKeeps(w, s);
    var (t, pair) := Captured(w, s);
    if pair.Success? {
      match w.faces(t.captures)
      case Fatal(error) => PassedHasFacts(w, t);
      case RetryPosition => RetryKeeps(w, t);
      case Found(eyeOpenness, yaw) =>
        assert w.pairs(s.captures) == Some(pair.value);
        if !t.Passed() {
          ChallengingKeeps(w, t, pair.value, eyeOpenness, yaw);
          var (u, passed) := Challenged(w, t, pair.value, eyeOpenness, yaw);
          if passed.Success? && passed.value {
            ChallengedIsDerivable(w, u, pair.value);
            DerivingKeeps(w, u, pair.value, yaw);
          }
        } else {
          PassedIsDerivable(w, t, pair.value);
          DerivingKeeps(w, t, pair.value, yaw);
        }
    }
  }

  lemma PassedIsDerivable<T>(w: World<T>, s: LoopState, pair: CapturedPair)
    requires Common(w, s) && Advancing(s) && s.Passed() && s.previous == Some(IdentityOf(pair))
    ensures Derivable(w, s, IdentityOf(pair).timestamp)
  {
  }

  // A pair without one usable face is announced and skipped.
  lemma RetryKeeps<T>(w: World<T>, s: LoopState)
    requires Common(w, s) && Advancing(s)
    ensures var t := Announced(w, s, PositionFace).(skipped := s.skipped + 1);
            Facts(w, t) && (w.listens(s.announced).None? ==> Running(w, t))
  {
    var t := Announced(w, s, PositionFace).(skipped := s.skipped + 1);
    AnnouncingIsCounted(w, s, PositionFace);
    assert Counted(w, t);
    assert Narrated(t) && ChallengeSound(w, t) && PassedFirst(t) && Settled(t);
    hide Counted;
    hide Narrated;
    hide ChallengeSound;
    hide PassedFirst;
    hide Settled;
    hide AskedOn;
    hide Ascending;
    hide L.Fold;
    PassedHasFacts(w, t);
    hide Facts;
  }

  lemma FromKeeps<T>(w: World<T>, s: LoopState)
    requires Running(w, s)
    ensures Facts(w, From(w, s).0)
    ensures From(w, s).1.Success? ==> Broke(w, From(w, s).0, From(w, s).1.value)
    decreases MaximumCaptures(w.config) - s.captures
  {
    RoundKeeps(w, s);
    RoundsAreCounted(w, s);
    hide Running;
    hide Facts;
    hide Broke;
    if Round(w, s).1.None? { FromKeeps(w, Round(w, s).0); }
    hide Round;
  }

  // However a session ends: at most 2 * max_observations + 32 captured pairs and 32 consumed
  // observations, strictly later one after the other, only once the challenge has passed, each
  // announced twice; and it succeeds on its consumer's word alone.
  lemma SessionsKeepTheFacts<T>(w: World<T>, polls: nat)
    ensures Facts(w, Session(w, polls).0)
    ensures Session(w, polls).1.Success? ==>
              w.config.Valid() && Broke(w, Session(w, polls).0, Session(w, polls).1.value)
  {
    var s := Polled(Initial(polls));
    AnnouncingIsCounted(w, s, PositionFace);
    if w.config.Valid() && !w.fires(polls) && w.listens(0).None? {
      FromKeeps(w, Announced(w, s, PositionFace));
    }
    hide From;
    hide Broke;
  }

  // Nothing outside the loop reports the loop's own error.
  ghost predicate LeavesLimitsToTheLoop<T(!new)>(w: World<T>) {
    && (forall k: nat :: w.faces(k) != Fatal(AttemptLimit))
    && (forall k: nat :: w.derivations(k) != Failure(AttemptLimit))
    && (forall k: nat :: w.listens(k) != Some(AttemptLimit))
    && forall consumed :: w.consume(consumed) != Failure(AttemptLimit)
  }

  lemma LimitsAreEarnedInRounds<T(!new)>(w: World<T>, s: LoopState)
    requires LeavesLimitsToTheLoop(w) && s.captures <= 2 * w.config.maxObservations + 32 && |s.consumed| < 32
    ensures var (t, r) := Round(w, s);
            && (r == Some(Failure(AttemptLimit)) ==>
                  t.captures == 2 * w.config.maxObservations + 32 || |t.consumed| == 32)
            && (r.None? ==> |t.consumed| < 32)
  {
    hide L.After;
    hide L.Refusal;
    hide L.Begun;
    hide L.Fold;
    hide IdentityOf;
    var (t, pair) := Captured(w, s);
    if pair.Success? {
      hide Captured;
      match w.faces(t.captures)
      case Fatal(error) =>
      case RetryPosition =>
      case Found(eyeOpenness, yaw) =>
        if !t.Passed() {
          ChallengeLeavesLimits(w, t, pair.value, eyeOpenness, yaw);
          hide Challenged;
        }
    }
  }

  lemma ChallengeLeavesLimits<T(!new)>(w: World<T>, s: LoopState, pair: CapturedPair, eyeOpenness: real, yaw: real)
    requires LeavesLimitsToTheLoop(w)
    ensures var (t, r) := Challenged(w, s, pair, eyeOpenness, yaw);
            t.consumed == s.consumed && t.captures == s.captures && r != Failure(AttemptLimit)
  {
    hide L.After;
    hide L.Refusal;
    hide L.Begun;
    hide L.Fold;
    hide L.SampleOf;
    hide IdentityOf;
  }

  lemma {:induction false} LimitsAreEarnedFrom<T(!new)>(w: World<T>, s: LoopState)
    requires LeavesLimitsToTheLoop(w) && s.captures <= 2 * w.config.maxObservations + 32 && |s.consumed| < 32
    ensures From(w, s).1 == Failure(AttemptLimit) ==>
              From(w, s).0.captures == 2 * w.config.maxObservations + 32 || |From(w, s).0.consumed| == 32
    decreases MaximumCaptures(w.config) - s.captures
  {
    LimitsAreEarnedInRounds(w, s);
    RoundsAreCounted(w, s);
    hide LeavesLimitsToTheLoop;
    if Round(w, s).1.None? { LimitsAreEarnedFrom(w, Round(w, s).0); }
    hide Round;
  }

  // The loop gives up for want of attempts only once it has used them all: every capture, or every
  // derived observation.
  lemma LimitsAreEarned<T(!new)>(w: World<T>, polls: nat)
    requires LeavesLimitsToTheLoop(w) && Session(w, polls).1 == Failure(AttemptLimit)
    ensures var s := Session(w, polls).0;
            s.captures == 2 * w.config.maxObservations + 32 || |s.consumed| == 32
  {
    var s := Announced(w, Polled(Initial(polls)), PositionFace);
    LimitsAreEarnedFrom(w, s);
    hide From;
  }

  // Under a callback that admits `cap` announcements the consumer sees at most (cap - 2) / 2 observations.
  lemma ProgressBudgetLimitsObservations<T>(w: World<T>, polls: nat, cap: nat)
    requires SilentFrom(w.listens, cap)
    ensures Session(w, polls).0.consumed != [] ==> 2 * |Session(w, polls).0.consumed| + 2 <= cap
  {
    SessionsKeepTheFacts(w, polls);
    hide Session;
    hide L.TracePasses;
  }

  // ---------------------------------------------------------------- announcements tell the truth

  // What a client that is shown a code is asked to do: hold still or return to a neutral view with open
  // eyes, close the eyes, or turn past the limit to that side; yaw is negative to the left.
  predicate Obeys(config: L.ChallengeConfig, code: ProgressCode, eyeOpenness: real, yaw: real) {
    match code
    case HoldStill =>
      eyeOpenness >= config.openEyeThreshold && -config.neutralYawDegrees <= yaw <= config.neutralYawDegrees
    case ReturnToCenter =>
      eyeOpenness >= config.openEyeThreshold && -config.neutralYawDegrees <= yaw <= config.neutralYawDegrees
    case Blink => eyeOpenness <= config.closedEyeThreshold
    case TurnLeft => yaw + config.turnYawDegrees <= 0.0
    case TurnRight => yaw - config.turnYawDegrees >= 0.0
    case _ => false
  }

  // In every running state the last announced code names exactly what the challenge counts next: a pair
  // counts towards the open phase if and only if its face obeys the code.
  lemma AnnouncementsTellTheTruth<T>(w: World<T>, s: LoopState, pair: CapturedPair, eyeOpenness: real, yaw: real)
    requires Running(w, s) && s.challenge.Some? && !s.Passed() && s.lastProgress.Some?
    ensures
      var c := s.challenge.value;
      var x := L.SampleOf(w.config, c.action, EvidenceOf(pair, eyeOpenness, yaw));
      Obeys(w.config, s.lastProgress.value, eyeOpenness, yaw) <==> if c.Phase().Action? then x.action else x.neutral
  {
    hide L.Fold;
    hide Counted;
    hide Ascending;
    hide AskedOn;
    hide L.Admissible;
  }

  // A client that obeys the announced code through a pair the challenge accepts moves the challenge on:
  // out of the baseline at once, and one sample further into the action or the recovery.
  lemma ObedienceMovesOn<T>(w: World<T>, s: LoopState, pair: CapturedPair, eyeOpenness: real, yaw: real)
    requires Running(w, s) && s.challenge.Some? && !s.Passed() && s.lastProgress.Some?
    requires Obeys(w.config, s.lastProgress.value, eyeOpenness, yaw)
    requires L.Refusal(s.challenge.value, EvidenceOf(pair, eyeOpenness, yaw), false).None?
    ensures
      var c := s.challenge.value;
      var before := L.Fold(w.config, c.trace);
      var after := L.Fold(w.config, L.After(c, EvidenceOf(pair, eyeOpenness, yaw), false).trace);
      match before.phase
      case Baseline => after.phase.Action?
      case Action => after.actionStreak == L.SaturatingIncrement(before.actionStreak)
      case Recovery => after.recoveryStreak == L.SaturatingIncrement(before.recoveryStreak)
      case Passed => true
  {
    var c := s.challenge.value;
    AnnouncementsTellTheTruth(w, s, pair, eyeOpenness, yaw);
    L.FoldAppend(w.config, c.trace, L.SampleOf(w.config, c.action, EvidenceOf(pair, eyeOpenness, yaw)));
    hide Obeys;
    hide L.Fold;
    hide L.SampleOf;
    hide Counted;
    hide Ascending;
    hide AskedOn;
    hide L.Admissible;
    hide Narrated;
  }
}
