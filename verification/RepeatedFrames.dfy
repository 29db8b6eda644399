// When the challenge can refuse a repeated camera frame although every captured pair is fresh.
module RepeatedFrames {
  import opened Wrappers
  import opened Protocol
  import opened ObservationTypes
  import opened CaptureLoop
  import opened CaptureLaws
  import L = Liveness

  // The next pair shows a face to an open challenge that would take it but for a frame it shares with
  // the last pair the challenge accepted.
  predicate RepeatsAFrame<T>(w: World<T>, s: LoopState) {
    var (t, pair) := Captured(w, s);
    && pair.Success? && w.faces(t.captures).Found? && s.challenge.Some? && !s.Passed() && !w.fires(t.polls)
    && var face := w.faces(t.captures);
       var o := EvidenceOf(pair.value, face.eyeOpenness, face.yaw);
       && L.Measured(w.config, o)
       && L.Timestamp(o) <= s.challenge.value.issued + w.config.durationMicros
       && L.Repeats(s.challenge.value, o)
  }

  lemma ShownRepeats<T>(w: World<T>, s: LoopState, pair: CapturedPair, eyeOpenness: real, yaw: real)
    requires Common(w, s) && Advancing(s) && !s.Passed() && s.previous == Some(IdentityOf(pair)) && s.challenge.Some?
    ensures var o := EvidenceOf(pair, eyeOpenness, yaw);
            L.Refusal(s.challenge.value, o, w.fires(s.polls)) == Some(L.RepeatedCameraFrame) <==>
            && !w.fires(s.polls) && L.Measured(w.config, o)
            && L.Timestamp(o) <= s.challenge.value.issued + w.config.durationMicros && L.Repeats(s.challenge.value, o)
  {
    hide L.Fold;
    hide Narrated;
    hide Counted;
    hide L.Admissible;
    hide Ascending;
    hide AskedOn;
  }

  // Nothing but showing a pair to the challenge changes what it last refused.
  lemma RefusalsComeFromTheChallenge<T>(w: World<T>, s: LoopState)
    requires s.refusal.None?
    ensures var (t, pair) := Captured(w, s);
            var face := w.faces(t.captures);
            Round(w, s).0.refusal ==
              if pair.Failure? || !face.Found? || t.Passed() then None
              else if s.challenge.Some? then
                L.Refusal(s.challenge.value, EvidenceOf(pair.value, face.eyeOpenness, face.yaw), w.fires(t.polls))
              else
                match L.Begun(w.config, IdentityOf(pair.value).timestamp, w.action)
                case Failure(e) => Some(e)
                case Success(c) => L.Refusal(c, EvidenceOf(pair.value, face.eyeOpenness, face.yaw), w.fires(t.polls))
  {
    hide L.Refusal;
    hide L.After;
    hide L.Begun;
    hide L.Fold;
  }

  // A round ends in that refusal exactly when the pair repeats a frame, and then some pair has been
  // skipped since the challenge last accepted one.
  lemma RepeatedFrameIffAFrameRepeats<T>(w: World<T>, s: LoopState)
    requires Running(w, s)
    ensures Round(w, s).0.refusal == Some(L.RepeatedCameraFrame) <==> RepeatsAFrame(w, s)
    ensures RepeatsAFrame(w, s) ==> s.skipped > 0
  {
    CaptureKeeps(w, s);
    RefusalsComeFromTheChallenge(w, s);
    var (t, pair) := Captured(w, s);
    var face := w.faces(t.captures);
    if pair.Success? && face.Found? && !t.Passed() {
      if s.challenge.Some? { ShownRepeats(w, t, pair.value, face.eyeOpenness, face.yaw); }
      else { FirstPairIsNew(w, t, pair.value, face.eyeOpenness, face.yaw); }
    }
    hide Round;
    hide Common;
    hide L.Fold;
    hide L.Refusal;
    hide L.Measured;
    hide IdentityOf;
  }

  lemma FirstPairIsNew<T>(w: World<T>, s: LoopState, pair: CapturedPair, eyeOpenness: real, yaw: real)
    ensures var c := L.Begun(w.config, IdentityOf(pair).timestamp, w.action);
            var o := EvidenceOf(pair, eyeOpenness, yaw);
            && (c.Failure? ==> c.error != L.RepeatedCameraFrame)
            && (c.Success? ==> L.Refusal(c.value, o, w.fires(s.polls)) != Some(L.RepeatedCameraFrame))
  {
    hide L.Fold;
  }

  // ---------------------------------------------------------------- a session that ends so

  const CONFIG := L.ChallengeConfig(100_000, 10_000_000, 90, 0.65, 0.25, 10.0, 20.0, 2, 200_000, 2)

  // Pair 0 is accepted, pair 1 shows no usable face, and pair 2 has pair 0's infrared frame again.
  function PairAt(k: nat): (p: Option<CapturedPair>) {
    match k
    case 0 => Some(CapturedPair(1, 1, 1, 1))
    case 1 => Some(CapturedPair(2, 2, 2, 2))
    case _ => Some(CapturedPair(1, 3, 3, 3))
  }

  function FaceAt(k: nat): (f: FaceOutcome) { if k == 2 then RetryPosition else Found(1.0, 0.0) }

  function Replay(): (w: World<nat>) {
    World(CONFIG, Some(L.Blink), PairAt, FaceAt, _ => Failure(Internal), _ => None, _ => Success(Continue), _ => false)
  }

  function Accepted(): (c: L.ChallengeState) {
    L.ChallengeState(CONFIG, L.Blink, 1, 1, Some((1, 1)), [L.Sample(1, true, false)])
  }

  lemma FirstRound()
    ensures Round(Replay(), Announced(Replay(), Polled(Initial(0)), PositionFace)) ==
            (LoopState(Some(Accepted()), Some(ProgressCode.Blink), Some(FreshPairIdentity(1, 1, 1)), 1, 2,
                       [PositionFace, ProgressCode.Blink], [], None, 0, 3), None)
  {
    var w := Replay();
    var s := Announced(w, Polled(Initial(0)), PositionFace);
    var pair := CapturedPair(1, 1, 1, 1);
    var t := s.(captures := 1, polls := 2, previous := Some(IdentityOf(pair)));
    assert Captured(w, s) == (t, Success(pair));
    var c := L.ChallengeState(CONFIG, L.Blink, 1, 0, None, []);
    assert L.Begun(CONFIG, 1, Some(L.Blink)) == Success(c);
    var o := EvidenceOf(pair, 1.0, 0.0);
    assert L.Refusal(c, o, false).None?;
    assert L.After(c, o, false) == Accepted();
    L.FoldAppend(CONFIG, [], L.Sample(1, true, false));
    assert [] + [L.Sample(1, true, false)] == [L.Sample(1, true, false)];
    assert Accepted().Phase() == L.Action;
    var u := t.(challenge := Some(Accepted()), polls := 3);
    assert Shown(w, t, c, o) == (u, Success(L.ActionRequired(L.Blink)));
    assert s.emitted == [PositionFace] && [PositionFace] + [ProgressCode.Blink] == [PositionFace, ProgressCode.Blink];
  }

  lemma SecondRound(s: LoopState)
    requires s == LoopState(Some(Accepted()), Some(ProgressCode.Blink), Some(FreshPairIdentity(1, 1, 1)), 1, 2,
                            [PositionFace, ProgressCode.Blink], [], None, 0, 3)
    ensures Round(Replay(), s) ==
            (LoopState(Some(Accepted()), Some(ProgressCode.Blink), Some(FreshPairIdentity(2, 2, 2)), 2, 3,
                       [PositionFace, ProgressCode.Blink, PositionFace], [], None, 1, 4), None)
  {
    hide L.Fold;
    var w := Replay();
    var pair := CapturedPair(2, 2, 2, 2);
    assert Captured(w, s) == (s.(captures := 2, polls := 4, previous := Some(IdentityOf(pair))), Success(pair));
    assert s.emitted + [PositionFace] == [PositionFace, ProgressCode.Blink, PositionFace];
  }

  lemma ThirdRound(s: LoopState)
    requires s == LoopState(Some(Accepted()), Some(ProgressCode.Blink), Some(FreshPairIdentity(2, 2, 2)), 2, 3,
                            [PositionFace, ProgressCode.Blink, PositionFace], [], None, 1, 4)
    ensures Round(Replay(), s).1 == Some(Failure(Liveness))
    ensures Round(Replay(), s).0.refusal == Some(L.RepeatedCameraFrame)
  {
    var w := Replay();
    var pair := CapturedPair(1, 3, 3, 3);
    var t := s.(captures := 3, polls := 5, previous := Some(IdentityOf(pair)));
    assert Captured(w, s) == (t, Success(pair));
    L.FoldAppend(CONFIG, [], L.Sample(1, true, false));
    assert [] + [L.Sample(1, true, false)] == [L.Sample(1, true, false)];
    assert Accepted().Phase() == L.Action;
    assert L.Refusal(Accepted(), EvidenceOf(pair, 1.0, 0.0), false) == Some(L.RepeatedCameraFrame);
  }

  // A session of a valid challenge whose pairs are each fresh after the one before, and which the
  // challenge ends for a repeated frame.
  lemma RepeatedFrameIsReachable()
    ensures Replay().config.Valid()
    ensures forall k | 0 <= k < 2 :: IdentityOf(PairAt(k + 1).value).IsFreshAfter(IdentityOf(PairAt(k).value))
    ensures Session(Replay(), 0).1 == Failure(Liveness)
    ensures Session(Replay(), 0).0.refusal == Some(L.RepeatedCameraFrame)
  {
    var w := Replay();
    var s0 := Announced(w, Polled(Initial(0)), PositionFace);
    FirstRound();
    var s1 := Round(w, s0).0;
    SecondRound(s1);
    var s2 := Round(w, s1).0;
    ThirdRound(s2);
    hide Round;
    assert From(w, s2) == (Round(w, s2).0, Failure(Liveness));
    assert From(w, s1) == From(w, s2);
    assert From(w, s0) == From(w, s1);
  }
}
