// Bounded two-pointer pairing of the infrared and the visible frame stream.
module Pairing {
  import opened Wrappers
  import opened Cancellation

  datatype Modality = Infrared | Visible

  datatype Frame = Frame(modality: Modality, timestamp: u64)

  datatype CaptureError =
    | InvalidSpec | Cancelled | SourceFailure
    | WrongModality(expected: Modality, actual: Modality)
    | PairingBudgetExhausted(lastSkewMicros: nat)

  datatype PairingPolicy = PairingPolicy(maxSkewMicros: u64, maxReplacements: u8) {
    predicate Valid() { maxSkewMicros != 0 && maxReplacements != 0 }
  }

  datatype PairedFrames = PairedFrames(infrared: Frame, visible: Frame)

  // A camera stream: the frames it will still deliver; after them every read fails.
  class FrameSource {
    var pending: seq<Frame>

    constructor (frames: seq<Frame>)
      ensures pending == frames
    {
      pending := frames;
    }

    method NextFrame() returns (r: Result<Frame, CaptureError>)
      modifies this
      ensures old(pending) == [] ==> r == Failure(SourceFailure) && pending == []
      ensures old(pending) != [] ==> r == Success(old(pending)[0]) && pending == old(pending)[1..]
    {
      if pending == [] { return Failure(SourceFailure); }
      r := Success(pending[0]);
      pending := pending[1..];
    }
  }

  // ---------------------------------------------------------------- aligned pairs

  ghost predicate Nondecreasing(frames: seq<Frame>) {
    forall i, j :: 0 <= i < j < |frames| ==> frames[i].timestamp <= frames[j].timestamp
  }

  predicate AllOf(frames: seq<Frame>, modality: Modality) {
    forall i :: 0 <= i < |frames| ==> frames[i].modality == modality
  }

  predicate Aligned(ir: seq<Frame>, rgb: seq<Frame>, skew: u64, i: nat, j: nat) {
    i < |ir| && j < |rgb| && AbsDiff(ir[i].timestamp, rgb[j].timestamp) <= skew
  }

  // The pair that is earliest in both streams at once.
  ghost predicate LeastAligned(ir: seq<Frame>, rgb: seq<Frame>, skew: u64, i: nat, j: nat) {
    Aligned(ir, rgb, skew, i, j) &&
    forall a: nat, b: nat :: Aligned(ir, rgb, skew, a, b) ==> i <= a && j <= b
  }

  // Aligned pairs are closed under taking the earlier frame of each stream.
  lemma AlignedMeet(ir: seq<Frame>, rgb: seq<Frame>, skew: u64, i: nat, j: nat, a: nat, b: nat)
    requires Nondecreasing(ir) && Nondecreasing(rgb)
    requires Aligned(ir, rgb, skew, i, j) && Aligned(ir, rgb, skew, a, b)
    ensures Aligned(ir, rgb, skew, Min(i, a), Min(j, b))
  {
  }

  // So whenever any pair is usable there is one that is componentwise least.
  lemma {:induction false} LeastAlignedExists(ir: seq<Frame>, rgb: seq<Frame>, skew: u64, i: nat, j: nat)
    requires Nondecreasing(ir) && Nondecreasing(rgb) && Aligned(ir, rgb, skew, i, j)
    ensures exists a: nat, b: nat :: a <= i && b <= j && LeastAligned(ir, rgb, skew, a, b)
    decreases i + j
  {
    if a: nat, b: nat :| Aligned(ir, rgb, skew, a, b) && !(i <= a && j <= b) {
      AlignedMeet(ir, rgb, skew, i, j, a, b);
      LeastAlignedExists(ir, rgb, skew, Min(i, a), Min(j, b));
    } else {
      assert LeastAligned(ir, rgb, skew, i, j);
    }
  }

  // What pairing may return for these streams.
  ghost predicate WithinBudget(ir: seq<Frame>, rgb: seq<Frame>, policy: PairingPolicy) {
    exists i: nat, j: nat :: LeastAligned(ir, rgb, policy.maxSkewMicros, i, j) && i + j <= policy.maxReplacements
  }

  // Before the pointers are aligned, no usable pair lies behind either of them, and the older
  // stream's current frame is in no usable pair.
  ghost predicate NothingSkipped(ir: seq<Frame>, rgb: seq<Frame>, skew: u64, i: nat, j: nat) {
    forall a: nat, b: nat :: Aligned(ir, rgb, skew, a, b) ==> i <= a && j <= b
  }

  lemma OlderFrameIsUseless(ir: seq<Frame>, rgb: seq<Frame>, skew: u64, i: nat, j: nat)
    requires Nondecreasing(ir) && Nondecreasing(rgb)
    requires i < |ir| && j < |rgb| && NothingSkipped(ir, rgb, skew, i, j) && !Aligned(ir, rgb, skew, i, j)
    ensures ir[i].timestamp < rgb[j].timestamp ==> NothingSkipped(ir, rgb, skew, i + 1, j)
    ensures ir[i].timestamp >= rgb[j].timestamp ==> NothingSkipped(ir, rgb, skew, i, j + 1)
  {
    forall a: nat, b: nat | Aligned(ir, rgb, skew, a, b)
      ensures ir[i].timestamp < rgb[j].timestamp ==> i + 1 <= a
      ensures ir[i].timestamp >= rgb[j].timestamp ==> j + 1 <= b
    {
      assert rgb[j].timestamp <= rgb[b].timestamp && ir[i].timestamp <= ir[a].timestamp;
    }
  }

  method CheckCancelled(probe: CancelProbe) returns (r: Result<Unit, CaptureError>)
    modifies probe
    ensures probe.polls == old(probe.polls) + 1
    ensures r == if probe.fires(old(probe.polls)) then Failure(Cancelled) else Success(Unit.Unit)
  {
    var cancelled := probe.ShouldCancel();
    r := if cancelled then Failure(Cancelled) else Success(Unit.Unit);
  }

  function EnsureModality(frame: Frame, expected: Modality): (r: Result<Unit, CaptureError>)
    ensures r.Success? <==> frame.modality == expected
    ensures r.Failure? ==> r.error.WrongModality? && r.error.actual == frame.modality && r.error.actual != expected
    ensures r.Failure? ==> r.error.expected == expected
  {
    if frame.modality == expected then Success(Unit.Unit) else Failure(WrongModality(expected, frame.modality))
  }

  // The pointers ran off a stream, or stand unaligned with the budget spent: nothing was missed.
  lemma NothingWithinBudget(ir: seq<Frame>, rgb: seq<Frame>, policy: PairingPolicy, i: nat, j: nat)
    requires NothingSkipped(ir, rgb, policy.maxSkewMicros, i, j)
    requires i >= |ir| || j >= |rgb|
             || (i + j == policy.maxReplacements && !Aligned(ir, rgb, policy.maxSkewMicros, i, j))
    ensures !WithinBudget(ir, rgb, policy)
  {
  }

  // Replace one stream's frame.
  method Replace(source: FrameSource, expected: Modality) returns (r: Result<Frame, CaptureError>)
    modifies source
    ensures r.Success? ==> old(source.pending) != [] && r.value == old(source.pending)[0]
                           && source.pending == old(source.pending)[1..] && r.value.modality == expected
    ensures r.Failure? ==> r.error.SourceFailure? || r.error.WrongModality?
    ensures r.Failure? && AllOf(old(source.pending), expected) ==> old(source.pending) == [] && r.error.SourceFailure?
  {
    r := source.NextFrame();
    if r.Success? {
      var check := EnsureModality(r.value, expected);
      if check.Failure? { r := Failure(check.error); }
    }
  }

  ghost predicate RightKind(ir: seq<Frame>, rgb: seq<Frame>) {
    AllOf(ir, Infrared) && AllOf(rgb, Visible)
  }

  ghost predicate Sorted(ir: seq<Frame>, rgb: seq<Frame>) {
    Nondecreasing(ir) && Nondecreasing(rgb)
  }

  // The pointers stand at frames `i` and `j` of the two streams.
  ghost predicate Pointing(ir: seq<Frame>, rgb: seq<Frame>, i: nat, j: nat, pair: PairedFrames,
                           irRest: seq<Frame>, rgbRest: seq<Frame>)
  {
    && i < |ir| && j < |rgb|
    && pair == PairedFrames(ir[i], rgb[j])
    && irRest == ir[i + 1..] && rgbRest == rgb[j + 1..]
    && pair.infrared.modality.Infrared? && pair.visible.modality.Visible?
  }

  // Advance the stream whose current frame is older.
  method ReplaceOlder(infrared: FrameSource, visible: FrameSource, pair: PairedFrames,
                      ghost ir: seq<Frame>, ghost rgb: seq<Frame>, ghost skew: u64, ghost i: nat, ghost j: nat)
    returns (r: Result<PairedFrames, CaptureError>, ghost i': nat, ghost j': nat)
    requires infrared != visible
    requires Pointing(ir, rgb, i, j, pair, infrared.pending, visible.pending)
    requires !Aligned(ir, rgb, skew, i, j)
    modifies infrared, visible
    ensures i' + j' == i + j + 1
    ensures r.Success? ==> Pointing(ir, rgb, i', j', r.value, infrared.pending, visible.pending)
    ensures Sorted(ir, rgb) && NothingSkipped(ir, rgb, skew, i, j) ==> NothingSkipped(ir, rgb, skew, i', j')
    ensures r.Failure? ==> r.error.SourceFailure? || r.error.WrongModality?
    ensures r.Failure? && RightKind(ir, rgb) ==> r.error.SourceFailure? && (i' >= |ir| || j' >= |rgb|)
  {
    if Sorted(ir, rgb) && NothingSkipped(ir, rgb, skew, i, j) { OlderFrameIsUseless(ir, rgb, skew, i, j); }
    if pair.infrared.timestamp < pair.visible.timestamp {
      i', j' := i + 1, j;
      var next := Replace(infrared, Infrared);
      r := if next.Success? then Success(pair.(infrared := next.value)) else Failure(next.error);
    } else {
      i', j' := i, j + 1;
      var next := Replace(visible, Visible);
      r := if next.Success? then Success(pair.(visible := next.value)) else Failure(next.error);
    }
  }

  // The replacement loop; `ir` and `rgb` are both streams from their first delivered frame on.
  method Align(infrared: FrameSource, visible: FrameSource, policy: PairingPolicy, probe: CancelProbe,
               first: PairedFrames, ghost ir: seq<Frame>, ghost rgb: seq<Frame>)
    returns (r: Result<PairedFrames, CaptureError>, ghost i: nat, ghost j: nat)
    requires infrared != visible && policy.Valid()
    requires Pointing(ir, rgb, 0, 0, first, infrared.pending, visible.pending)
    modifies infrared, visible, probe
    ensures old(probe.polls) <= probe.polls
    ensures r == Failure(Cancelled) <==> !Quiet(probe, old(probe.polls))
    ensures r.Success? ==>
              && Pointing(ir, rgb, i, j, r.value, infrared.pending, visible.pending)
              && Aligned(ir, rgb, policy.maxSkewMicros, i, j) && i + j <= policy.maxReplacements
              && (Sorted(ir, rgb) ==> NothingSkipped(ir, rgb, policy.maxSkewMicros, i, j))
    ensures r.Failure? && !r.error.Cancelled? && RightKind(ir, rgb) ==>
              && (r.error.SourceFailure? ||
                  (r.error.PairingBudgetExhausted? && r.error.lastSkewMicros > policy.maxSkewMicros))
              && (Sorted(ir, rgb) ==> !WithinBudget(ir, rgb, policy))
    ensures r.Failure? && r.error.PairingBudgetExhausted? ==>
              && i < |ir| && j < |rgb| && i + j == policy.maxReplacements
              && infrared.pending == ir[i + 1..] && visible.pending == rgb[j + 1..]
              && r.error.lastSkewMicros == AbsDiff(ir[i].timestamp, rgb[j].timestamp) > policy.maxSkewMicros
    ensures r != Failure(InvalidSpec)
  {
    i, j := 0, 0;
    ghost var start := probe.polls;
    var pair := first;
    for replacement := 0 to policy.maxReplacements + 1
      invariant i + j == replacement <= policy.maxReplacements
      invariant Pointing(ir, rgb, i, j, pair, infrared.pending, visible.pending)
      invariant Sorted(ir, rgb) ==> NothingSkipped(ir, rgb, policy.maxSkewMicros, i, j)
      invariant start <= probe.polls && Quiet(probe, start)
    {
      var check := CheckCancelled(probe);
      if check.Failure? { return Failure(check.error), i, j; }
      var skew := AbsDiff(pair.infrared.timestamp, pair.visible.timestamp);
      if skew <= policy.maxSkewMicros {
        return Success(pair), i, j;
      }
      if replacement == policy.maxReplacements {
        if Sorted(ir, rgb) { NothingWithinBudget(ir, rgb, policy, i, j); }
        return Failure(PairingBudgetExhausted(skew)), i, j;
      }
      check := CheckCancelled(probe);
      if check.Failure? { return Failure(check.error), i, j; }
      var next;
      next, i, j := ReplaceOlder(infrared, visible, pair, ir, rgb, policy.maxSkewMicros, i, j);
      if next.Failure? {
        if Sorted(ir, rgb) && RightKind(ir, rgb) { NothingWithinBudget(ir, rgb, policy, i, j); }
        return Failure(next.error), i, j;
      }
      pair := next.value;
    }
    // The trailing `InvalidSpec` of the loop: never reached.
    assert false;
    r := Failure(InvalidSpec);
  }

  // A pair delivered for these two streams, and what was consumed to get it.
  ghost predicate Delivered(ir: seq<Frame>, rgb: seq<Frame>, policy: PairingPolicy, pair: PairedFrames,
                            irRest: seq<Frame>, rgbRest: seq<Frame>)
  {
    exists i: nat, j: nat ::
      && LeastAligned(ir, rgb, policy.maxSkewMicros, i, j)
      && i + j <= policy.maxReplacements
      && pair == PairedFrames(ir[i], rgb[j])
      && irRest == ir[i + 1..] && rgbRest == rgb[j + 1..]
  }

  // The frames consumed when the budget ran out, and the last two of them.
  ghost predicate Exhausted(ir: seq<Frame>, rgb: seq<Frame>, policy: PairingPolicy, lastSkew: nat,
                            irRest: seq<Frame>, rgbRest: seq<Frame>)
  {
    exists i: nat, j: nat :: ExhaustedAt(ir, rgb, policy, lastSkew, irRest, rgbRest, i, j)
  }

  ghost predicate ExhaustedAt(ir: seq<Frame>, rgb: seq<Frame>, policy: PairingPolicy, lastSkew: nat,
                              irRest: seq<Frame>, rgbRest: seq<Frame>, i: nat, j: nat)
  {
    && i < |ir| && j < |rgb| && irRest == ir[i + 1..] && rgbRest == rgb[j + 1..]
    && i + j == policy.maxReplacements
    && (lastSkew == ir[i].timestamp - rgb[j].timestamp || lastSkew == rgb[j].timestamp - ir[i].timestamp)
    && lastSkew > policy.maxSkewMicros
  }

  method CapturePairCancellable(infrared: FrameSource, visible: FrameSource, policy: PairingPolicy, probe: CancelProbe)
    returns (r: Result<PairedFrames, CaptureError>)
    requires infrared != visible
    modifies infrared, visible, probe
    // The outcome is `Cancelled` exactly when some poll asked for it.
    ensures r == Failure(Cancelled) <==> policy.Valid() && !Quiet(probe, old(probe.polls))
    ensures r == Failure(InvalidSpec) <==> policy.maxSkewMicros < 1 || policy.maxReplacements < 1
    // A success is the least aligned pair, reached after exactly i + j replacements.
    ensures r.Success? && Sorted(old(infrared.pending), old(visible.pending)) ==>
              Delivered(old(infrared.pending), old(visible.pending), policy, r.value, infrared.pending, visible.pending)
    ensures r.Success? ==>
              && r.value.infrared.modality.Infrared? && r.value.visible.modality.Visible?
              && AbsDiff(r.value.infrared.timestamp, r.value.visible.timestamp) <= policy.maxSkewMicros
    // Over nondecreasing streams of the right kind nothing usable within the budget is missed.
    ensures && policy.Valid() && Quiet(probe, old(probe.polls))
            && Sorted(old(infrared.pending), old(visible.pending))
            && RightKind(old(infrared.pending), old(visible.pending))
            ==> (r.Success? <==> WithinBudget(old(infrared.pending), old(visible.pending), policy))
    // Otherwise a stream ran dry, or the budget did with a skew that was really too large.
    ensures && policy.Valid() && Quiet(probe, old(probe.polls)) && r.Failure?
            && RightKind(old(infrared.pending), old(visible.pending))
            ==> || r.error.SourceFailure?
                || (r.error.PairingBudgetExhausted? && r.error.lastSkewMicros > policy.maxSkewMicros)
    // The budget is exhausted by the allowed number of replacements after the first two frames, and the
    // skew reported is that of the last two.
    ensures r.Failure? && r.error.PairingBudgetExhausted? ==>
              Exhausted(old(infrared.pending), old(visible.pending), policy, r.error.lastSkewMicros,
                        infrared.pending, visible.pending)
  {
    if !policy.Valid() { return Failure(InvalidSpec); }
    ghost var ir, rgb := infrared.pending, visible.pending;
    var check := CheckCancelled(probe);
    if check.Failure? { return Failure(check.error); }
    var infraredFrame := infrared.NextFrame();
    if infraredFrame.Failure? { return Failure(infraredFrame.error); }
    check := CheckCancelled(probe);
    if check.Failure? { return Failure(check.error); }
    var visibleFrame := visible.NextFrame();
    if visibleFrame.Failure? { return Failure(visibleFrame.error); }
    check := EnsureModality(infraredFrame.value, Infrared);
    if check.Failure? { return Failure(check.error); }
    check := EnsureModality(visibleFrame.value, Visible);
    if check.Failure? { return Failure(check.error); }
    ghost var i, j;
    r, i, j := Align(infrared, visible, policy, probe, PairedFrames(infraredFrame.value, visibleFrame.value), ir, rgb);
    if r.Success? && Sorted(ir, rgb) {
      assert LeastAligned(ir, rgb, policy.maxSkewMicros, i, j);
    }
    if r.Failure? && r.error.PairingBudgetExhausted? {
      assert ExhaustedAt(ir, rgb, policy, r.error.lastSkewMicros, infrared.pending, visible.pending, i, j);
    }
  }
}
