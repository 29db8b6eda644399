// The `should_cancel` callbacks: an arbitrary answer for every poll, in the order of the polls.
module Cancellation {
  class CancelProbe {
    const fires: nat -> bool
    var polls: nat

    constructor (fires: nat -> bool)
      ensures this.fires == fires && polls == 0
    {
      this.fires, polls := fires, 0;
    }

    method ShouldCancel() returns (b: bool)
      modifies this
      ensures polls == old(polls) + 1
      ensures b == fires(old(polls))
    {
      b := fires(polls);
      polls := polls + 1;
    }
  }

  // No poll since `start` has asked to stop.
  ghost predicate Quiet(probe: CancelProbe, start: nat)
    reads probe
  {
    forall k :: start <= k < probe.polls ==> !probe.fires(k)
  }
}
