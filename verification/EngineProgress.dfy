// No lease is ever stranded: whoever holds one can always go on, and giving it back takes few steps.
module EngineProgress {
  import opened Wrappers
  import opened Resource
  import opened EngineProtocol

  // A request is queued only while somebody will still receive or drop it.
  ghost predicate QueuesServed(s: State) {
    forall id: ServiceId :: !Serving(s.At(id).worker) ==> s.At(id).queue == []
  }

  lemma QueueStaysServed(s: State, l: Label, id: ServiceId)
    requires Enabled(s, l) && (!Serving(s.At(id).worker) ==> s.At(id).queue == [])
    ensures !Serving(Apply(s, l).At(id).worker) ==> Apply(s, l).At(id).queue == []
  {
    hide Acquire;
    hide Release;
  }

  lemma StepKeepsQueuesServed(s: State, l: Label)
    requires Enabled(s, l) && QueuesServed(s)
    ensures QueuesServed(Apply(s, l))
  {
    forall id: ServiceId | !Serving(Apply(s, l).At(id).worker) ensures Apply(s, l).At(id).queue == [] {
      QueueStaysServed(s, l, id);
    }
  }

  lemma {:induction false} RunKeepsQueuesServed(s: State, labels: seq<Label>, t: State)
    requires QueuesServed(s) && Run(s, labels, t)
    ensures QueuesServed(t)
    decreases |labels|
  {
    if labels != [] {
      StepKeepsQueuesServed(s, labels[0]);
      RunKeepsQueuesServed(Apply(s, labels[0]), labels[1..], t);
    }
  }

  // The step the holder of the lease at `p` takes next.
  function NextStep(s: State, p: Place): (l: Label)
    requires LeaseAt(s, p).Some?
  {
    match p
    case AtSubmitter(thread) =>
      (match s.submitters[thread]
       case Leased(_, _) => CompareExchange(thread)
       case Won(_, _) => TrySend(thread)
       case _ => DropSubmitterLease(thread))
    case AtQueue(id, _) => if s.At(id).worker.Exiting? then Disconnect(id) else Receive(id)
    case AtWorker(id) =>
      (match s.At(id).worker
       case Received(_, _) => EnterPipeline(id)
       case Running(_, _) => FinishEngine(id)
       case Finishing(_) => SendTerminal(id)
       case Sent(_, _) => ClearWorkerFlag(id)
       case _ => DropJobLease(id))
    case AtDrain(id, _) => DropQueued(id)
  }

  // How many steps the holder is at most away from giving the lease back.
  function Distance(s: State, p: Place): (n: nat)
    requires LeaseAt(s, p).Some?
    ensures 1 <= n <= 9
  {
    match p
    case AtSubmitter(thread) =>
      (match s.submitters[thread]
       case Leased(_, _) => 9
       case Won(_, _) => 8
       case _ => 1)
    case AtQueue(_, _) => 7
    case AtWorker(id) =>
      (match s.At(id).worker
       case Received(_, _) => 6
       case Running(_, _) => 5
       case Finishing(_) => 4
       case Sent(_, _) => 3
       case _ => 2)
    case AtDrain(_, _) => 1
  }

  // The holder is never blocked, whatever every other thread does or does not do.
  lemma HolderIsNeverBlocked(s: State, p: Place)
    requires Inv(s) && QueuesServed(s) && Held(s, p)
    ensures Enabled(s, NextStep(s, p))
  {
    hide Acquire;
    if p.AtQueue? {
      assert s.At(p.id).queue != [];
      assert Serving(s.At(p.id).worker);
      if InJob(s.At(p.id).worker) {
        assert Held(s, AtWorker(p.id));
        OnePlace(s, p, AtWorker(p.id));
      }
    } else if p.AtWorker? {
      assert PlaceLog(s, p);
    }
  }

  // Where the lease is after its holder's step, if it was not given back.
  function After(s: State, p: Place): (q: Place)
    requires LeaseAt(s, p).Some? && Enabled(s, NextStep(s, p))
  {
    match NextStep(s, p)
    case TrySend(thread) => ActingTarget(s, TrySend(thread))
    case Receive(id) => AtWorker(id)
    case Disconnect(id) => AtDrain(id, if p.AtQueue? then p.slot else 0)
    case _ => p
  }

  predicate GivesBack(l: Label) {
    l.DropSubmitterLease? || l.DropJobLease? || l.DropQueued?
  }

  lemma GivingBackFrees(s: State, p: Place)
    requires Inv(s) && Held(s, p) && Enabled(s, NextStep(s, p)) && GivesBack(NextStep(s, p))
    ensures Apply(s, NextStep(s, p)).arbiter.active.None?
  {
    HeldLeaseIsActive(s, p);
    if p.AtDrain? {
      assert Held(s, AtDrain(p.id, 0));
      OnePlace(s, p, AtDrain(p.id, 0));
    }
  }

  lemma SubmitterComesCloser(s: State, p: Place)
    requires Held(s, p) && p.AtSubmitter? && Enabled(s, NextStep(s, p)) && !GivesBack(NextStep(s, p))
    ensures Held(Apply(s, NextStep(s, p)), After(s, p))
    ensures Distance(Apply(s, NextStep(s, p)), After(s, p)) < Distance(s, p)
  {
  }

  lemma WorkerComesCloser(s: State, p: Place)
    requires Held(s, p) && p.AtWorker? && Enabled(s, NextStep(s, p)) && !GivesBack(NextStep(s, p))
    ensures Held(Apply(s, NextStep(s, p)), After(s, p))
    ensures Distance(Apply(s, NextStep(s, p)), After(s, p)) < Distance(s, p)
  {
  }

  lemma StepComesCloser(s: State, p: Place)
    requires Inv(s) && Held(s, p) && Enabled(s, NextStep(s, p)) && !GivesBack(NextStep(s, p))
    ensures Held(Apply(s, NextStep(s, p)), After(s, p))
    ensures Distance(Apply(s, NextStep(s, p)), After(s, p)) < Distance(s, p)
  {
    if p.AtSubmitter? {
      SubmitterComesCloser(s, p);
    } else if p.AtWorker? {
      WorkerComesCloser(s, p);
    } else {
      assert Held(s, AtQueue(p.id, 0));
      OnePlace(s, p, AtQueue(p.id, 0));
    }
  }

  lemma OneStepKeepsInv(s: State, l: Label)
    requires Inv(s) && QueuesServed(s) && Enabled(s, l)
    ensures Inv(Apply(s, l)) && QueuesServed(Apply(s, l))
  {
    StepKeepsQueuesServed(s, l);
    StepKeepsSingleLease(s, l);
    StepKeepsFlags(s, l);
    StepKeepsLogs(s, l);
    StepKeepsPipeline(s, l);
  }

  lemma {:induction false} HolderFinishes(s: State, p: Place) returns (labels: seq<Label>, t: State)
    requires Inv(s) && QueuesServed(s) && Held(s, p)
    ensures Run(s, labels, t) && |labels| <= Distance(s, p) && t.arbiter.active.None?
    decreases Distance(s, p)
  {
    HolderIsNeverBlocked(s, p);
    var l := NextStep(s, p);
    hide Enabled;
    hide Apply;
    hide Inv;
    if GivesBack(l) {
      GivingBackFrees(s, p);
      labels, t := [l], Apply(s, l);
      assert [l][1..] == [];
    } else {
      StepComesCloser(s, p);
      OneStepKeepsInv(s, l);
      var rest;
      rest, t := HolderFinishes(Apply(s, l), After(s, p));
      labels := [l] + rest;
      assert labels[1..] == rest;
    }
  }

  // In every reachable state a held lease is at most nine steps of its own holders away from a free
  // arbiter: no interleaving ever strands the capacity.
  lemma NoLeaseIsStranded(labels: seq<Label>, s: State, p: Place) returns (more: seq<Label>, t: State)
    requires Run(INIT, labels, s) && Held(s, p)
    ensures Enabled(s, NextStep(s, p))
    ensures Run(s, more, t) && |more| <= 9 && t.arbiter.active.None?
  {
    Reachable(labels, s);
    RunKeepsQueuesServed(INIT, labels, s);
    HolderIsNeverBlocked(s, p);
    more, t := HolderFinishes(s, p);
  }
}
