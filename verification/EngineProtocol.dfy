// Submitters, the authentication worker and the enrollment worker as one interleaved step system.
// Every step is one atomic action of the program; a run is any enabled sequence of steps.
module EngineProtocol {
  import opened Wrappers
  import opened Resource

  datatype ServiceId = Authentication | Enrollment

  const MAX_PROGRESS_UPDATES := 32

  // 33 for authentication, 34 for enrollment.
  function UpdateCapacity(id: ServiceId): (n: nat) {
    if id.Authentication? then MAX_PROGRESS_UPDATES + 1 else 34
  }

  const REQUEST_QUEUE_CAPACITY := 1

  datatype Update = Progress(owner: Owner) | Completed(owner: Owner)

  // One job's bounded update queue: everything ever sent, how much was taken, receiver alive.
  datatype Channel = Channel(owner: Owner, sent: seq<Update>, received: nat, open: bool) {
    function Pending(): (n: int) { |sent| - received }
  }

  // A thread inside `submit`; a thread absent from the map is not submitting.
  datatype Submitter =
    | Leased(service: ServiceId, lease: Lease)      // try_acquire succeeded
    | LostRace(service: ServiceId, lease: Lease)    // compare_exchange failed, lease still held
    | Won(service: ServiceId, lease: Lease)         // compare_exchange succeeded
    | SendFailed(service: ServiceId, lease: Lease)  // try_send handed the request back
    | Clearing(service: ServiceId)                  // request dropped, flag not yet cleared

  datatype Worker =
    | Polling
    | Received(lease: Lease, progress: nat)         // job dequeued, pipeline not locked
    | Running(lease: Lease, progress: nat)          // pipeline locked
    | Finishing(lease: Lease)                       // engine returned
    | Sent(lease: Lease, delivered: bool)           // terminal update sent
    | Cleared(lease: Lease, delivered: bool)        // flag cleared, lease still held
    | Exiting                                       // run_job failed, receiver still alive
    | Draining(leases: seq<Lease>)                  // receiver gone, queued requests being dropped
    | Stopped

  datatype Service = Service(flag: bool, queue: seq<Lease>, worker: Worker)

  datatype State = State(
    arbiter: Arbiter,
    authentication: Service,
    enrollment: Service,
    submitters: map<nat, Submitter>,
    channels: map<nat, Channel>,
    pipeline: Option<ServiceId>)
  {
    function At(id: ServiceId): (service: Service) {
      if id.Authentication? then authentication else enrollment
    }

    function With(id: ServiceId, service: Service): (s: State) {
      if id.Authentication? then this.(authentication := service) else this.(enrollment := service)
    }

    function WithWorker(id: ServiceId, w: Worker): (s: State) { With(id, At(id).(worker := w)) }

    function WithFlag(id: ServiceId, flag: bool): (s: State) { With(id, At(id).(flag := flag)) }
  }

  datatype Label =
    | AcquireLease(thread: nat, service: ServiceId, owner: Owner)
    | CompareExchange(thread: nat)
    | TrySend(thread: nat)
    | DropSubmitterLease(thread: nat)
    | ClearSubmitterFlag(thread: nat)
    | Receive(id: ServiceId)
    | EnterPipeline(id: ServiceId)
    | SendProgress(id: ServiceId)
    | FinishEngine(id: ServiceId)
    | SendTerminal(id: ServiceId)
    | ClearWorkerFlag(id: ServiceId)
    | DropJobLease(id: ServiceId)
    | StopPolling(id: ServiceId)
    | Disconnect(id: ServiceId)
    | DropQueued(id: ServiceId)
    | TakeUpdate(job: nat)
    | CloseReceiver(job: nat)

  const NEW_SERVICE := Service(false, [], Polling)

  const INIT := State(NEW_ARBITER, NEW_SERVICE, NEW_SERVICE, map[], map[], None)

  predicate Serving(w: Worker) { !w.Draining? && !w.Stopped? }

  predicate InJob(w: Worker) { w.Received? || w.Running? || w.Finishing? || w.Sent? || w.Cleared? }

  predicate InEngine(w: Worker) { w.Received? || w.Running? }

  // ---------------------------------------------------------------- steps

  predicate Enabled(s: State, l: Label) {
    match l
    case AcquireLease(thread, service, owner) =>
      thread !in s.submitters && (service.Authentication? <==> owner.Transaction?)
    case CompareExchange(thread) => thread in s.submitters && s.submitters[thread].Leased?
    case TrySend(thread) =>
      thread in s.submitters && s.submitters[thread].Won?
    case DropSubmitterLease(thread) =>
      thread in s.submitters && (s.submitters[thread].LostRace? || s.submitters[thread].SendFailed?)
    case ClearSubmitterFlag(thread) => thread in s.submitters && s.submitters[thread].Clearing?
    case Receive(id) => s.At(id).worker.Polling? && s.At(id).queue != []
    case EnterPipeline(id) => s.At(id).worker.Received?
    case SendProgress(id) =>
      InEngine(s.At(id).worker) && s.At(id).worker.progress < MAX_PROGRESS_UPDATES &&
      s.At(id).worker.lease.generation in s.channels
    case FinishEngine(id) => InEngine(s.At(id).worker)
    case SendTerminal(id) =>
      // A blocking send proceeds when there is room or nobody is left to read.
      var w := s.At(id).worker;
      w.Finishing? && w.lease.generation in s.channels &&
      var c := s.channels[w.lease.generation];
      c.open ==> c.Pending() < UpdateCapacity(id)
    case ClearWorkerFlag(id) => s.At(id).worker.Sent?
    case DropJobLease(id) => s.At(id).worker.Cleared?
    case StopPolling(id) => s.At(id).worker.Polling?
    case Disconnect(id) => s.At(id).worker.Exiting?
    case DropQueued(id) => s.At(id).worker.Draining?
    case TakeUpdate(job) =>
      job in s.channels && s.channels[job].open && s.channels[job].received < |s.channels[job].sent|
    case CloseReceiver(job) => job in s.channels
  }

  function Apply(s: State, l: Label): (t: State)
    requires Enabled(s, l)
  {
    match l
    case AcquireLease(thread, service, owner) =>
      var (arbiter, r) := Acquire(s.arbiter, owner);
      if r.Failure? then s
      else s.(arbiter := arbiter, submitters := s.submitters[thread := Leased(service, r.value)])
    case CompareExchange(thread) =>
      var Leased(id, lease) := s.submitters[thread];
      if s.At(id).flag then
        s.(submitters := s.submitters[thread := LostRace(id, lease)])
      else
        s.WithFlag(id, true).(
          submitters := s.submitters[thread := Won(id, lease)],
          channels := s.channels[lease.generation := Channel(lease.owner, [], 0, true)])
    case TrySend(thread) =>
      var Won(id, lease) := s.submitters[thread];
      var service := s.At(id);
      if Serving(service.worker) && |service.queue| < REQUEST_QUEUE_CAPACITY then
        s.With(id, service.(queue := service.queue + [lease])).(submitters := s.submitters - {thread})
      else
        s.(submitters := s.submitters[thread := SendFailed(id, lease)])
    case DropSubmitterLease(thread) =>
      var submitter := s.submitters[thread];
      s.(arbiter := Release(s.arbiter, submitter.lease),
         submitters := if submitter.LostRace? then s.submitters - {thread}
                       else s.submitters[thread := Clearing(submitter.service)])
    case ClearSubmitterFlag(thread) =>
      s.WithFlag(s.submitters[thread].service, false).(submitters := s.submitters - {thread})
    case Receive(id) =>
      var service := s.At(id);
      s.With(id, service.(queue := service.queue[1..], worker := Received(service.queue[0], 0)))
    case EnterPipeline(id) =>
      var lease := s.At(id).worker.lease;
      if s.pipeline.None? then
        s.WithWorker(id, Running(lease, s.At(id).worker.progress)).(pipeline := Some(id))
      else
        s.WithWorker(id, Finishing(lease))
    case SendProgress(id) =>
      var w := s.At(id).worker;
      var c := s.channels[w.lease.generation];
      if c.open && c.Pending() < UpdateCapacity(id) then
        s.WithWorker(id, w.(progress := w.progress + 1)).(
          channels := s.channels[w.lease.generation := c.(sent := c.sent + [Progress(w.lease.owner)])])
      else s
    case FinishEngine(id) =>
      var w := s.At(id).worker;
      s.WithWorker(id, Finishing(w.lease)).(pipeline := if w.Running? then None else s.pipeline)
    case SendTerminal(id) =>
      var lease := s.At(id).worker.lease;
      var c := s.channels[lease.generation];
      if c.open then
        s.WithWorker(id, Sent(lease, true)).(
          channels := s.channels[lease.generation := c.(sent := c.sent + [Completed(lease.owner)])])
      else
        s.WithWorker(id, Sent(lease, false))
    case ClearWorkerFlag(id) =>
      var w := s.At(id).worker;
      s.With(id, s.At(id).(flag := false, worker := Cleared(w.lease, w.delivered)))
    case DropJobLease(id) =>
      var w := s.At(id).worker;
      s.WithWorker(id, if w.delivered then Polling else Exiting).(arbiter := Release(s.arbiter, w.lease))
    case StopPolling(id) => s.WithWorker(id, Exiting)
    case Disconnect(id) =>
      s.With(id, s.At(id).(queue := [], worker := Draining(s.At(id).queue)))
    case DropQueued(id) =>
      var leases := s.At(id).worker.leases;
      if leases == [] then s.WithWorker(id, Stopped)
      else s.WithWorker(id, Draining(leases[1..])).(arbiter := Release(s.arbiter, leases[0]))
    case TakeUpdate(job) =>
      s.(channels := s.channels[job := s.channels[job].(received := s.channels[job].received + 1)])
    case CloseReceiver(job) =>
      s.(channels := s.channels[job := s.channels[job].(open := false)])
  }

  // ---------------------------------------------------------------- where leases live

  datatype Place =
    | AtSubmitter(thread: nat)
    | AtQueue(id: ServiceId, slot: nat)
    | AtWorker(id: ServiceId)
    | AtDrain(id: ServiceId, slot: nat)

  function LeaseAt(s: State, p: Place): (lease: Option<Lease>)
  {
    match p
    case AtSubmitter(thread) =>
      if thread in s.submitters && !s.submitters[thread].Clearing?
      then Some(s.submitters[thread].lease) else None
    case AtQueue(id, slot) =>
      if slot < |s.At(id).queue| then Some(s.At(id).queue[slot]) else None
    case AtWorker(id) =>
      if InJob(s.At(id).worker) then Some(s.At(id).worker.lease) else None
    case AtDrain(id, slot) =>
      var w := s.At(id).worker;
      if w.Draining? && slot < |w.leases| then Some(w.leases[slot]) else None
  }

  ghost predicate Held(s: State, p: Place)
  {
    LeaseAt(s, p).Some?
  }

  // `h` is the only place with a lease, and the arbiter's active entry is exactly that lease.
  ghost predicate HolderIs(s: State, h: Option<Place>) {
    && (forall p :: Held(s, p) ==> h == Some(p))
    && (h.Some? ==> Held(s, h.value))
    && s.arbiter.active ==
       (if h.None? then None
        else Some(ActiveLease(LeaseAt(s, h.value).value.generation, LeaseAt(s, h.value).value.owner)))
  }

  ghost predicate SingleLease(s: State) {
    exists h :: HolderIs(s, h)
  }

  // A held place whose job still owns the service's atomic flag.
  ghost predicate OwnsFlag(s: State, id: ServiceId, p: Place)
  {
    Held(s, p) &&
    match p
    case AtSubmitter(thread) => s.submitters[thread].Won? && s.submitters[thread].service == id
    case AtQueue(queueId, _) => queueId == id
    case AtWorker(workerId) => workerId == id && !s.At(id).worker.Cleared?
    case AtDrain(_, _) => false
  }

  ghost predicate FlagOwned(s: State)
  {
    && (forall id: ServiceId :: s.At(id).flag && Serving(s.At(id).worker) ==>
          exists p :: OwnsFlag(s, id, p))
    && (forall thread ::
          thread in s.submitters && (s.submitters[thread].SendFailed? || s.submitters[thread].Clearing?) ==>
          !Serving(s.At(s.submitters[thread].service).worker))
  }

  // Progress updates first, at most one terminal update, all bound to the job's own owner.
  ghost predicate LogWellFormed(c: Channel) {
    && c.received <= |c.sent| <= MAX_PROGRESS_UPDATES + 1
    && (forall i :: 0 <= i < |c.sent| ==> c.sent[i].owner == c.owner)
    && (forall i :: 0 <= i < |c.sent| && c.sent[i].Completed? ==> i == |c.sent| - 1)
    && (|c.sent| == MAX_PROGRESS_UPDATES + 1 ==> c.sent[MAX_PROGRESS_UPDATES].Completed?)
  }

  ghost predicate NoTerminal(c: Channel) {
    forall i :: 0 <= i < |c.sent| ==> c.sent[i].Progress?
  }

  // A lease that has passed `compare_exchange` has its own channel, still without a terminal update.
  ghost predicate OpenLog(s: State, lease: Lease) {
    && lease.generation in s.channels
    && s.channels[lease.generation].owner == lease.owner
    && NoTerminal(s.channels[lease.generation])
  }

  // What the channel of the job whose lease lives at `p` holds.
  ghost predicate PlaceLog(s: State, p: Place) {
    Held(s, p) ==>
      var lease := LeaseAt(s, p).value;
      match p
      case AtSubmitter(thread) =>
        && (s.submitters[thread].Leased? ==> lease.generation !in s.channels)
        && (s.submitters[thread].Won? ==> OpenLog(s, lease) && s.channels[lease.generation].sent == [])
      case AtQueue(_, _) => OpenLog(s, lease) && s.channels[lease.generation].sent == []
      case AtWorker(id) =>
        var w := s.At(id).worker;
        && (InEngine(w) ==>
              OpenLog(s, lease) && |s.channels[lease.generation].sent| == w.progress <= MAX_PROGRESS_UPDATES)
        && (w.Finishing? ==> OpenLog(s, lease) && |s.channels[lease.generation].sent| <= MAX_PROGRESS_UPDATES)
      case AtDrain(_, _) => true
  }

  ghost predicate ChannelsWellFormed(s: State) {
    && (forall job :: job in s.channels ==> job <= s.arbiter.nextGeneration && LogWellFormed(s.channels[job]))
    && (s.arbiter.active.Some? ==> s.arbiter.active.value.generation == s.arbiter.nextGeneration)
  }

  ghost predicate Logs(s: State) {
    ChannelsWellFormed(s) && forall p :: PlaceLog(s, p)
  }

  ghost predicate PipelineMatches(s: State)
  {
    forall id: ServiceId :: s.pipeline == Some(id) <==> s.At(id).worker.Running?
  }

  ghost predicate Inv(s: State) {
    && SingleLease(s)
    && FlagOwned(s)
    && Logs(s)
    && PipelineMatches(s)
  }

  // ---------------------------------------------------------------- each step keeps the invariant

  // A step that neither takes, moves nor drops a lease leaves the holder where it was.
  lemma HolderStays(s: State, t: State, h: Option<Place>)
    requires HolderIs(s, h) && t.arbiter == s.arbiter
    requires forall q :: LeaseAt(t, q) == LeaseAt(s, q)
    ensures HolderIs(t, h)
  {
    hide LeaseAt;
    forall q | Held(t, q) ensures h == Some(q) {
      assert LeaseAt(t, q) == LeaseAt(s, q) && Held(s, q);
    }
    if h.Some? { assert LeaseAt(t, h.value) == LeaseAt(s, h.value) && Held(s, h.value); }
  }

  // The only lease moves from one place to another.
  lemma HolderMoves(s: State, t: State, p: Place, k: Place)
    requires HolderIs(s, Some(p)) && t.arbiter == s.arbiter && p != k
    requires LeaseAt(t, k) == LeaseAt(s, p) && LeaseAt(t, p).None?
    requires forall q :: q != p && q != k ==> LeaseAt(t, q) == LeaseAt(s, q)
    ensures HolderIs(t, Some(k))
  {
    hide LeaseAt;
    forall q ensures Held(t, q) ==> q == k {
      assert q != p && q != k ==> LeaseAt(t, q) == LeaseAt(s, q);
      assert Held(s, q) ==> q == p;
    }
  }

  lemma AcquireStepTakesLease(s: State, l: Label, h: Option<Place>) returns (k: Option<Place>)
    requires Enabled(s, l) && HolderIs(s, h) && l.AcquireLease?
    ensures HolderIs(Apply(s, l), k)
  {
    k := h;
    if Acquire(s.arbiter, l.owner).1.Success? { k := Some(AtSubmitter(l.thread)); }
  }

  lemma TrySendMovesLease(s: State, l: Label, h: Option<Place>) returns (k: Option<Place>)
    requires Enabled(s, l) && HolderIs(s, h) && l.TrySend?
    ensures HolderIs(Apply(s, l), k)
  {
    k := h;
    assert Held(s, AtSubmitter(l.thread));
    var id := s.submitters[l.thread].service;
    assert !Held(s, AtQueue(id, 0));
    assert s.At(id).queue == [];
    if Serving(s.At(id).worker) {
      k := Some(AtQueue(id, 0));
      HolderMoves(s, Apply(s, l), AtSubmitter(l.thread), AtQueue(id, 0));
    } else {
      HolderStays(s, Apply(s, l), h);
    }
  }

  lemma SubmitterStepMovesLease(s: State, l: Label, h: Option<Place>) returns (k: Option<Place>)
    requires Enabled(s, l) && HolderIs(s, h)
    requires l.AcquireLease? || l.CompareExchange? || l.TrySend? || l.DropSubmitterLease? || l.ClearSubmitterFlag?
    ensures HolderIs(Apply(s, l), k)
  {
    k := h;
    if l.AcquireLease? {
      k := AcquireStepTakesLease(s, l, h);
    } else if l.TrySend? {
      k := TrySendMovesLease(s, l, h);
    } else if l.DropSubmitterLease? {
      assert Held(s, AtSubmitter(l.thread));
      ReleasedLease(s, Apply(s, l), AtSubmitter(l.thread));
      k := None;
    } else {
      HolderStays(s, Apply(s, l), h);
    }
  }

  lemma ReceiveMovesLease(s: State, id: ServiceId, h: Option<Place>)
    requires Enabled(s, Receive(id)) && HolderIs(s, h)
    ensures HolderIs(Apply(s, Receive(id)), Some(AtWorker(id)))
  {
    var t := Apply(s, Receive(id));
    var queue := s.At(id).queue;
    assert Held(s, AtQueue(id, 0)) && (|queue| > 1 ==> Held(s, AtQueue(id, 1)));
    assert queue[1..] == [];
    assert t.At(id).queue == [];
    forall q | q != AtWorker(id) ensures !Held(t, q) {
      if q != AtQueue(id, 0) {
        assert LeaseAt(t, q) == LeaseAt(s, q);
        assert Held(s, q) ==> h == Some(q);
      }
    }
  }

  // The place in the new state that holds what `p` held before the receiver was dropped.
  function AfterDisconnect(id: ServiceId, p: Place): (q: Place) {
    if p.AtQueue? && p.id == id then AtDrain(id, p.slot) else p
  }

  lemma DisconnectMovesLease(s: State, id: ServiceId, h: Option<Place>) returns (k: Option<Place>)
    requires Enabled(s, Disconnect(id)) && HolderIs(s, h)
    ensures HolderIs(Apply(s, Disconnect(id)), k)
  {
    var t := Apply(s, Disconnect(id));
    k := if h.None? then None else Some(AfterDisconnect(id, h.value));
    forall q | Held(t, q) ensures k == Some(q) {
      var p := if q.AtDrain? && q.id == id then AtQueue(id, q.slot) else q;
      assert LeaseAt(s, p) == LeaseAt(t, q);
      assert Held(s, p);
    }
    if h.Some? {
      assert LeaseAt(t, k.value) == LeaseAt(s, h.value);
    }
  }

  // Giving the only lease back empties the arbiter.
  lemma ReleasedLease(s: State, t: State, p: Place)
    requires HolderIs(s, Some(p))
    requires t.arbiter == Release(s.arbiter, LeaseAt(s, p).value)
    requires LeaseAt(t, p).None?
    requires forall q :: q != p ==> LeaseAt(t, q) == LeaseAt(s, q)
    ensures HolderIs(t, None)
  {
    forall q ensures !Held(t, q) {
      if q != p { assert LeaseAt(t, q) == LeaseAt(s, q); assert !Held(s, q); }
    }
  }

  lemma JobReleasesLease(s: State, id: ServiceId, h: Option<Place>)
    requires Enabled(s, DropJobLease(id)) && HolderIs(s, h)
    ensures HolderIs(Apply(s, DropJobLease(id)), None)
  {
    assert Held(s, AtWorker(id));
    ReleasedLease(s, Apply(s, DropJobLease(id)), AtWorker(id));
  }

  lemma QueuedReleasesLease(s: State, id: ServiceId, h: Option<Place>)
    requires Enabled(s, DropQueued(id)) && HolderIs(s, h) && s.At(id).worker.leases != []
    ensures HolderIs(Apply(s, DropQueued(id)), None)
  {
    var leases := s.At(id).worker.leases;
    assert Held(s, AtDrain(id, 0)) && !Held(s, AtDrain(id, 1));
    assert leases[1..] == [];
    hide Release;
    ReleasedLease(s, Apply(s, DropQueued(id)), AtDrain(id, 0));
  }

  lemma DrainReleasesLease(s: State, id: ServiceId, h: Option<Place>) returns (k: Option<Place>)
    requires Enabled(s, DropQueued(id)) && HolderIs(s, h)
    ensures HolderIs(Apply(s, DropQueued(id)), k)
  {
    if s.At(id).worker.leases != [] {
      QueuedReleasesLease(s, id, h);
      k := None;
    } else {
      hide HolderIs;
      HolderStays(s, Apply(s, DropQueued(id)), h);
      k := h;
    }
  }

  lemma WorkerReleasesLease(s: State, l: Label, h: Option<Place>) returns (k: Option<Place>)
    requires Enabled(s, l) && HolderIs(s, h)
    requires l.DropJobLease? || l.DropQueued?
    ensures HolderIs(Apply(s, l), k)
  {
    hide Apply;
    hide HolderIs;
    if l.DropJobLease? {
      JobReleasesLease(s, l.id, h);
      k := None;
    } else {
      k := DrainReleasesLease(s, l.id, h);
    }
  }

  // The remaining steps leave every lease where it is.
  lemma JobStepsKeepLeases(s: State, l: Label, p: Place)
    requires Enabled(s, l)
    requires l.EnterPipeline? || l.SendProgress? || l.FinishEngine?
    ensures LeaseAt(Apply(s, l), p) == LeaseAt(s, p) && Apply(s, l).arbiter == s.arbiter
  {
    hide UpdateCapacity;
  }

  lemma FinishingStepsKeepLeases(s: State, l: Label, p: Place)
    requires Enabled(s, l)
    requires l.SendTerminal? || l.ClearWorkerFlag? || l.StopPolling?
    ensures LeaseAt(Apply(s, l), p) == LeaseAt(s, p) && Apply(s, l).arbiter == s.arbiter
  {
    hide UpdateCapacity;
  }

  lemma OtherStepsKeepLeases(s: State, l: Label, p: Place)
    requires Enabled(s, l)
    requires l.EnterPipeline? || l.SendProgress? || l.FinishEngine? || l.SendTerminal? || l.ClearWorkerFlag?
             || l.StopPolling? || l.TakeUpdate? || l.CloseReceiver?
    ensures LeaseAt(Apply(s, l), p) == LeaseAt(s, p) && Apply(s, l).arbiter == s.arbiter
  {
    if l.EnterPipeline? || l.SendProgress? || l.FinishEngine? {
      JobStepsKeepLeases(s, l, p);
    } else if l.SendTerminal? || l.ClearWorkerFlag? || l.StopPolling? {
      FinishingStepsKeepLeases(s, l, p);
    }
  }

  lemma StepKeepsSingleLease(s: State, l: Label)
    requires Enabled(s, l) && SingleLease(s)
    ensures SingleLease(Apply(s, l))
  {
    var h :| HolderIs(s, h);
    var k := h;
    if l.AcquireLease? || l.CompareExchange? || l.TrySend? || l.DropSubmitterLease? || l.ClearSubmitterFlag? {
      k := SubmitterStepMovesLease(s, l, h);
    } else if l.Receive? {
      ReceiveMovesLease(s, l.id, h);
      k := Some(AtWorker(l.id));
    } else if l.Disconnect? {
      k := DisconnectMovesLease(s, l.id, h);
    } else if l.DropJobLease? || l.DropQueued? {
      k := WorkerReleasesLease(s, l, h);
    } else {
      forall p ensures LeaseAt(Apply(s, l), p) == LeaseAt(s, p) && Apply(s, l).arbiter == s.arbiter {
        OtherStepsKeepLeases(s, l, p);
      }
    }
    assert HolderIs(Apply(s, l), k);
  }

  // Two live leases never exist at once.
  lemma OnePlace(s: State, p: Place, q: Place)
    requires SingleLease(s) && Held(s, p) && Held(s, q)
    ensures p == q
  {
    var h :| HolderIs(s, h);
  }

  lemma HandoffKeepsFlagOwner(s: State, l: Label, id: ServiceId, p: Place)
    requires Enabled(s, l) && SingleLease(s) && OwnsFlag(s, id, p)
    requires (l.TrySend? && Serving(s.At(id).worker)) || l.Receive?
    ensures exists q :: OwnsFlag(Apply(s, l), id, q)
  {
    var t := Apply(s, l);
    if l.TrySend? {
      assert Held(s, AtSubmitter(l.thread));
      OnePlace(s, p, AtSubmitter(l.thread));
      assert !Held(s, AtQueue(id, 0)) by {
        if Held(s, AtQueue(id, 0)) { OnePlace(s, p, AtQueue(id, 0)); }
      }
      assert s.At(id).queue == [];
      assert OwnsFlag(t, id, AtQueue(id, 0));
    } else {
      assert Held(s, AtQueue(l.id, 0));
      OnePlace(s, p, AtQueue(l.id, 0));
      assert OwnsFlag(t, id, AtWorker(id));
    }
  }

  lemma SubmitterStepsKeepFlagOwner(s: State, l: Label, id: ServiceId, p: Place)
    requires Enabled(s, l) && OwnsFlag(s, id, p)
    requires Apply(s, l).At(id).flag && Serving(Apply(s, l).At(id).worker)
    requires l.AcquireLease? || l.CompareExchange? || l.DropSubmitterLease? || l.ClearSubmitterFlag?
    ensures OwnsFlag(Apply(s, l), id, p)
  {
    hide Release;
  }

  lemma OtherStepsKeepFlagOwner(s: State, l: Label, id: ServiceId, p: Place)
    requires Enabled(s, l) && OwnsFlag(s, id, p)
    requires Apply(s, l).At(id).flag && Serving(Apply(s, l).At(id).worker)
    requires !l.TrySend? && !l.Receive?
    ensures OwnsFlag(Apply(s, l), id, p)
  {
    hide Acquire;
    hide Release;
    if l.AcquireLease? || l.CompareExchange? || l.DropSubmitterLease? || l.ClearSubmitterFlag? {
      SubmitterStepsKeepFlagOwner(s, l, id, p);
    }
  }

  lemma FlagStaysOwned(s: State, l: Label, id: ServiceId)
    requires Enabled(s, l) && SingleLease(s) && FlagOwned(s)
    requires Apply(s, l).At(id).flag && Serving(Apply(s, l).At(id).worker)
    ensures exists q :: OwnsFlag(Apply(s, l), id, q)
  {
    if !s.At(id).flag {
      assert OwnsFlag(Apply(s, l), id, AtSubmitter(l.thread));
    } else {
      assert Serving(s.At(id).worker);
      var p :| OwnsFlag(s, id, p);
      if l.TrySend? || l.Receive? {
        HandoffKeepsFlagOwner(s, l, id, p);
      } else {
        OtherStepsKeepFlagOwner(s, l, id, p);
      }
    }
  }

  // A worker that has stopped serving never serves again.
  lemma StoppedStaysStopped(s: State, l: Label, id: ServiceId)
    requires Enabled(s, l) && !Serving(s.At(id).worker)
    ensures !Serving(Apply(s, l).At(id).worker)
  {
    hide Acquire;
    hide Release;
  }

  // A send that is handed back was refused by a worker that has stopped serving.
  lemma RefusedSendMeansStopped(s: State, thread: nat)
    requires Enabled(s, TrySend(thread)) && SingleLease(s) && thread in Apply(s, TrySend(thread)).submitters
    ensures !Serving(s.At(s.submitters[thread].service).worker)
  {
    var id := s.submitters[thread].service;
    assert Held(s, AtSubmitter(thread));
    if s.At(id).queue != [] {
      assert Held(s, AtQueue(id, 0));
      OnePlace(s, AtSubmitter(thread), AtQueue(id, 0));
    }
  }

  // The steps that leave a refused submitter where its send left it.
  lemma RefusedSubmitterCameFrom(s: State, l: Label, thread: nat)
    requires Enabled(s, l) && thread in Apply(s, l).submitters
    requires Apply(s, l).submitters[thread].SendFailed? || Apply(s, l).submitters[thread].Clearing?
    ensures thread in s.submitters && s.submitters[thread].service == Apply(s, l).submitters[thread].service
    ensures l == TrySend(thread) || s.submitters[thread].SendFailed? || s.submitters[thread].Clearing?
  {
    hide Release;
  }

  lemma FailedSendMeansStopped(s: State, l: Label, thread: nat)
    requires Enabled(s, l) && SingleLease(s) && FlagOwned(s)
    requires thread in Apply(s, l).submitters
    requires Apply(s, l).submitters[thread].SendFailed? || Apply(s, l).submitters[thread].Clearing?
    ensures !Serving(Apply(s, l).At(Apply(s, l).submitters[thread].service).worker)
  {
    RefusedSubmitterCameFrom(s, l, thread);
    if l == TrySend(thread) { RefusedSendMeansStopped(s, thread); }
    StoppedStaysStopped(s, l, s.submitters[thread].service);
    hide Apply;
    hide SingleLease;
  }

  lemma StepKeepsFlags(s: State, l: Label)
    requires Enabled(s, l) && SingleLease(s) && FlagOwned(s)
    ensures FlagOwned(Apply(s, l))
  {
    var t := Apply(s, l);
    forall id: ServiceId | t.At(id).flag && Serving(t.At(id).worker)
      ensures exists q :: OwnsFlag(t, id, q)
    {
      FlagStaysOwned(s, l, id);
    }
    forall thread | thread in t.submitters && (t.submitters[thread].SendFailed? || t.submitters[thread].Clearing?)
      ensures !Serving(t.At(t.submitters[thread].service).worker)
    {
      FailedSendMeansStopped(s, l, thread);
    }
  }

  // A thread or worker acting on a lease acts on the arbiter's active generation.
  lemma HeldLeaseIsActive(s: State, p: Place)
    requires SingleLease(s) && Held(s, p)
    ensures s.arbiter.active ==
            Some(ActiveLease(LeaseAt(s, p).value.generation, LeaseAt(s, p).value.owner))
  {
    var h :| HolderIs(s, h);
  }

  // The place a step works on; every other held place is untouched by it.
  function ActingPlace(s: State, l: Label): (p: Option<Place>)
    requires Enabled(s, l)
  {
    match l
    case CompareExchange(thread) => Some(AtSubmitter(thread))
    case TrySend(thread) => Some(AtSubmitter(thread))
    case Receive(id) => Some(AtQueue(id, 0))
    case EnterPipeline(id) => Some(AtWorker(id))
    case SendProgress(id) => Some(AtWorker(id))
    case FinishEngine(id) => Some(AtWorker(id))
    case SendTerminal(id) => Some(AtWorker(id))
    case ClearWorkerFlag(id) => Some(AtWorker(id))
    case _ => None
  }

  // Only three steps write a channel.
  lemma MostStepsKeepChannels(s: State, l: Label)
    requires Enabled(s, l) && !l.CompareExchange? && !l.SendProgress? && !l.SendTerminal? && !l.TakeUpdate?
             && !l.CloseReceiver?
    ensures Apply(s, l).channels == s.channels
    ensures Apply(s, l).arbiter == s.arbiter || l.AcquireLease? || l.DropSubmitterLease? || l.DropJobLease?
            || l.DropQueued?
  {
    hide Acquire;
    hide Release;
  }

  lemma ArbiterStepKeepsChannels(s: State, l: Label)
    requires Enabled(s, l) && ChannelsWellFormed(s)
    requires l.AcquireLease? || l.DropSubmitterLease? || l.DropJobLease? || l.DropQueued?
    ensures ChannelsWellFormed(Apply(s, l))
  {
    MostStepsKeepChannels(s, l);
    hide LogWellFormed;
  }

  lemma LogStepKeepsChannels(s: State, l: Label)
    requires Enabled(s, l) && SingleLease(s) && Logs(s)
    requires l.CompareExchange? || l.SendProgress? || l.SendTerminal? || l.TakeUpdate? || l.CloseReceiver?
    ensures ChannelsWellFormed(Apply(s, l))
  {
    var p := ActingPlace(s, l);
    if p.Some? {
      assert Held(s, p.value) && PlaceLog(s, p.value);
      HeldLeaseIsActive(s, p.value);
    }
  }

  lemma StepKeepsChannels(s: State, l: Label)
    requires Enabled(s, l) && SingleLease(s) && Logs(s)
    ensures ChannelsWellFormed(Apply(s, l))
  {
    if l.AcquireLease? || l.DropSubmitterLease? || l.DropJobLease? || l.DropQueued? {
      ArbiterStepKeepsChannels(s, l);
    } else if l.CompareExchange? || l.SendProgress? || l.SendTerminal? || l.TakeUpdate? || l.CloseReceiver? {
      LogStepKeepsChannels(s, l);
    } else {
      MostStepsKeepChannels(s, l);
      hide Apply;
    }
  }

  // Where the acting place's lease is after the step.
  function ActingTarget(s: State, l: Label): (p: Place)
    requires Enabled(s, l) && ActingPlace(s, l).Some?
  {
    match l
    case TrySend(thread) =>
      var id := s.submitters[thread].service;
      if Serving(s.At(id).worker) && |s.At(id).queue| < REQUEST_QUEUE_CAPACITY then AtQueue(id, 0)
      else AtSubmitter(thread)
    case Receive(id) => AtWorker(id)
    case _ => ActingPlace(s, l).value
  }

  lemma OnlyReceiverHolds(s: State, id: ServiceId, p: Place)
    requires Enabled(s, Receive(id)) && SingleLease(s) && Held(Apply(s, Receive(id)), p)
    ensures p == AtWorker(id)
  {
    assert Held(s, AtQueue(id, 0));
    if p.AtQueue? && p.id == id {
      assert Held(s, AtQueue(id, p.slot + 1));
      OnePlace(s, AtQueue(id, 0), AtQueue(id, p.slot + 1));
    } else if p != AtWorker(id) {
      assert LeaseAt(s, p) == LeaseAt(Apply(s, Receive(id)), p);
      assert Held(s, p);
      OnePlace(s, p, AtQueue(id, 0));
    }
  }

  lemma OnlyTargetIsHeld(s: State, l: Label, p: Place)
    requires Enabled(s, l) && SingleLease(s)
    requires ActingPlace(s, l).Some? && Held(Apply(s, l), p)
    ensures p == ActingTarget(s, l)
  {
    var q := ActingPlace(s, l).value;
    if l.Receive? {
      OnlyReceiverHolds(s, l.id, p);
    } else if p != ActingTarget(s, l) {
      hide Serving;
      assert Held(s, q);
      assert LeaseAt(s, p) == LeaseAt(Apply(s, l), p);
      assert Held(s, p);
      OnePlace(s, p, q);
    }
  }

  lemma SubmitterTargetLog(s: State, l: Label)
    requires Enabled(s, l) && Logs(s)
    requires l.CompareExchange? || l.TrySend? || l.Receive?
    ensures PlaceLog(Apply(s, l), ActingTarget(s, l))
  {
    assert Held(s, ActingPlace(s, l).value) && PlaceLog(s, ActingPlace(s, l).value);
  }

  lemma SendTargetLog(s: State, l: Label)
    requires Enabled(s, l) && (l.SendProgress? || l.SendTerminal?) && PlaceLog(s, AtWorker(l.id))
    ensures PlaceLog(Apply(s, l), AtWorker(l.id))
  {
    assert Held(s, AtWorker(l.id));
  }

  lemma WorkerTargetLog(s: State, l: Label)
    requires Enabled(s, l) && Logs(s)
    requires l.EnterPipeline? || l.SendProgress? || l.FinishEngine? || l.SendTerminal? || l.ClearWorkerFlag?
    ensures PlaceLog(Apply(s, l), ActingTarget(s, l))
  {
    assert Held(s, AtWorker(l.id)) && PlaceLog(s, AtWorker(l.id));
    if l.SendProgress? || l.SendTerminal? {
      SendTargetLog(s, l);
    } else {
      assert Apply(s, l).channels == s.channels;
    }
  }

  lemma ActingStepKeepsPlaceLog(s: State, l: Label, p: Place)
    requires Enabled(s, l) && SingleLease(s) && Logs(s)
    requires ActingPlace(s, l).Some?
    ensures PlaceLog(Apply(s, l), p)
  {
    if Held(Apply(s, l), p) {
      OnlyTargetIsHeld(s, l, p);
      if l.CompareExchange? || l.TrySend? || l.Receive? {
        SubmitterTargetLog(s, l);
      } else {
        WorkerTargetLog(s, l);
      }
    }
  }

  lemma CoordinatorStepKeepsPlaceLog(s: State, l: Label, p: Place)
    requires Enabled(s, l) && PlaceLog(s, p)
    requires l.TakeUpdate? || l.CloseReceiver?
    ensures PlaceLog(Apply(s, l), p)
  {
  }

  lemma AcquireStepKeepsPlaceLog(s: State, l: Label, p: Place)
    requires Enabled(s, l) && ChannelsWellFormed(s) && PlaceLog(s, p)
    requires l.AcquireLease?
    ensures PlaceLog(Apply(s, l), p)
  {
    if p == AtSubmitter(l.thread) && Held(Apply(s, l), p) {
      assert Apply(s, l).submitters[l.thread].lease.generation > s.arbiter.nextGeneration;
    }
  }

  // With the same channels and the same holder, a place keeps its log.
  lemma SameLeaseSameLog(s: State, t: State, p: Place)
    requires PlaceLog(s, p) && t.channels == s.channels
    requires Held(t, p) ==> LeaseAt(t, p) == LeaseAt(s, p)
    requires p.AtSubmitter? && Held(t, p) ==>
               p.thread in s.submitters && t.submitters[p.thread] == s.submitters[p.thread]
    requires p.AtWorker? && Held(t, p) ==> t.At(p.id).worker == s.At(p.id).worker
    ensures PlaceLog(t, p)
  {
  }

  lemma ReleaseStepKeepsPlaceLog(s: State, l: Label, p: Place)
    requires Enabled(s, l) && PlaceLog(s, p)
    requires ActingPlace(s, l).None? && !l.AcquireLease? && !l.TakeUpdate? && !l.CloseReceiver?
    ensures PlaceLog(Apply(s, l), p)
  {
    hide Acquire;
    hide Release;
    hide OpenLog;
    hide Serving;
    if !p.AtDrain? { SameLeaseSameLog(s, Apply(s, l), p); }
  }

  lemma StepKeepsLogs(s: State, l: Label)
    requires Enabled(s, l) && SingleLease(s) && Logs(s)
    ensures Logs(Apply(s, l))
  {
    StepKeepsChannels(s, l);
    forall p ensures PlaceLog(Apply(s, l), p) {
      if ActingPlace(s, l).Some? {
        ActingStepKeepsPlaceLog(s, l, p);
      } else {
        assert PlaceLog(s, p);
        if l.TakeUpdate? || l.CloseReceiver? {
          CoordinatorStepKeepsPlaceLog(s, l, p);
        } else if l.AcquireLease? {
          AcquireStepKeepsPlaceLog(s, l, p);
        } else {
          ReleaseStepKeepsPlaceLog(s, l, p);
        }
      }
    }
  }

  lemma StepKeepsPipeline(s: State, l: Label)
    requires Enabled(s, l) && PipelineMatches(s)
    ensures PipelineMatches(Apply(s, l))
  {
    hide Acquire;
    hide Release;
    forall id: ServiceId ensures Apply(s, l).pipeline == Some(id) <==> Apply(s, l).At(id).worker.Running? {
      assert s.pipeline == Some(id) <==> s.At(id).worker.Running?;
    }
  }

  // ---------------------------------------------------------------- every interleaving

  ghost predicate Run(s: State, labels: seq<Label>, t: State)
    decreases |labels|
  {
    if labels == [] then s == t
    else Enabled(s, labels[0]) && Run(Apply(s, labels[0]), labels[1..], t)
  }

  lemma InitInv()
    ensures Inv(INIT)
  {
    assert HolderIs(INIT, None);
  }

  lemma {:induction false} RunKeepsInv(s: State, labels: seq<Label>, t: State)
    requires Inv(s) && Run(s, labels, t)
    ensures Inv(t)
    decreases |labels|
  {
    if labels != [] {
      StepKeepsSingleLease(s, labels[0]);
      StepKeepsFlags(s, labels[0]);
      StepKeepsLogs(s, labels[0]);
      StepKeepsPipeline(s, labels[0]);
      RunKeepsInv(Apply(s, labels[0]), labels[1..], t);
    }
  }

  lemma Reachable(labels: seq<Label>, s: State)
    requires Run(INIT, labels, s)
    ensures Inv(s)
  {
    InitInv();
    RunKeepsInv(INIT, labels, s);
  }

  // In every interleaving at most one job executes, so the pipeline lock is free when a job asks.
  lemma AtMostOneJob(labels: seq<Label>, s: State)
    requires Run(INIT, labels, s)
    ensures InJob(s.authentication.worker) ==> !InJob(s.enrollment.worker)
    ensures forall id: ServiceId :: s.At(id).worker.Received? ==>
              s.pipeline.None? && Apply(s, EnterPipeline(id)).At(id).worker.Running?
  {
    Reachable(labels, s);
    if InJob(s.authentication.worker) && InJob(s.enrollment.worker) {
      OnePlace(s, AtWorker(Authentication), AtWorker(Enrollment));
    }
    forall id: ServiceId | s.At(id).worker.Received? ensures s.pipeline.None? {
      if s.pipeline.Some? {
        assert s.At(s.pipeline.value).worker.Running?;
        assert Held(s, AtWorker(id)) && Held(s, AtWorker(s.pipeline.value));
        OnePlace(s, AtWorker(id), AtWorker(s.pipeline.value));
      }
    }
  }

  // The arbiter is occupied exactly while some holder lives, there is one holder, its generation is
  // the active one, and giving the lease back always frees the arbiter.
  lemma ArbiterMatchesTheLiveLease(labels: seq<Label>, s: State)
    requires Run(INIT, labels, s)
    ensures s.arbiter.active.Some? <==> exists p :: Held(s, p)
    ensures forall p, q :: Held(s, p) && Held(s, q) ==> p == q
    ensures forall p :: Held(s, p) ==>
              && s.arbiter.active.Some?
              && s.arbiter.active.value.generation == LeaseAt(s, p).value.generation == s.arbiter.nextGeneration
              && Release(s.arbiter, LeaseAt(s, p).value).active.None?
  {
    Reachable(labels, s);
    var h :| HolderIs(s, h);
    if h.Some? { assert Held(s, h.value); }
  }

  // A submitter that won the flag finds both request queues empty; its send can only be refused by
  // a worker that has stopped receiving, and the flag can only be lost to such a worker.
  lemma SubmissionNeverQueues(labels: seq<Label>, s: State, thread: nat)
    requires Run(INIT, labels, s) && thread in s.submitters
    ensures s.submitters[thread].Won? ==>
              && s.authentication.queue == [] && s.enrollment.queue == []
              && (thread in Apply(s, TrySend(thread)).submitters <==>
                  !Serving(s.At(s.submitters[thread].service).worker))
    ensures s.submitters[thread].Leased? && s.At(s.submitters[thread].service).flag ==>
              !Serving(s.At(s.submitters[thread].service).worker)
  {
    Reachable(labels, s);
    var submitter := s.submitters[thread];
    if submitter.Won? {
      assert Held(s, AtSubmitter(thread));
      forall id: ServiceId ensures s.At(id).queue == [] {
        if s.At(id).queue != [] {
          assert Held(s, AtQueue(id, 0));
          OnePlace(s, AtSubmitter(thread), AtQueue(id, 0));
        }
      }
      assert s.At(Authentication).queue == [] && s.At(Enrollment).queue == [];
    }
    if submitter.Leased? && s.At(submitter.service).flag && Serving(s.At(submitter.service).worker) {
      var p :| OwnsFlag(s, submitter.service, p);
      assert Held(s, AtSubmitter(thread));
      OnePlace(s, p, AtSubmitter(thread));
    }
  }

  // Within the 32-update budget a progress update always fits, the terminal send never blocks, and
  // no update queue ever holds more than its capacity.
  lemma UpdatesNeverBlock(labels: seq<Label>, s: State)
    requires Run(INIT, labels, s)
    ensures forall id: ServiceId :: s.At(id).worker.Finishing? ==> Enabled(s, SendTerminal(id))
    ensures forall id: ServiceId :: InEngine(s.At(id).worker) && s.At(id).worker.progress < MAX_PROGRESS_UPDATES ==>
              && Enabled(s, SendProgress(id))
              && s.channels[s.At(id).worker.lease.generation].Pending() < UpdateCapacity(id)
    ensures forall job :: job in s.channels ==> s.channels[job].Pending() <= 33
    ensures 33 == UpdateCapacity(Authentication) < UpdateCapacity(Enrollment) == 34
  {
    Reachable(labels, s);
    forall id: ServiceId | InJob(s.At(id).worker) ensures PlaceLog(s, AtWorker(id)) && Held(s, AtWorker(id)) {}
  }

  // What a job's receiver can ever read: at most 32 progress updates, then at most one terminal
  // update as the last one, each bound to that job; and no second lease ever reuses the channel.
  lemma UpdateStreamsAreBound(labels: seq<Label>, s: State, job: nat)
    requires Run(INIT, labels, s) && job in s.channels
    ensures LogWellFormed(s.channels[job])
    ensures forall thread :: thread in s.submitters && s.submitters[thread].Leased? ==>
              s.submitters[thread].lease.generation != job
  {
    Reachable(labels, s);
    forall thread | thread in s.submitters && s.submitters[thread].Leased?
      ensures s.submitters[thread].lease.generation != job
    {
      assert PlaceLog(s, AtSubmitter(thread)) && Held(s, AtSubmitter(thread));
    }
  }

  // Reading a terminal update does not mean capacity is free: while the worker that sent it still
  // has its flag to clear or its lease to drop, every acquisition is refused and changes nothing.
  lemma ResultPrecedesCapacity(labels: seq<Label>, s: State, id: ServiceId, l: Label)
    requires Run(INIT, labels, s)
    requires s.At(id).worker.Sent? || s.At(id).worker.Cleared?
    requires l.AcquireLease? && Enabled(s, l)
    ensures Apply(s, l) == s && Acquire(s.arbiter, l.owner).1 == Failure(Busy(s.At(id).worker.lease.owner))
  {
    Reachable(labels, s);
    assert Held(s, AtWorker(id));
    HeldLeaseIsActive(s, AtWorker(id));
  }
}
