// `ShutdownToken` and `ShutdownFuture`: requesters and polling tasks interleaved step by step.
module Shutdown {
  import opened Wrappers

  // A waker is known by the task it wakes; `will_wake` is equality.
  type Waker = nat

  datatype LockOwner = ByRequester(thread: nat) | ByFuture(future: nat)

  datatype Requester =
    | Swapped                 // changed the flag first, has not locked the waiters yet
    | Draining                // holds the lock
    | Returned(first: bool)

  datatype Position =
    | NeverPolled
    | Entered(context: Waker)
    | Registering(context: Waker)   // waiting for the lock
    | Locked(context: Waker)
    | Pushing(context: Waker)       // saw no request while locked
    | Storing(context: Waker)       // waker pushed, lock still held
    | Rechecking(context: Waker)
    | Polled(context: Waker, ready: bool)

  datatype Future = Future(waker: Option<Waker>, position: Position)

  datatype State = State(
    requested: bool,
    lock: Option<LockOwner>,
    waiters: seq<Waker>,
    woken: set<Waker>,
    requesters: map<nat, Requester>,
    futures: map<nat, Future>)

  datatype Label =
    | Swap(thread: nat)
    | LockWaiters(thread: nat)
    | WakeNext(thread: nat)
    | UnlockWaiters(thread: nat)
    | Create(future: nat)
    | Poll(future: nat, context: Waker)
    | FirstCheck(future: nat)
    | LockForRegistration(future: nat)
    | LockedCheck(future: nat)
    | Push(future: nat)
    | Store(future: nat)
    | LastCheck(future: nat)

  const INIT := State(false, None, [], {}, map[], map[])

  predicate RequesterAt(s: State, thread: nat, r: Requester) {
    thread in s.requesters && s.requesters[thread] == r
  }

  predicate Enabled(s: State, l: Label) {
    match l
    case Swap(thread) => thread !in s.requesters
    case LockWaiters(thread) => RequesterAt(s, thread, Swapped) && s.lock.None?
    case WakeNext(thread) => RequesterAt(s, thread, Draining) && s.waiters != []
    case UnlockWaiters(thread) => RequesterAt(s, thread, Draining) && s.waiters == []
    case Create(f) => f !in s.futures
    case Poll(f, _) => f in s.futures && (s.futures[f].position.NeverPolled? || s.futures[f].position.Polled?)
    case FirstCheck(f) => f in s.futures && s.futures[f].position.Entered?
    case LockForRegistration(f) => f in s.futures && s.futures[f].position.Registering? && s.lock.None?
    case LockedCheck(f) => f in s.futures && s.futures[f].position.Locked?
    case Push(f) => f in s.futures && s.futures[f].position.Pushing?
    case Store(f) => f in s.futures && s.futures[f].position.Storing?
    case LastCheck(f) => f in s.futures && s.futures[f].position.Rechecking?
  }

  function Move(s: State, f: nat, position: Position): (t: State)
    requires f in s.futures
  {
    s.(futures := s.futures[f := s.futures[f].(position := position)])
  }

  function Apply(s: State, l: Label): (t: State)
    requires Enabled(s, l)
  {
    match l
    case Swap(thread) =>
      s.(requested := true,
         requesters := s.requesters[thread := if s.requested then Returned(false) else Swapped])
    case LockWaiters(thread) =>
      s.(lock := Some(ByRequester(thread)), requesters := s.requesters[thread := Draining])
    case WakeNext(thread) =>
      s.(woken := s.woken + {s.waiters[0]}, waiters := s.waiters[1..])
    case UnlockWaiters(thread) =>
      s.(lock := None, requesters := s.requesters[thread := Returned(true)])
    case Create(f) =>
      s.(futures := s.futures[f := Future(None, NeverPolled)])
    case Poll(f, context) =>
      Move(s, f, Entered(context))
    case FirstCheck(f) =>
      var context := s.futures[f].position.context;
      if s.requested then Move(s, f, Polled(context, true))
      else if s.futures[f].waker == Some(context) then Move(s, f, Rechecking(context))
      else Move(s, f, Registering(context))
    case LockForRegistration(f) =>
      Move(s, f, Locked(s.futures[f].position.context)).(lock := Some(ByFuture(f)))
    case LockedCheck(f) =>
      var context := s.futures[f].position.context;
      if s.requested then Move(s, f, Polled(context, true)).(lock := None)
      else Move(s, f, Pushing(context))
    case Push(f) =>
      var context := s.futures[f].position.context;
      Move(s, f, Storing(context)).(waiters := s.waiters + [context])
    case Store(f) =>
      var context := s.futures[f].position.context;
      s.(lock := None, futures := s.futures[f := Future(Some(context), Rechecking(context))])
    case LastCheck(f) =>
      Move(s, f, Polled(s.futures[f].position.context, s.requested))
  }

  // The requester whose swap changed the flag has drained the waiters and returned.
  ghost predicate Drained(s: State) {
    exists thread :: RequesterAt(s, thread, Returned(true))
  }

  predicate First(s: State, thread: nat) {
    thread in s.requesters && s.requesters[thread] != Returned(false)
  }

  predicate HoldsLock(p: Position) { p.Locked? || p.Pushing? || p.Storing? }

  // ---------------------------------------------------------------- invariant

  ghost predicate RequestersInv(s: State) {
    && (s.requested <==> exists thread :: First(s, thread))
    && (!s.requested ==> s.requesters == map[] && s.woken == {})
    && (forall m, n :: First(s, m) && First(s, n) ==> m == n)
    && (forall thread :: First(s, thread) && s.requesters[thread].Swapped? ==> s.woken == {})
    && (Drained(s) ==> s.waiters == [])
  }

  ghost predicate LockInv(s: State) {
    && (forall thread :: RequesterAt(s, thread, Draining) <==> s.lock == Some(ByRequester(thread)))
    && (forall f :: (f in s.futures && HoldsLock(s.futures[f].position)) <==> s.lock == Some(ByFuture(f)))
  }

  ghost predicate Registered(s: State, w: Waker) {
    w in s.waiters || w in s.woken
  }

  ghost predicate FutureInv(s: State, f: nat)
    requires f in s.futures
  {
    var future := s.futures[f];
    && (future.waker.Some? ==> Registered(s, future.waker.value))
    && match future.position
       case Pushing(context) => forall thread :: First(s, thread) ==> s.requesters[thread].Swapped?
       case Storing(context) => Registered(s, context)
       case Rechecking(context) => future.waker == Some(context)
       case Polled(context, ready) => if ready then s.requested else future.waker == Some(context)
       case _ => true
  }

  ghost predicate Inv(s: State) {
    && RequestersInv(s)
    && LockInv(s)
    && (forall f :: f in s.futures ==> FutureInv(s, f))
  }

  lemma StepKeepsRequesters(s: State, l: Label)
    requires Enabled(s, l) && Inv(s)
    ensures RequestersInv(Apply(s, l))
  {
    var t := Apply(s, l);
    if s.requested {
      var thread :| First(s, thread);
      assert First(t, thread);
    }
    if l.Swap? {
      assert !s.requested ==> First(t, l.thread);
    }
    if l.UnlockWaiters? || l.WakeNext? {
      assert First(s, l.thread);
    }
    forall m | First(t, m) ensures First(s, m) || (l.Swap? && m == l.thread && s.requesters == map[]) {}
    if Drained(t) {
      var thread :| RequesterAt(t, thread, Returned(true));
      assert First(s, thread);
      if l.Push? { assert false; }
      if !l.UnlockWaiters? { assert RequesterAt(s, thread, Returned(true)); }
    }
  }

  lemma StepKeepsLock(s: State, l: Label)
    requires Enabled(s, l) && Inv(s)
    ensures LockInv(Apply(s, l))
  {
  }

  lemma StepKeepsFuture(s: State, l: Label, f: nat)
    requires Enabled(s, l) && Inv(s) && f in Apply(s, l).futures
    ensures FutureInv(Apply(s, l), f)
  {
    if f in s.futures {
      assert FutureInv(s, f);
    }
  }

  ghost predicate Run(s: State, labels: seq<Label>, t: State)
    decreases |labels|
  {
    if labels == [] then s == t
    else Enabled(s, labels[0]) && Run(Apply(s, labels[0]), labels[1..], t)
  }

  lemma {:induction false} RunKeepsInv(s: State, labels: seq<Label>, t: State)
    requires Inv(s) && Run(s, labels, t)
    ensures Inv(t)
    decreases |labels|
  {
    if labels != [] {
      StepKeepsRequesters(s, labels[0]);
      StepKeepsLock(s, labels[0]);
      forall f | f in Apply(s, labels[0]).futures ensures FutureInv(Apply(s, labels[0]), f) {
        StepKeepsFuture(s, labels[0], f);
      }
      RunKeepsInv(Apply(s, labels[0]), labels[1..], t);
    }
  }

  // Once the first requester's drain has finished, every future whose last poll returned pending
  // has had the waker of that very poll woken.
  lemma NoWakeupIsLost(labels: seq<Label>, s: State, f: nat)
    requires Run(INIT, labels, s) && Drained(s)
    requires f in s.futures && s.futures[f].position.Polled? && !s.futures[f].position.ready
    ensures s.futures[f].position.context in s.woken
  {
    RunKeepsInv(INIT, labels, s);
    assert FutureInv(s, f);
  }

  // A poll that returns pending decides so before any waker at all was woken, so the wake-up that
  // `NoWakeupIsLost` speaks of comes after it; a poll returns ready only after a request.
  lemma PendingPrecedesEveryWake(labels: seq<Label>, s: State, f: nat)
    requires Run(INIT, labels, s) && Enabled(s, LastCheck(f))
    ensures !Apply(s, LastCheck(f)).futures[f].position.ready ==>
              s.woken == {} && s.requesters == map[] && Registered(s, s.futures[f].position.context)
    ensures Apply(s, LastCheck(f)).futures[f].position.ready ==> exists thread :: First(s, thread)
  {
    RunKeepsInv(INIT, labels, s);
    assert FutureInv(s, f);
  }

  // However many threads call `request`, exactly one changes the flag, and no waker is woken
  // before it holds the lock.
  lemma ExactlyOneFirstRequest(labels: seq<Label>, s: State)
    requires Run(INIT, labels, s)
    ensures s.requesters == map[] <==> !s.requested
    ensures s.requested ==> exists thread :: First(s, thread) && forall other :: First(s, other) ==> other == thread
    ensures s.woken != {} ==>
              exists thread :: RequesterAt(s, thread, Draining) || RequesterAt(s, thread, Returned(true))
  {
    RunKeepsInv(INIT, labels, s);
    if s.requested {
      var thread :| First(s, thread);
      assert forall other :: First(s, other) ==> other == thread;
      if s.woken != {} {
        assert RequesterAt(s, thread, Draining) || RequesterAt(s, thread, Returned(true));
      }
    }
  }
}
