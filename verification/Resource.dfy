// The daemon-wide, non-queueing owner of the cameras and mutable model sessions.
module Resource {
  import opened Wrappers

  datatype Owner = Transaction(transaction: nat) | Operation(operation: nat)

  datatype ActiveLease = ActiveLease(generation: u64, owner: Owner)

  // A lease is both the value a holder keeps and the proof it later gives back.
  datatype Lease = Lease(generation: u64, owner: Owner)

  datatype AcquireError = Busy(owner: Owner) | Unavailable

  datatype Arbiter = Arbiter(nextGeneration: u64, active: Option<ActiveLease>)

  const NEW_ARBITER := Arbiter(0, None)

  // One critical section of `try_acquire`.
  function Acquire(a: Arbiter, owner: Owner): (r: (Arbiter, Result<Lease, AcquireError>))
    ensures r.1.Success? <==> a.active.None? && a.nextGeneration < MAX_U64
    ensures r.1.Success? ==> r.1.value.generation > a.nextGeneration && r.1.value.owner == owner
    ensures r.1.Failure? ==> r.0 == a
  {
    if a.active.Some? then (a, Failure(Busy(a.active.value.owner)))
    else if a.nextGeneration == MAX_U64 then (a, Failure(Unavailable))
    else
      var generation: u64 := a.nextGeneration + 1;
      (Arbiter(generation, Some(ActiveLease(generation, owner))), Success(Lease(generation, owner)))
  }

  // One critical section of the lease destructor: only the matching generation frees the slot.
  function Release(a: Arbiter, lease: Lease): (r: Arbiter)
    ensures r.nextGeneration == a.nextGeneration
    ensures a.active.Some? && a.active.value.generation != lease.generation ==> r == a
  {
    if a.active.Some? && a.active.value.generation == lease.generation
    then a.(active := None)
    else a
  }

  // The mutex-guarded object itself; each method body is one critical section.
  class BiometricResourceArbiter {
    var nextGeneration: u64
    var active: Option<ActiveLease>

    ghost function State(): Arbiter
      reads this
    {
      Arbiter(nextGeneration, active)
    }

    constructor ()
      ensures State() == NEW_ARBITER
    {
      nextGeneration, active := 0, None;
    }

    method TryAcquire(owner: Owner) returns (r: Result<Lease, AcquireError>)
      modifies this
      ensures (State(), r) == Acquire(old(State()), owner)
    {
      if active.Some? {
        return Failure(Busy(active.value.owner));
      }
      if nextGeneration == MAX_U64 {
        return Failure(Unavailable);
      }
      nextGeneration := nextGeneration + 1;
      active := Some(ActiveLease(nextGeneration, owner));
      r := Success(Lease(nextGeneration, owner));
    }

    method DropLease(lease: Lease)
      modifies this
      ensures State() == Release(old(State()), lease)
    {
      if active.Some? && active.value.generation == lease.generation {
        active := None;
      }
    }
  }
}
