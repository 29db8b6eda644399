// The single-capacity authentication transaction manager.
module Sessions {
  import opened Wrappers
  import opened Protocol

  datatype SessionError =
    | InvalidConfig | DeadlineOverflow | Busy | NoActiveTransaction | WrongConnection | WrongTransaction
    | ReservedDecision

  const MAX_TRANSACTION_DURATION_MICROS := 60_000_000

  predicate ValidDuration(duration: u64) {
    1_000_000 <= duration <= MAX_TRANSACTION_DURATION_MICROS
  }

  datatype Slot = Slot(transaction: TransactionId, uid: nat, connection: ConnectionToken, deadline: u64)

  // ---------------------------------------------------------------- the manager as a step function

  datatype Operation =
    | Start(transaction: TransactionId, uid: nat, connection: ConnectionToken, now: u64)
    | Report(connection: ConnectionToken, transaction: TransactionId, progress: ProgressCode, now: u64)
    | Complete(connection: ConnectionToken, transaction: TransactionId, decision: DecisionCode, now: u64)
    | Abort(connection: ConnectionToken, transaction: TransactionId, now: u64)
    | Expire(now: u64)

  datatype Outcome = Emitted(response: Response) | Refused(error: SessionError) | Silent

  function Binding(active: Option<Slot>, connection: ConnectionToken, transaction: TransactionId)
    : (r: Result<Slot, SessionError>)
    ensures r.Success? ==> active == Some(r.value)
  {
    if active.None? then Failure(NoActiveTransaction)
    else if active.value.connection != connection then Failure(WrongConnection)
    else if active.value.transaction != transaction then Failure(WrongTransaction)
    else Success(active.value)
  }

  // Ends the bound transaction: with `TimedOut` once its deadline is reached, otherwise as asked.
  function Ended(slot: Slot, decision: DecisionCode, now: u64): (o: Outcome) {
    Emitted(Completed(slot.transaction, if now >= slot.deadline then TimedOut else decision))
  }

  function Step(duration: u64, active: Option<Slot>, op: Operation): (r: (Option<Slot>, Outcome)) {
    match op
    case Start(transaction, uid, connection, now) =>
      if active.Some? then (active, Refused(SessionError.Busy))
      else if now + duration > MAX_U64 then (active, Refused(DeadlineOverflow))
      else (Some(Slot(transaction, uid, connection, now + duration)), Emitted(Started(transaction)))
    case Report(connection, transaction, progress, now) =>
      (match Binding(active, connection, transaction)
       case Failure(e) => (active, Refused(e))
       case Success(slot) =>
         if now >= slot.deadline then (None, Ended(slot, TimedOut, now))
         else (active, Emitted(Progress(transaction, progress))))
    case Complete(connection, transaction, decision, now) =>
      if Reserved(decision) then (active, Refused(ReservedDecision))
      else
        (match Binding(active, connection, transaction)
         case Failure(e) => (active, Refused(e))
         case Success(slot) => (None, Ended(slot, decision, now)))
    case Abort(connection, transaction, now) =>
      (match Binding(active, connection, transaction)
       case Failure(e) => (active, Refused(e))
       case Success(slot) => (None, Ended(slot, DecisionCode.Cancelled, now)))
    case Expire(now) =>
      if active.Some? && now >= active.value.deadline then (None, Ended(active.value, TimedOut, now))
      else (active, Silent)
  }

  // ---------------------------------------------------------------- whole runs

  // One response handed out, and the clock reading it was decided at.
  datatype Entry = Entry(response: Response, now: u64)

  datatype RunState = RunState(active: Option<Slot>, history: seq<Entry>)

  function After(duration: u64, s: RunState, op: Operation): (t: RunState) {
    var (active, outcome) := Step(duration, s.active, op);
    RunState(active, if outcome.Emitted? then s.history + [Entry(outcome.response, op.now)] else s.history)
  }

  // The state after any list of operations on a new manager.
  function Run(duration: u64, ops: seq<Operation>): (s: RunState) {
    if ops == [] then RunState(None, [])
    else After(duration, Run(duration, ops[..|ops| - 1]), ops[|ops| - 1])
  }

  // When the latest transaction was started.
  function LastStart(history: seq<Entry>): (now: u64) {
    if history == [] then 0
    else if history[|history| - 1].response.Started? then history[|history| - 1].now
    else LastStart(history[..|history| - 1])
  }

  // What may follow the responses `before`: a start only after a terminal response, and everything
  // else only inside the transaction that was started; `TimedOut` exactly from its deadline on.
  ghost predicate Follows(duration: u64, before: seq<Entry>, e: Entry) {
    if before == [] || before[|before| - 1].response.Completed? then e.response.Started?
    else
      && (e.response.Progress? || e.response.Completed?)
      && e.response.transaction == before[|before| - 1].response.transaction
      && (e.response.Completed? && e.response.decision == TimedOut <==> e.now >= LastStart(before) + duration)
  }

  ghost predicate WellFormed(duration: u64, history: seq<Entry>) {
    forall i :: 0 <= i < |history| ==> Follows(duration, history[..i], history[i])
  }

  // The slot is occupied by the last transaction exactly while it has no terminal response.
  ghost predicate SlotMatches(duration: u64, s: RunState) {
    if s.history == [] || s.history[|s.history| - 1].response.Completed? then s.active.None?
    else
      && s.active.Some?
      && s.active.value.transaction == s.history[|s.history| - 1].response.transaction
      && s.active.value.deadline == LastStart(s.history) + duration
  }

  lemma AppendFollows(duration: u64, history: seq<Entry>, e: Entry)
    requires WellFormed(duration, history) && Follows(duration, history, e)
    ensures WellFormed(duration, history + [e])
  {
    var grown := history + [e];
    forall i | 0 <= i < |grown| ensures Follows(duration, grown[..i], grown[i]) {
      assert grown[..i] == history[..i];
      assert history[..|history|] == history;
    }
  }

  lemma LastStartAppend(history: seq<Entry>, e: Entry)
    ensures LastStart(history + [e]) == if e.response.Started? then e.now else LastStart(history)
  {
    assert (history + [e])[..|history|] == history;
  }

  lemma StepFollows(duration: u64, s: RunState, op: Operation)
    requires SlotMatches(duration, s)
    ensures
      var (active, outcome) := Step(duration, s.active, op);
      outcome.Emitted? ==> Follows(duration, s.history, Entry(outcome.response, op.now))
  {
    hide LastStart;
  }

  lemma StepKeepsSlot(duration: u64, s: RunState, op: Operation)
    requires SlotMatches(duration, s)
    ensures SlotMatches(duration, After(duration, s, op))
  {
    var (active, outcome) := Step(duration, s.active, op);
    if outcome.Emitted? { LastStartAppend(s.history, Entry(outcome.response, op.now)); }
    hide LastStart;
  }

  lemma StepKeepsRun(duration: u64, s: RunState, op: Operation)
    requires WellFormed(duration, s.history) && SlotMatches(duration, s)
    ensures WellFormed(duration, After(duration, s, op).history) && SlotMatches(duration, After(duration, s, op))
  {
    StepFollows(duration, s, op);
    StepKeepsSlot(duration, s, op);
    hide Step;
    hide Follows;
    hide SlotMatches;
    var (active, outcome) := Step(duration, s.active, op);
    if outcome.Emitted? { AppendFollows(duration, s.history, Entry(outcome.response, op.now)); }
  }

  // Every run hands out well-formed transactions, one at a time.
  lemma {:induction false} RunsAreWellFormed(duration: u64, ops: seq<Operation>)
    ensures WellFormed(duration, Run(duration, ops).history) && SlotMatches(duration, Run(duration, ops))
    decreases |ops|
  {
    if ops != [] {
      RunsAreWellFormed(duration, ops[..|ops| - 1]);
      StepKeepsRun(duration, Run(duration, ops[..|ops| - 1]), ops[|ops| - 1]);
    }
  }

  // After a terminal response nothing is handed out until another transaction starts: a started
  // transaction gets at most one terminal response, and it is its last response.
  lemma NothingAfterTheTerminal(duration: u64, ops: seq<Operation>, i: nat, j: nat)
    requires var h := Run(duration, ops).history; i < j < |h| && h[i].response.Completed?
    ensures var h := Run(duration, ops).history; exists k :: i < k <= j && h[k].response.Started?
  {
    RunsAreWellFormed(duration, ops);
    var h := Run(duration, ops).history;
    assert Follows(duration, h[..i + 1], h[i + 1]);
    assert h[..i + 1][i] == h[i];
    assert h[i + 1].response.Started?;
  }

  // Every response answers the last start before it, with no terminal response in between.
  lemma {:induction false} EveryResponseHasAStart(duration: u64, history: seq<Entry>, j: nat) returns (i: nat)
    requires WellFormed(duration, history) && j < |history|
    ensures i <= j && history[i].response.Started? && history[i].response.transaction == history[j].response.transaction
    ensures forall k :: i <= k < j ==> !history[k].response.Completed?
    ensures LastStart(history[..j + 1]) == history[i].now
    decreases j
  {
    assert Follows(duration, history[..j], history[j]);
    assert history[..j + 1][..j] == history[..j];
    if history[j].response.Started? {
      i := j;
    } else {
      assert history[..j][j - 1] == history[j - 1];
      i := EveryResponseHasAStart(duration, history, j - 1);
    }
  }

  lemma TimedOutFromTheDeadline(duration: u64, h: seq<Entry>, j: nat) returns (i: nat)
    requires WellFormed(duration, h) && j < |h| && !h[j].response.Started?
    ensures i < j && h[i].response == Started(h[j].response.transaction)
    ensures forall k :: i < k < j ==> !h[k].response.Completed?
    ensures h[j].response == Completed(h[j].response.transaction, TimedOut) <==> h[j].now >= h[i].now + duration
  {
    hide LastStart;
    assert Follows(duration, h[..j], h[j]);
    hide WellFormed;
    assert h[..j][j - 1] == h[j - 1];
    i := EveryResponseHasAStart(duration, h, j - 1);
  }

  // In every run a response within a transaction is `TimedOut` exactly when the transaction's
  // deadline has been reached.
  lemma TimedOutExactlyFromTheDeadline(duration: u64, ops: seq<Operation>, j: nat) returns (i: nat)
    requires j < |Run(duration, ops).history| && !Run(duration, ops).history[j].response.Started?
    ensures
      var h := Run(duration, ops).history;
      && i < j && h[i].response == Started(h[j].response.transaction)
      && (forall k :: i < k < j ==> !h[k].response.Completed?)
      && (h[j].response == Completed(h[j].response.transaction, TimedOut) <==> h[j].now >= h[i].now + duration)
  {
    hide *;
    RunsAreWellFormed(duration, ops);
    i := TimedOutFromTheDeadline(duration, Run(duration, ops).history, j);
  }

  // From its deadline on, every correctly bound operation on a transaction ends it with `TimedOut`.
  lemma DeadlineEndsTheTransaction(duration: u64, slot: Slot, op: Operation)
    requires op.now >= slot.deadline && !op.Start?
    requires !op.Expire? ==> op.connection == slot.connection && op.transaction == slot.transaction
    requires op.Complete? ==> !Reserved(op.decision)
    ensures Step(duration, Some(slot), op) == (None, Emitted(Completed(slot.transaction, TimedOut)))
  {
  }

  // ---------------------------------------------------------------- where responses come from

  // Operation `k` of a run hands out entry `j` of its history.
  predicate HandsOut(duration: u64, ops: seq<Operation>, k: nat, j: nat) {
    && k < |ops|
    && var before := Run(duration, ops[..k]);
       var h := Run(duration, ops).history;
       && j < |h| && before.history == h[..j]
       && Step(duration, before.active, ops[k]).1 == Emitted(h[j].response)
       && h[j].now == ops[k].now
  }

  lemma {:induction false} EveryEntryIsHandedOut(duration: u64, ops: seq<Operation>, j: nat) returns (k: nat)
    requires j < |Run(duration, ops).history|
    ensures HandsOut(duration, ops, k, j)
    decreases |ops|
  {
    var n := |ops| - 1;
    var before := Run(duration, ops[..n]);
    hide Step;
    if j < |before.history| {
      k := EveryEntryIsHandedOut(duration, ops[..n], j);
      assert ops[..n][..k] == ops[..k];
    } else {
      k := n;
      assert Run(duration, ops).history[..j] == before.history;
    }
  }

  // Operation `m` started the transaction that holds the slot up to operation `k`.
  predicate Holds(duration: u64, ops: seq<Operation>, m: nat, k: nat, slot: Slot) {
    && m < k <= |ops| && ops[m].Start?
    && slot.transaction == ops[m].transaction && slot.uid == ops[m].uid && slot.connection == ops[m].connection
    && slot.deadline == ops[m].now + duration
    && Run(duration, ops[..m]).active == None
    && forall i :: m < i <= k ==> Run(duration, ops[..i]).active == Some(slot)
  }

  lemma StepTakesOrKeeps(duration: u64, active: Option<Slot>, op: Operation)
    ensures var after := Step(duration, active, op).0;
            after.Some? && after != active ==>
              && active == None && op.Start? && op.now + duration <= MAX_U64
              && after.value.transaction == op.transaction && after.value.uid == op.uid
              && after.value.connection == op.connection && after.value.deadline == op.now + duration
  {
  }

  // An occupied slot is that of the latest start, unchanged since.
  lemma {:induction false} SlotIsItsStart(duration: u64, ops: seq<Operation>, slot: Slot) returns (m: nat)
    requires Run(duration, ops).active == Some(slot)
    ensures Holds(duration, ops, m, |ops|, slot)
    decreases |ops|
  {
    var n := |ops| - 1;
    var before := Run(duration, ops[..n]);
    StepTakesOrKeeps(duration, before.active, ops[n]);
    assert ops[..|ops|] == ops;
    hide Step;
    if before.active == Some(slot) {
      m := SlotIsItsStart(duration, ops[..n], slot);
      forall i | m < i <= |ops| ensures Run(duration, ops[..i]).active == Some(slot) {
        if i <= n { assert ops[..n][..i] == ops[..i]; }
      }
      assert ops[..n][..m] == ops[..m];
    } else {
      m := n;
    }
  }

  predicate IsBound(op: Operation, slot: Slot) {
    (op.Report? || op.Complete? || op.Abort?) && op.connection == slot.connection && op.transaction == slot.transaction
  }

  // What an operation on an occupied slot hands out.
  lemma StepHandsOut(duration: u64, slot: Slot, op: Operation, response: Response)
    requires Step(duration, Some(slot), op).1 == Emitted(response)
    ensures !response.Started? && !response.Rejected? && response.transaction == slot.transaction
    ensures !op.Expire? ==> IsBound(op, slot)
    ensures response.Completed? ==>
              && (response.decision == TimedOut <==> op.now >= slot.deadline)
              && (response.decision == DecisionCode.Cancelled <==> op.now < slot.deadline && op.Abort?)
              && forall d :: !Reserved(d) ==>
                   (response.decision == d <==> op.now < slot.deadline && op.Complete? && op.decision == d)
    ensures response.Progress? <==> op.now < slot.deadline && op.Report?
    ensures response.Progress? ==> response.progress == op.progress
  {
  }

  // In every run a terminal response answers the operation that ended its transaction: `TimedOut` from
  // the deadline on, and before it `Cancelled` exactly for a cancellation, and any other decision
  // exactly for a completion that asked for it, by the connection that started the transaction.
  lemma TerminalsAnswerTheirOperations(duration: u64, ops: seq<Operation>, j: nat)
    returns (m: nat, k: nat, slot: Slot)
    requires j < |Run(duration, ops).history| && Run(duration, ops).history[j].response.Completed?
    ensures HandsOut(duration, ops, k, j) && Holds(duration, ops, m, k, slot)
    ensures
      var e, late := Run(duration, ops).history[j], ops[k].now >= ops[m].now + duration;
      && e.response.transaction == ops[m].transaction
      && (!ops[k].Expire? ==>
            !ops[k].Start? && ops[k].connection == ops[m].connection && ops[k].transaction == ops[m].transaction)
      && (e.response.decision == TimedOut <==> late)
      && (e.response.decision == DecisionCode.Cancelled <==> !late && ops[k].Abort?)
      && forall d :: !Reserved(d) ==>
           (e.response.decision == d <==> !late && ops[k].Complete? && ops[k].decision == d)
  {
    k := EveryEntryIsHandedOut(duration, ops, j);
    var before, e := Run(duration, ops[..k]), Run(duration, ops).history[j];
    assert before.active.Some? by { EmptySlotsEndNothing(duration, ops[k]); }
    slot := before.active.value;
    m := SlotIsItsStart(duration, ops[..k], slot);
    StepHandsOut(duration, slot, ops[k], e.response);
    HoldsInLonger(duration, ops, m, k, slot);
    hide Run;
    hide Step;
  }

  lemma EmptySlotsEndNothing(duration: u64, op: Operation)
    ensures Step(duration, None, op).1.Emitted? ==>
              op.Start? && Step(duration, None, op).1.response == Started(op.transaction)
  {
  }

  lemma HoldsInLonger(duration: u64, ops: seq<Operation>, m: nat, k: nat, slot: Slot)
    requires k <= |ops| && Holds(duration, ops[..k], m, k, slot)
    ensures Holds(duration, ops, m, k, slot)
  {
    assert ops[..k][..m] == ops[..m];
    forall i | m < i <= k ensures Run(duration, ops[..i]).active == Some(slot) {
      assert ops[..k][..i] == ops[..i];
    }
  }

  // And the others: a start is answered for its own transaction, and progress for a bound report of it.
  lemma OthersAnswerTheirOperations(duration: u64, ops: seq<Operation>, j: nat) returns (k: nat)
    requires j < |Run(duration, ops).history| && !Run(duration, ops).history[j].response.Completed?
    ensures HandsOut(duration, ops, k, j)
    ensures
      var response := Run(duration, ops).history[j].response;
      if response.Started? then ops[k].Start? && response.transaction == ops[k].transaction
      else response.Progress? && ops[k].Report? && response.transaction == ops[k].transaction
           && response.progress == ops[k].progress
  {
    k := EveryEntryIsHandedOut(duration, ops, j);
    var before := Run(duration, ops[..k]);
    if before.active.Some? {
      StepHandsOut(duration, before.active.value, ops[k], Run(duration, ops).history[j].response);
    } else {
      EmptySlotsEndNothing(duration, ops[k]);
    }
    hide Run;
    hide Step;
  }

  // Why an operation is refused.
  lemma RefusalsAreExplained(duration: u64, active: Option<Slot>, op: Operation)
    ensures
      var outcome := Step(duration, active, op).1;
      var bound := op.Report? || op.Abort? || (op.Complete? && !Reserved(op.decision));
      && (outcome == Refused(SessionError.Busy) <==> op.Start? && active.Some?)
      && (outcome == Refused(DeadlineOverflow) <==> op.Start? && active.None? && op.now + duration > MAX_U64)
      && (outcome == Refused(ReservedDecision) <==> op.Complete? && Reserved(op.decision))
      && (outcome == Refused(NoActiveTransaction) <==> bound && active.None?)
      && (outcome == Refused(WrongConnection) <==> bound && active.Some? && op.connection != active.value.connection)
      && (outcome == Refused(WrongTransaction) <==>
            bound && active.Some? && op.connection == active.value.connection
            && op.transaction != active.value.transaction)
      && (outcome == Silent <==> op.Expire? && (active.None? || op.now < active.value.deadline))
      && outcome != Refused(InvalidConfig)
  {
  }

  // A refused operation hands out nothing and changes nothing.
  lemma RefusalChangesNothing(duration: u64, s: RunState, op: Operation)
    requires !Step(duration, s.active, op).1.Emitted?
    ensures After(duration, s, op) == s
  {
  }

  // ---------------------------------------------------------------- the manager

  class CancellationToken {
    var cancelled: bool

    constructor ()
      ensures !cancelled
    {
      cancelled := false;
    }

    method Cancel()
      modifies this
      ensures cancelled
    {
      cancelled := true;
    }
  }

  datatype ActiveSession = ActiveSession(slot: Slot, token: CancellationToken)

  class SessionManager {
    const duration: u64
    var active: Option<ActiveSession>
    ghost var issued: set<CancellationToken>
    ghost var ops: seq<Operation>
    ghost var history: seq<Entry>

    function Occupant(): (s: Option<Slot>)
      reads this
    {
      if active.Some? then Some(active.value.slot) else None
    }

    // The fields are the state of the run so far, and a token is cancelled exactly when its
    // transaction is over.
    ghost predicate Valid()
      reads this, issued
    {
      && ValidDuration(duration)
      && Run(duration, ops) == RunState(Occupant(), history)
      && (active.Some? ==> active.value.token in issued)
      && forall t :: t in issued ==> (t.cancelled <==> !(active.Some? && t == active.value.token))
    }

    constructor (duration: u64)
      requires ValidDuration(duration)
      ensures Valid() && active == None && this.duration == duration && issued == {}
    {
      this.duration, active, issued, ops, history := duration, None, {}, [], [];
    }

    ghost method Record(op: Operation, outcome: Outcome)
      modifies this`ops, this`history
      ensures ops == old(ops) + [op]
      ensures history == if outcome.Emitted? then old(history) + [Entry(outcome.response, op.now)] else old(history)
    {
      ops := ops + [op];
      if outcome.Emitted? { history := history + [Entry(outcome.response, op.now)]; }
    }

    method VerifyBinding(connection: ConnectionToken, transaction: TransactionId)
      returns (r: Result<Unit, SessionError>)
      ensures r == match Binding(Occupant(), connection, transaction)
                   case Success(_) => Success(Unit)
                   case Failure(e) => Failure(e)
    {
      if active.None? { return Failure(NoActiveTransaction); }
      if active.value.slot.connection != connection { return Failure(WrongConnection); }
      if active.value.slot.transaction != transaction { return Failure(WrongTransaction); }
      r := Success(Unit);
    }

    method TakeTerminal(decision: DecisionCode) returns (response: Response)
      requires active.Some?
      modifies this`active, active.value.token
      ensures active == None && old(active.value.token).cancelled
      ensures response == Completed(old(active.value.slot.transaction), decision)
    {
      response := Completed(active.value.slot.transaction, decision);
      active.value.token.Cancel();
      active := None;
    }

    // Every operation is one step of the run.
    twostate predicate Stepped(op: Operation, outcome: Outcome)
      reads this, issued
    {
      && Valid()
      && ops == old(ops) + [op]
      && (Occupant(), outcome) == Step(duration, old(Occupant()), op)
      && history == (if outcome.Emitted? then old(history) + [Entry(outcome.response, op.now)] else old(history))
    }

    method Start(transaction: TransactionId, uid: nat, connection: ConnectionToken, now: u64)
      returns (r: Result<Response, SessionError>)
      requires Valid()
      modifies this
      ensures Stepped(Operation.Start(transaction, uid, connection, now), OutcomeOf(r))
      ensures issued == if r.Success? then old(issued) + {active.value.token} else old(issued)
      ensures r.Success? ==> active.Some? && fresh(active.value.token)
    {
      ghost var op := Operation.Start(transaction, uid, connection, now);
      if active.Some? {
        r := Failure(SessionError.Busy);
      } else if now + duration > MAX_U64 {
        r := Failure(DeadlineOverflow);
      } else {
        var token := new CancellationToken();
        active := Some(ActiveSession(Slot(transaction, uid, connection, now + duration), token));
        issued := issued + {token};
        r := Success(Started(transaction));
      }
      RunGrows(ops, op);
      Record(op, OutcomeOf(r));
    }

    method Report(connection: ConnectionToken, transaction: TransactionId, progress: ProgressCode, now: u64)
      returns (r: Result<Response, SessionError>)
      requires Valid()
      modifies this, issued
      ensures Stepped(Operation.Report(connection, transaction, progress, now), OutcomeOf(r))
      ensures issued == old(issued)
    {
      ghost var op := Operation.Report(connection, transaction, progress, now);
      RunGrows(ops, op);
      hide Run;
      var binding := VerifyBinding(connection, transaction);
      if binding.Failure? {
        r := Failure(binding.error);
      } else if now >= active.value.slot.deadline {
        var response := TakeTerminal(TimedOut);
        r := Success(response);
      } else {
        r := Success(Progress(transaction, progress));
      }
      Record(op, OutcomeOf(r));
    }

    method Complete(connection: ConnectionToken, transaction: TransactionId, decision: DecisionCode, now: u64)
      returns (r: Result<Response, SessionError>)
      requires Valid()
      modifies this, issued
      ensures Stepped(Operation.Complete(connection, transaction, decision, now), OutcomeOf(r))
      ensures issued == old(issued)
    {
      ghost var op := Operation.Complete(connection, transaction, decision, now);
      RunGrows(ops, op);
      hide Run;
      if Reserved(decision) {
        r := Failure(ReservedDecision);
      } else {
        var binding := VerifyBinding(connection, transaction);
        if binding.Failure? {
          r := Failure(binding.error);
        } else {
          var response := TakeTerminal(if now >= active.value.slot.deadline then TimedOut else decision);
          r := Success(response);
        }
      }
      Record(op, OutcomeOf(r));
    }

    method Cancel(connection: ConnectionToken, transaction: TransactionId, now: u64)
      returns (r: Result<Response, SessionError>)
      requires Valid()
      modifies this, issued
      ensures Stepped(Abort(connection, transaction, now), OutcomeOf(r))
      ensures issued == old(issued)
    {
      ghost var op := Abort(connection, transaction, now);
      RunGrows(ops, op);
      hide Run;
      var binding := VerifyBinding(connection, transaction);
      if binding.Failure? {
        r := Failure(binding.error);
      } else {
        active.value.token.Cancel();
        var response := TakeTerminal(if now >= active.value.slot.deadline then TimedOut else DecisionCode.Cancelled);
        r := Success(response);
      }
      Record(op, OutcomeOf(r));
    }

    method Expire(now: u64) returns (r: Option<Response>)
      requires Valid()
      modifies this, issued
      ensures Stepped(Operation.Expire(now), if r.Some? then Emitted(r.value) else Silent)
      ensures issued == old(issued)
    {
      ghost var op := Operation.Expire(now);
      RunGrows(ops, op);
      hide Run;
      if active.Some? && now >= active.value.slot.deadline {
        var response := TakeTerminal(TimedOut);
        r := Some(response);
      } else {
        r := None;
      }
      Record(op, if r.Some? then Emitted(r.value) else Silent);
    }

    lemma RunGrows(before: seq<Operation>, op: Operation)
      ensures Run(duration, before + [op]) == After(duration, Run(duration, before), op)
    {
      assert (before + [op])[..|before|] == before;
    }
  }

  function OutcomeOf(r: Result<Response, SessionError>): (o: Outcome) {
    match r
    case Success(response) => Emitted(response)
    case Failure(e) => Refused(e)
  }
}
