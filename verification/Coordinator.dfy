// One authenticated socket connection: the boundary service and the coordinator loop.
module Coordinator {
  import opened Wrappers
  import opened Protocol
  import opened Sessions
  import opened Authentication
  import Enrollment

  // ---------------------------------------------------------------- the outside world, as answers by call number

  datatype Pending = NoInput | Input | Broken

  // What a stream has been asked to write: how often, what it took, and what was tried.
  datatype WriteLog = WriteLog(writes: nat, written: seq<Response>, attempted: seq<Response>)

  // Some consecutive writes: all of them were taken, but for a last one that may have been refused.
  datatype Trail = Trail(attempted: seq<Response>, refused: bool) {
    function Written(): (w: seq<Response>)
      requires refused ==> attempted != []
    {
      if refused then attempted[..|attempted| - 1] else attempted
    }

    // The response whose write was refused.
    function Undelivered(): (r: Option<Response>) {
      if refused && attempted != [] then Some(attempted[|attempted| - 1]) else None
    }
  }

  const NO_WRITES := Trail([], false)

  ghost predicate Recorded(before: WriteLog, after: WriteLog, accepts: nat -> bool, t: Trail) {
    && (t.refused ==> t.attempted != [])
    && after == WriteLog(before.writes + |t.attempted|, before.written + t.Written(), before.attempted + t.attempted)
    && forall k :: before.writes <= k < after.writes ==> (accepts(k) <==> !(t.refused && k == after.writes - 1))
  }

  lemma RecordedInTurn(before: WriteLog, between: WriteLog, after: WriteLog, accepts: nat -> bool, t: Trail, u: Trail)
    requires Recorded(before, between, accepts, t) && !t.refused && Recorded(between, after, accepts, u)
    ensures Recorded(before, after, accepts, Trail(t.attempted + u.attempted, u.refused))
  {
    var v := Trail(t.attempted + u.attempted, u.refused);
    if u.refused { assert v.attempted[..|v.attempted| - 1] == t.attempted + u.attempted[..|u.attempted| - 1]; }
    assert before.written + v.Written() == before.written + t.Written() + u.Written();
    assert before.attempted + v.attempted == before.attempted + t.attempted + u.attempted;
  }

  class PeerStream {
    const requests: nat -> Option<Request>
    const pending: nat -> Pending
    const accepts: nat -> bool
    var readCount: nat
    var polls: nat
    var writes: nat
    var written: seq<Response>
    ghost var attempted: seq<Response>   // every response a write was tried for, taken or not

    constructor (requests: nat -> Option<Request>, pending: nat -> Pending, accepts: nat -> bool)
      ensures this.requests == requests && this.pending == pending && this.accepts == accepts
      ensures readCount == polls == writes == 0 && written == attempted == []
    {
      this.requests, this.pending, this.accepts := requests, pending, accepts;
      readCount, polls, writes, written, attempted := 0, 0, 0, [], [];
    }

    ghost function Log(): (l: WriteLog)
      reads this`writes, this`written, this`attempted
    {
      WriteLog(writes, written, attempted)
    }

    method ReadMessage() returns (request: Option<Request>)
      modifies this`readCount
      ensures readCount == old(readCount) + 1 && request == requests(old(readCount))
    {
      request := requests(readCount);
      readCount := readCount + 1;
    }

    method HasPendingInput() returns (answer: Pending)
      modifies this`polls
      ensures polls == old(polls) + 1 && answer == pending(old(polls))
    {
      answer := pending(polls);
      polls := polls + 1;
    }

    method WriteMessage(response: Response) returns (ok: bool)
      modifies this`writes, this`written, this`attempted
      ensures writes == old(writes) + 1 && ok == accepts(old(writes)) && attempted == old(attempted) + [response]
      ensures written == if ok then old(written) + [response] else old(written)
    {
      ok := accepts(writes);
      writes, attempted := writes + 1, attempted + [response];
      if ok { written := written + [response]; }
    }
  }

  class Clock {
    const readings: nat -> u64
    var ticks: nat

    constructor (readings: nat -> u64)
      ensures this.readings == readings && ticks == 0
    {
      this.readings, ticks := readings, 0;
    }

    method NowMicros() returns (now: u64)
      modifies this
      ensures ticks == old(ticks) + 1 && now == readings(old(ticks))
    {
      now := readings(ticks);
      ticks := ticks + 1;
    }
  }

  // Derived evidence for one transaction, and when the engine completed it.
  datatype Evidence = Evidence(transaction: TransactionId, completedAt: u64, observation: AuthenticationObservation)

  datatype EngineUpdate =
    | EngineProgress(transaction: TransactionId, progress: ProgressCode)
    | EngineCompleted(transaction: TransactionId, result: Result<Evidence, Unit>)

  datatype Received = Update(update: EngineUpdate) | Timeout | Disconnected

  // The worker's terminal update for a job: evidence bound to anything else is screened out.
  function WorkerUpdate(transaction: TransactionId, cancelled: bool, result: Result<Evidence, Unit>)
    : (u: EngineUpdate)
  {
    EngineCompleted(transaction,
                    if cancelled || result.Failure? || result.value.transaction != transaction then Failure(Unit.Unit)
                    else result)
  }

  // Successful evidence carries the transaction of its update.
  predicate Bound(received: Received) {
    received.Update? && received.update.EngineCompleted? && received.update.result.Success? ==>
      received.update.result.value.transaction == received.update.transaction
  }

  ghost predicate Screened(outcomes: nat -> Received) {
    forall k: nat :: Bound(outcomes(k))
  }

  // The terminal updates that are bound are exactly those a worker can send.
  lemma BoundIffFromTheWorker(transaction: TransactionId, result: Result<Evidence, Unit>)
    ensures Bound(Update(EngineCompleted(transaction, result))) <==>
            exists cancelled: bool, raw: Result<Evidence, Unit> ::
              WorkerUpdate(transaction, cancelled, raw) == EngineCompleted(transaction, result)
  {
    if Bound(Update(EngineCompleted(transaction, result))) {
      if result.Failure? { assert result.error == Unit.Unit; }
      assert WorkerUpdate(transaction, result.Failure?, result) == EngineCompleted(transaction, result);
    }
  }

  class EngineHandle {
    const outcomes: nat -> Received
    var polls: nat

    constructor (outcomes: nat -> Received)
      ensures this.outcomes == outcomes && polls == 0
    {
      this.outcomes, polls := outcomes, 0;
    }

    method RecvTimeout() returns (r: Received)
      modifies this
      ensures polls == old(polls) + 1 && r == outcomes(old(polls))
    {
      r := outcomes(polls);
      polls := polls + 1;
    }
  }

  // ---------------------------------------------------------------- failures and decisions

  // Which transport call failed.
  datatype TransportStep = Reading | Polling | Writing(response: Response)

  datatype BoundaryError = Transport(step: TransportStep) | Session(error: SessionError) | EngineStopped

  datatype Authorization = Granted(uid: nat) | ServiceDenied | PeerDenied

  // ---------------------------------------------------------------- what one request is answered with

  function Answer(duration: u64, active: Option<Slot>, request: Request, authorization: Authorization,
                  connection: ConnectionToken, now: u64): (r: (Option<Slot>, Response))
  {
    match request
    case Authenticate(transaction) =>
      (match authorization
       case ServiceDenied => (active, Rejected(transaction, ServiceNotAllowed))
       case PeerDenied => (active, Rejected(transaction, UnauthorizedPeer))
       case Granted(uid) =>
         var (after, outcome) := Step(duration, active, Operation.Start(transaction, uid, connection, now));
         match outcome
         case Emitted(response) => (after, response)
         case Refused(e) => (after, Rejected(transaction, if e.Busy? then RejectionCode.Busy else ServiceUnavailable))
         case Silent => (after, Rejected(transaction, ServiceUnavailable)))
    case Cancel(transaction) =>
      var (after, outcome) := Step(duration, active, Abort(connection, transaction, now));
      match outcome
      case Emitted(response) => (after, response)
      case Refused(e) =>
        (after, Rejected(transaction, if e.WrongConnection? || e.WrongTransaction? then UnauthorizedPeer
                                      else ServiceUnavailable))
      case Silent => (after, Rejected(transaction, ServiceUnavailable))
  }

  // What every answer means: which requests start, end or leave the slot, and why the others are rejected.
  lemma AnswersMean(duration: u64, active: Option<Slot>, request: Request, authorization: Authorization,
                    connection: ConnectionToken, now: u64)
    ensures
      var (after, response) := Answer(duration, active, request, authorization, connection, now);
      var granted := request.Authenticate? && authorization.Granted?;
      var own := active.Some? && connection == active.value.connection
                 && request.transaction == active.value.transaction;
      && response.transaction == request.transaction
      && (response.Started? <==> granted && active.None? && now + duration <= MAX_U64)
      && (response.Started? ==>
            && after.Some? && after.value.transaction == request.transaction && after.value.uid == authorization.uid
            && after.value.connection == connection && after.value.deadline == now + duration)
      && (response.Completed? <==> request.Cancel? && own)
      && (response.Completed? ==>
            after == None
            && response.decision == if now >= active.value.deadline then TimedOut else DecisionCode.Cancelled)
      && (response.Rejected? ==> after == active)
      && !response.Progress?
      && (response == Rejected(request.transaction, ServiceNotAllowed) <==>
            request.Authenticate? && authorization.ServiceDenied?)
      && (response == Rejected(request.transaction, UnauthorizedPeer) <==>
            || (request.Authenticate? && authorization.PeerDenied?)
            || (request.Cancel? && active.Some? && !own))
      && (response == Rejected(request.transaction, RejectionCode.Busy) <==> granted && active.Some?)
      && (response == Rejected(request.transaction, ServiceUnavailable) <==>
            || (granted && active.None? && now + duration > MAX_U64)
            || (request.Cancel? && active.None?))
  {
  }

  // While a transaction is active, no request starts another: it is rejected, or it ends this one.
  lemma AnswerWhileActive(duration: u64, slot: Slot, request: Request, authorization: Authorization,
                          connection: ConnectionToken, now: u64)
    ensures
      var (after, response) := Answer(duration, Some(slot), request, authorization, connection, now);
      || (after == Some(slot) && response.Rejected?)
      || (after == None && request == Request.Cancel(slot.transaction) && connection == slot.connection
          && response == Completed(slot.transaction,
                                   if now >= slot.deadline then TimedOut else DecisionCode.Cancelled))
  {
  }

  // What is delivered of a session outcome over a stream that takes the write or not.
  function Delivered(outcome: Outcome, ok: bool): (r: Result<Response, BoundaryError>)
    requires !outcome.Silent?
  {
    match outcome
    case Refused(e) => Failure(Session(e))
    case Emitted(response) => if ok then Success(response) else Failure(Transport(Writing(response)))
  }

  function TrailOf(outcome: Outcome, ok: bool): (t: Trail) {
    if outcome.Emitted? then Trail([outcome.response], !ok) else NO_WRITES
  }

  // ---------------------------------------------------------------- the boundary service

  class BoundaryService {
    const sessions: SessionManager
    const authorizations: nat -> Authorization
    const policy: AuthPolicy
    const pad: PadPolicy
    const templates: nat -> Result<Enrollment.TemplateRecord, Unit>
    var asked: nat

    constructor (sessions: SessionManager, authorizations: nat -> Authorization, policy: AuthPolicy, pad: PadPolicy,
                 templates: nat -> Result<Enrollment.TemplateRecord, Unit>)
      ensures this.sessions == sessions && this.authorizations == authorizations && asked == 0
      ensures this.policy == policy && this.pad == pad && this.templates == templates
    {
      this.sessions, this.authorizations, asked := sessions, authorizations, 0;
      this.policy, this.pad, this.templates := policy, pad, templates;
    }

    ghost predicate Valid()
      reads this, sessions, sessions.issued
    {
      sessions.Valid()
    }

    // One session operation, and the delivery of its response.
    twostate predicate Sent(stream: PeerStream, op: Operation, new r: Result<Response, BoundaryError>)
      requires !Step(sessions.duration, old(sessions.Occupant()), op).1.Silent?
      reads this, sessions, sessions.issued, stream
    {
      var (active, outcome) := Step(sessions.duration, old(sessions.Occupant()), op);
      var ok := stream.accepts(old(stream.writes));
      && sessions.Valid() && sessions.issued == old(sessions.issued) && sessions.Occupant() == active
      && r == Delivered(outcome, ok)
      && Recorded(old(stream.Log()), stream.Log(), stream.accepts, TrailOf(outcome, ok))
    }

    method SendProgress(stream: PeerStream, connection: ConnectionToken, transaction: TransactionId,
                        progress: ProgressCode, now: u64) returns (r: Result<Response, BoundaryError>)
      requires Valid()
      modifies sessions, sessions.issued, stream`writes, stream`written, stream`attempted
      ensures Sent(stream, Operation.Report(connection, transaction, progress, now), r)
    {
      var response := sessions.Report(connection, transaction, progress, now);
      if response.Failure? { return Failure(Session(response.error)); }
      var ok := stream.WriteMessage(response.value);
      r := if ok then Success(response.value) else Failure(Transport(Writing(response.value)));
    }

    method SendEngineFailure(stream: PeerStream, connection: ConnectionToken, transaction: TransactionId, now: u64)
      returns (r: Result<Response, BoundaryError>)
      requires Valid()
      modifies sessions, sessions.issued, stream`writes, stream`written, stream`attempted
      ensures Sent(stream, Operation.Complete(connection, transaction, InternalError, now), r)
    {
      var response := sessions.Complete(connection, transaction, InternalError, now);
      if response.Failure? { return Failure(Session(response.error)); }
      var ok := stream.WriteMessage(response.value);
      r := if ok then Success(response.value) else Failure(Transport(Writing(response.value)));
    }

    // The decision on some evidence about a user, against that user's stored template.
    function Decide(uid: nat, evidence: Evidence): (d: DecisionCode)
      ensures !Reserved(d)
    {
      DecidedIffWarranted(policy, pad, templates(uid), evidence.observation, DecisionCode.Cancelled);
      DecidedIffWarranted(policy, pad, templates(uid), evidence.observation, TimedOut);
      Decided(policy, pad, templates(uid), evidence.observation)
    }

    // Completes the transaction the evidence is bound to, at the time the engine completed it.
    method SendDerivedCompletion(stream: PeerStream, connection: ConnectionToken, evidence: Evidence)
      returns (r: Result<Response, BoundaryError>)
      requires Valid()
      modifies sessions, sessions.issued, stream`writes, stream`written, stream`attempted
      ensures Binding(old(sessions.Occupant()), connection, evidence.transaction).Success? ==>
                Sent(stream, Operation.Complete(connection, evidence.transaction,
                                                Decide(old(sessions.Occupant()).value.uid, evidence),
                                                evidence.completedAt), r)
      ensures Binding(old(sessions.Occupant()), connection, evidence.transaction).Failure? ==>
                && Valid() && sessions.Occupant() == old(sessions.Occupant()) && sessions.issued == old(sessions.issued)
                && r == Failure(Session(Binding(old(sessions.Occupant()), connection, evidence.transaction).error))
                && stream.Log() == old(stream.Log())
    {
      var binding := sessions.VerifyBinding(connection, evidence.transaction);
      if binding.Failure? { return Failure(Session(binding.error)); }
      var decision := Decide(sessions.active.value.slot.uid, evidence);
      var response := sessions.Complete(connection, evidence.transaction, decision, evidence.completedAt);
      assert response.Success?;
      var ok := stream.WriteMessage(response.value);
      r := if ok then Success(response.value) else Failure(Transport(Writing(response.value)));
    }

    // Admits or rejects an authentication, or cancels one.
    method AnswerRequest(request: Request, connection: ConnectionToken, now: u64) returns (response: Response)
      requires Valid()
      modifies this`asked, sessions, sessions.issued
      ensures Valid() && sessions.issued >= old(sessions.issued) && fresh(sessions.issued - old(sessions.issued))
      ensures (sessions.Occupant(), response) ==
              Answer(sessions.duration, old(sessions.Occupant()), request, authorizations(old(asked)), connection, now)
    {
      hide Run;
      match request {
        case Authenticate(transaction) =>
          var authorization := authorizations(asked);
          asked := asked + 1;
          match authorization {
            case ServiceDenied => response := Rejected(transaction, ServiceNotAllowed);
            case PeerDenied => response := Rejected(transaction, UnauthorizedPeer);
            case Granted(uid) =>
              var started := sessions.Start(transaction, uid, connection, now);
              response := if started.Success? then started.value
                          else Rejected(transaction,
                                        if started.error.Busy? then RejectionCode.Busy else ServiceUnavailable);
          }
        case Cancel(transaction) =>
          var cancelled := sessions.Cancel(connection, transaction, now);
          response := if cancelled.Success? then cancelled.value
                      else Rejected(transaction,
                                    if cancelled.error.WrongConnection? || cancelled.error.WrongTransaction?
                                    then UnauthorizedPeer else ServiceUnavailable);
      }
    }

    method HandleOne(stream: PeerStream, connection: ConnectionToken, now: u64)
      returns (r: Result<Response, BoundaryError>)
      requires Valid()
      modifies this`asked, sessions, sessions.issued, stream`readCount, stream`writes, stream`written, stream`attempted
      ensures Valid() && sessions.issued >= old(sessions.issued) && fresh(sessions.issued - old(sessions.issued))
      ensures stream.readCount == old(stream.readCount) + 1
      ensures stream.requests(old(stream.readCount)).None? ==>
                && sessions.Occupant() == old(sessions.Occupant()) && stream.Log() == old(stream.Log())
                && r == Failure(Transport(Reading))
      ensures stream.requests(old(stream.readCount)).Some? ==>
                var request := stream.requests(old(stream.readCount)).value;
                var (active, response) :=
                  Answer(sessions.duration, old(sessions.Occupant()), request, authorizations(old(asked)),
                         connection, now);
                var ok := stream.accepts(old(stream.writes));
                && sessions.Occupant() == active
                && r == Delivered(Emitted(response), ok)
                && Recorded(old(stream.Log()), stream.Log(), stream.accepts, TrailOf(Emitted(response), ok))
    {
      var request := stream.ReadMessage();
      if request.None? { return Failure(Transport(Reading)); }
      var response := AnswerRequest(request.value, connection, now);
      var ok := stream.WriteMessage(response);
      r := if ok then Success(response) else Failure(Transport(Writing(response)));
    }
  }

  // ---------------------------------------------------------------- draining a cancelled engine

  const MAX_CANCEL_DRAIN_POLLS := 400

  predicate Ends(received: Received) {
    received.Update? && received.update.EngineCompleted?
  }

  // The engine's terminal update arrives within these polls, and before the engine disconnects.
  ghost predicate EndsWithin(outcomes: nat -> Received, low: nat, high: nat) {
    exists k: nat ::
      low <= k < high && Ends(outcomes(k)) && forall j: nat :: low <= j < k ==> !outcomes(j).Disconnected?
  }

  // Waits for the engine's terminal update, for a bounded number of polls.
  method DrainCancelledEngine(handle: EngineHandle) returns (r: Result<Unit, BoundaryError>)
    modifies handle
    ensures old(handle.polls) <= handle.polls <= old(handle.polls) + MAX_CANCEL_DRAIN_POLLS
    ensures r == if EndsWithin(handle.outcomes, old(handle.polls), old(handle.polls) + MAX_CANCEL_DRAIN_POLLS)
                 then Success(Unit) else Failure(EngineStopped)
    // Success is the terminal update received last, and nothing else; a failure never saw one.
    ensures r.Success? ==>
              && old(handle.polls) < handle.polls && handle.outcomes(handle.polls - 1).Update?
              && handle.outcomes(handle.polls - 1).update.EngineCompleted?
    ensures r.Failure? ==>
              forall k: nat :: old(handle.polls) <= k < handle.polls ==>
                handle.outcomes(k).Update? ==> handle.outcomes(k).update.EngineProgress?
    ensures r.Failure? ==>
              || handle.polls == old(handle.polls) + 400
              || (old(handle.polls) < handle.polls && handle.outcomes(handle.polls - 1).Disconnected?)
  {
    ghost var base := handle.polls;
    for i := 0 to MAX_CANCEL_DRAIN_POLLS
      invariant handle.polls == base + i
      invariant forall j: nat :: base <= j < handle.polls ==>
                  !Ends(handle.outcomes(j)) && !handle.outcomes(j).Disconnected?
    {
      var received := handle.RecvTimeout();
      assert received == handle.outcomes(base + i);
      if Ends(received) { return Success(Unit); }
      if received.Disconnected? { return Failure(EngineStopped); }
    }
    r := Failure(EngineStopped);
  }

  // ---------------------------------------------------------------- the coordinator

  // Responses that leave the transaction open.
  predicate Ongoing(w: seq<Response>, transaction: TransactionId) {
    forall i :: 0 <= i < |w| ==> w[i].Rejected? || (w[i].Progress? && w[i].transaction == transaction)
  }

  // Open responses and then exactly one terminal response for the transaction, the last one.
  predicate Finished(w: seq<Response>, transaction: TransactionId) {
    w != [] && Ongoing(w[..|w| - 1], transaction) && w[|w| - 1].Completed? && w[|w| - 1].transaction == transaction
  }

  // The writes of a transaction that is open, or has just been ended.
  predicate Legal(t: Trail, transaction: TransactionId) {
    (t.refused ==> t.attempted != []) && (Ongoing(t.attempted, transaction) || Finished(t.attempted, transaction))
  }

  // What any part of the coordinator leaves behind: `t` is what it wrote, `r` what it returned, and
  // `screened` whether its engine only delivers evidence bound to the update it comes in.
  predicate Settled(slot: Slot, occupant: Option<Slot>, t: Trail, screened: bool,
                    r: Option<Result<Response, BoundaryError>>)
  {
    Legal(t, slot.transaction) &&
    match r
    case None => occupant == Some(slot) && !t.refused && Ongoing(t.attempted, slot.transaction)
    case Some(Success(response)) =>
      occupant == None && !t.refused && Finished(t.attempted, slot.transaction)
      && response == t.attempted[|t.attempted| - 1]
    case Some(Failure(e)) =>
      // Only a progress response that could not be written, or misbound evidence, keeps the slot.
      && occupant == (if (t.Undelivered().Some? && t.Undelivered().value.Progress?) || e == Session(WrongTransaction)
                      then Some(slot) else None)
      && (screened ==> e != Session(WrongTransaction))
      && (e.Transport? && e.step.Writing? ==> t.Undelivered() == Some(e.step.response))
  }

  function Joined(t: Trail, u: Trail): (v: Trail) { Trail(t.attempted + u.attempted, u.refused) }

  lemma SettledAfterOngoing(slot: Slot, occupant: Option<Slot>, t: Trail, u: Trail, screened: bool,
                            r: Option<Result<Response, BoundaryError>>)
    requires !t.refused && Ongoing(t.attempted, slot.transaction) && Settled(slot, occupant, u, screened, r)
    ensures Settled(slot, occupant, Joined(t, u), screened, r)
  {
    var v := t.attempted + u.attempted;
    if u.attempted != [] {
      assert v[..|v| - 1] == t.attempted + u.attempted[..|u.attempted| - 1];
      assert v[|v| - 1] == u.attempted[|u.attempted| - 1];
    } else {
      assert v == t.attempted;
    }
    assert Ongoing(u.attempted, slot.transaction) ==> Ongoing(v, slot.transaction);
  }

  // A bound operation that emits one response settles the connection or keeps it open.
  lemma SentSettles(slot: Slot, op: Operation, duration: u64, ok: bool, screened: bool)
    requires op.Report? || (op.Complete? && !Reserved(op.decision))
    requires op.connection == slot.connection && op.transaction == slot.transaction
    ensures
      var (active, outcome) := Step(duration, Some(slot), op);
      && outcome.Emitted?
      && Settled(slot, active, TrailOf(outcome, ok), screened,
                 if ok && outcome.response.Progress? then None else Some(Delivered(outcome, ok)))
  {
  }

  // ---------------------------------------------------------------- what the responses are answers to

  // The engine's outcomes and the client's requests a connection has taken in; one that got no engine
  // has seen it disconnected.
  datatype Seen = Seen(outcomes: nat -> Received, low: nat, high: nat,
                       requests: nat -> Option<Request>, first: nat, end: nat)

  // The outcome is evidence of the slot's transaction, completed before its deadline, on which the policy
  // decides `d` against the template of the slot's user.
  ghost predicate Proves(boundary: BoundaryService, slot: Slot, received: Received, d: DecisionCode) {
    && received.Update? && received.update.EngineCompleted? && received.update.transaction == slot.transaction
    && received.update.result.Success?
    && var evidence := received.update.result.value;
       && evidence.transaction == slot.transaction && evidence.completedAt < slot.deadline
       && Warrants(boundary.policy, boundary.pad, boundary.templates(slot.uid), evidence.observation, d)
  }

  // The outcome is no evidence: the engine failed, is gone, or speaks of another transaction.
  predicate Fails(slot: Slot, received: Received) {
    || received.Disconnected?
    || (received.Update? && received.update.transaction != slot.transaction)
    || (received.Update? && received.update.EngineCompleted? && received.update.result.Failure?)
  }

  // The reason a response of the slot's transaction was written: progress for the engine's own, a
  // cancellation for the client's own, and any other decision for evidence that warrants it.
  ghost predicate Accounts(boundary: BoundaryService, slot: Slot, seen: Seen, response: Response) {
    match response
    case Started(_) => false
    case Rejected(_, _) => true
    case Progress(_, p) =>
      exists k :: seen.low <= k < seen.high && seen.outcomes(k) == Update(EngineProgress(slot.transaction, p))
    case Completed(_, d) =>
      (match d
       case TimedOut => true
       case Cancelled =>
         exists k :: seen.first <= k < seen.end && seen.requests(k) == Some(Request.Cancel(slot.transaction))
       case _ =>
         exists k ::
           && seen.low <= k < seen.high
           && (Proves(boundary, slot, seen.outcomes(k), d) || (d.InternalError? && Fails(slot, seen.outcomes(k)))))
  }

  ghost predicate Accounted(boundary: BoundaryService, slot: Slot, seen: Seen, t: Trail) {
    forall response :: response in t.attempted ==> Accounts(boundary, slot, seen, response)
  }

  lemma AccountedInTurn(boundary: BoundaryService, slot: Slot, seen: Seen, later: Seen, all: Seen, t: Trail, u: Trail)
    requires Accounted(boundary, slot, seen, t) && Accounted(boundary, slot, later, u)
    requires seen.outcomes == later.outcomes == all.outcomes && seen.requests == later.requests == all.requests
    requires all.low <= seen.low && seen.high <= all.high && all.low <= later.low && later.high <= all.high
    requires all.first <= seen.first && seen.end <= all.end && all.first <= later.first && later.end <= all.end
    ensures Accounted(boundary, slot, all, Joined(t, u))
  {
    forall response | response in t.attempted + u.attempted ensures Accounts(boundary, slot, all, response) {
      if response in t.attempted { AccountsForMore(boundary, slot, seen, all, response); }
      else { AccountsForMore(boundary, slot, later, all, response); }
    }
  }

  lemma AccountedForMore(boundary: BoundaryService, slot: Slot, seen: Seen, all: Seen, t: Trail)
    requires Accounted(boundary, slot, seen, t)
    requires seen.outcomes == all.outcomes && seen.requests == all.requests
    requires all.low <= seen.low && seen.high <= all.high && all.first <= seen.first && seen.end <= all.end
    ensures Accounted(boundary, slot, all, t)
  {
    forall response | response in t.attempted ensures Accounts(boundary, slot, all, response) {
      AccountsForMore(boundary, slot, seen, all, response);
    }
  }

  lemma AccountsForMore(boundary: BoundaryService, slot: Slot, seen: Seen, all: Seen, response: Response)
    requires Accounts(boundary, slot, seen, response)
    requires seen.outcomes == all.outcomes && seen.requests == all.requests
    requires all.low <= seen.low && seen.high <= all.high && all.first <= seen.first && seen.end <= all.end
    ensures Accounts(boundary, slot, all, response)
  {
    hide Proves;
    hide Fails;
    if response.Completed? && !response.decision.TimedOut? && !response.decision.Cancelled? {
      var d := response.decision;
      var k :| seen.low <= k < seen.high
               && (Proves(boundary, slot, seen.outcomes(k), d) || (d.InternalError? && Fails(slot, seen.outcomes(k))));
      assert Proves(boundary, slot, all.outcomes(k), d) || (d.InternalError? && Fails(slot, all.outcomes(k)));
    }
  }

  // A decision on evidence, as the transaction is completed with it, is accounted for by the evidence.
  lemma EvidenceAccounts(boundary: BoundaryService, slot: Slot, seen: Seen, k: nat, evidence: Evidence, duration: u64,
                         ok: bool)
    requires seen.low <= k < seen.high && evidence.transaction == slot.transaction
    requires seen.outcomes(k) == Update(EngineCompleted(slot.transaction, Success(evidence)))
    ensures var op := Operation.Complete(slot.connection, slot.transaction, boundary.Decide(slot.uid, evidence),
                                         evidence.completedAt);
            Accounted(boundary, slot, seen, TrailOf(Step(duration, Some(slot), op).1, ok))
  {
    var d := boundary.Decide(slot.uid, evidence);
    DecidedIffWarranted(boundary.policy, boundary.pad, boundary.templates(slot.uid), evidence.observation, d);
    hide Warrants;
    hide Decided;
    assert evidence.completedAt < slot.deadline ==> Proves(boundary, slot, seen.outcomes(k), d);
  }

  // An internal failure is accounted for by the outcome that failed.
  lemma FailureAccounts(boundary: BoundaryService, slot: Slot, seen: Seen, k: nat, duration: u64, now: u64, ok: bool)
    requires seen.low <= k < seen.high && Fails(slot, seen.outcomes(k))
    ensures var op := Operation.Complete(slot.connection, slot.transaction, InternalError, now);
            Accounted(boundary, slot, seen, TrailOf(Step(duration, Some(slot), op).1, ok))
  {
    hide Proves;
  }

  lemma ProgressAccounts(boundary: BoundaryService, slot: Slot, seen: Seen, k: nat, progress: ProgressCode,
                         duration: u64, now: u64, ok: bool)
    requires seen.low <= k < seen.high && seen.outcomes(k) == Update(EngineProgress(slot.transaction, progress))
    ensures var op := Operation.Report(slot.connection, slot.transaction, progress, now);
            Accounted(boundary, slot, seen, TrailOf(Step(duration, Some(slot), op).1, ok))
  {
    hide Proves;
  }

  lemma RequestAccounts(boundary: BoundaryService, slot: Slot, seen: Seen, k: nat, duration: u64, request: Request,
                        authorization: Authorization, now: u64, ok: bool)
    requires seen.first <= k < seen.end && seen.requests(k) == Some(request)
    ensures var response := Answer(duration, Some(slot), request, authorization, slot.connection, now).1;
            Accounted(boundary, slot, seen, TrailOf(Emitted(response), ok))
  {
    AnswerWhileActive(duration, slot, request, authorization, slot.connection, now);
    hide Answer;
    hide Proves;
  }

  // The part of one round that deals with a progress update of the transaction.
  method RelayProgress(boundary: BoundaryService, stream: PeerStream, handle: EngineHandle, clock: Clock, slot: Slot,
                       progress: ProgressCode, ghost screened: bool, ghost seen: Seen, ghost k: nat)
    returns (r: Option<Result<Response, BoundaryError>>, ghost t: Trail)
    requires boundary.Valid() && boundary.sessions.Occupant() == Some(slot)
    requires seen.low <= k < seen.high && seen.outcomes(k) == Update(EngineProgress(slot.transaction, progress))
    modifies boundary.sessions, boundary.sessions.issued, stream`writes, stream`written, stream`attempted, handle, clock
    ensures boundary.Valid() && boundary.sessions.issued == old(boundary.sessions.issued)
    ensures Recorded(old(stream.Log()), stream.Log(), stream.accepts, t)
    ensures Settled(slot, boundary.sessions.Occupant(), t, screened, r) && Accounted(boundary, slot, seen, t)
    ensures handle.polls >= old(handle.polls)
    ensures !stream.accepts(old(stream.writes)) && clock.readings(old(clock.ticks)) < slot.deadline ==>
              r == Some(Failure(Transport(Writing(Progress(slot.transaction, progress)))))
  {
    ghost var duration, ok := boundary.sessions.duration, stream.accepts(stream.writes);
    var now := clock.NowMicros();
    ghost var op := Operation.Report(slot.connection, slot.transaction, progress, now);
    var response := boundary.SendProgress(stream, slot.connection, slot.transaction, progress, now);
    SentSettles(slot, op, duration, ok, screened);
    ProgressAccounts(boundary, slot, seen, k, progress, duration, now, ok);
    hide Accounted;
    t := TrailOf(Step(duration, Some(slot), op).1, ok);
    if response.Failure? { return Some(response), t; }
    if response.value.Progress? { return None, t; }
    var drained := DrainCancelledEngine(handle);
    r := Some(if drained.Failure? then Failure(drained.error) else response);
  }

  // The part that deals with evidence of the transaction.
  method RelayEvidence(boundary: BoundaryService, stream: PeerStream, slot: Slot, evidence: Evidence,
                       ghost seen: Seen, ghost k: nat)
    returns (r: Result<Response, BoundaryError>, ghost t: Trail)
    requires boundary.Valid() && boundary.sessions.Occupant() == Some(slot)
    requires seen.low <= k < seen.high
             && seen.outcomes(k) == Update(EngineCompleted(slot.transaction, Success(evidence)))
    modifies boundary.sessions, boundary.sessions.issued, stream`writes, stream`written, stream`attempted
    ensures boundary.Valid() && boundary.sessions.issued == old(boundary.sessions.issued)
    ensures Recorded(old(stream.Log()), stream.Log(), stream.accepts, t)
    ensures Settled(slot, boundary.sessions.Occupant(), t, Bound(seen.outcomes(k)), Some(r))
    ensures Accounted(boundary, slot, seen, t)
    ensures evidence.transaction == slot.transaction && stream.accepts(old(stream.writes)) ==>
              r == Success(Completed(slot.transaction, if evidence.completedAt >= slot.deadline then TimedOut
                                                       else boundary.Decide(slot.uid, evidence)))
  {
    ghost var duration, ok := boundary.sessions.duration, stream.accepts(stream.writes);
    ghost var op := Operation.Complete(slot.connection, slot.transaction, boundary.Decide(slot.uid, evidence),
                                       evidence.completedAt);
    r := boundary.SendDerivedCompletion(stream, slot.connection, evidence);
    t := NO_WRITES;
    if evidence.transaction == slot.transaction {
      SentSettles(slot, op, duration, ok, Bound(seen.outcomes(k)));
      EvidenceAccounts(boundary, slot, seen, k, evidence, duration, ok);
      t := TrailOf(Step(duration, Some(slot), op).1, ok);
    }
    hide Accounts;
  }

  // The part that deals with an engine that has failed, stopped, or answered for somebody else.
  method RelayFailure(boundary: BoundaryService, stream: PeerStream, clock: Clock, slot: Slot, ghost screened: bool,
                      ghost seen: Seen, ghost k: nat)
    returns (r: Result<Response, BoundaryError>, ghost t: Trail)
    requires boundary.Valid() && boundary.sessions.Occupant() == Some(slot)
    requires seen.low <= k < seen.high && Fails(slot, seen.outcomes(k))
    modifies boundary.sessions, boundary.sessions.issued, stream`writes, stream`written, stream`attempted, clock
    ensures boundary.Valid() && boundary.sessions.issued == old(boundary.sessions.issued)
    ensures Recorded(old(stream.Log()), stream.Log(), stream.accepts, t)
    ensures Settled(slot, boundary.sessions.Occupant(), t, screened, Some(r))
    ensures Accounted(boundary, slot, seen, t)
    ensures stream.accepts(old(stream.writes)) ==>
              r == Success(Completed(slot.transaction,
                     if clock.readings(old(clock.ticks)) >= slot.deadline then TimedOut else InternalError))
  {
    ghost var duration, ok := boundary.sessions.duration, stream.accepts(stream.writes);
    var now := clock.NowMicros();
    ghost var op := Operation.Complete(slot.connection, slot.transaction, InternalError, now);
    r := boundary.SendEngineFailure(stream, slot.connection, slot.transaction, now);
    SentSettles(slot, op, duration, ok, screened);
    FailureAccounts(boundary, slot, seen, k, duration, now, ok);
    hide Accounted;
    t := TrailOf(Step(duration, Some(slot), op).1, ok);
  }

  // The part of one round that deals with the engine's update.
  method HandleUpdate(boundary: BoundaryService, stream: PeerStream, handle: EngineHandle, clock: Clock, slot: Slot,
                      received: Received)
    returns (r: Option<Result<Response, BoundaryError>>, ghost t: Trail)
    requires boundary.Valid() && boundary.sessions.Occupant() == Some(slot)
    requires handle.polls > 0 && received == handle.outcomes(handle.polls - 1)
    modifies boundary.sessions, boundary.sessions.issued, stream`writes, stream`written, stream`attempted, handle, clock
    ensures boundary.Valid() && boundary.sessions.issued == old(boundary.sessions.issued)
    ensures handle.polls >= old(handle.polls)
    ensures Recorded(old(stream.Log()), stream.Log(), stream.accepts, t)
    ensures Settled(slot, boundary.sessions.Occupant(), t, Bound(received), r)
    // Every response answers this update.
    ensures Accounted(boundary, slot, Seen(handle.outcomes, old(handle.polls) - 1, old(handle.polls), stream.requests,
                                           stream.readCount, stream.readCount), t)
    // A progress update whose write fails ends the connection with the slot still occupied.
    ensures FirstProgressFails(old(stream.writes), stream, received, clock.readings(old(clock.ticks)), slot) ==>
              r == Some(Failure(Transport(Writing(Progress(slot.transaction, received.update.progress)))))
    // The final deadline check is against the evidence's own completion time.
    ensures received.Update? && received.update.EngineCompleted? && received.update.result.Success?
              && received.update.transaction == slot.transaction == received.update.result.value.transaction
              && stream.accepts(old(stream.writes)) ==>
              r == Some(Success(Completed(slot.transaction,
                                          if received.update.result.value.completedAt >= slot.deadline then TimedOut
                                          else boundary.Decide(slot.uid, received.update.result.value))))
    // A foreign update or a stopped engine ends the transaction with an internal failure.
    ensures (received.Disconnected? || (received.Update? && received.update.transaction != slot.transaction))
              && stream.accepts(old(stream.writes)) ==>
              r == Some(Success(Completed(slot.transaction,
                                          if clock.readings(old(clock.ticks)) >= slot.deadline then TimedOut
                                          else InternalError)))
  {
    ghost var screened, k := Bound(received), handle.polls - 1;
    ghost var seen := Seen(handle.outcomes, k, k + 1, stream.requests, stream.readCount, stream.readCount);
    if received.Timeout? { return None, NO_WRITES; }
    hide Bound;
    hide Settled;
    hide Accounted;
    hide Recorded;
    hide BoundaryService.Decide;
    if Fails(slot, received) {
      var failed;
      failed, t := RelayFailure(boundary, stream, clock, slot, screened, seen, k);
      return Some(failed), t;
    }
    match received.update
    case EngineProgress(_, progress) =>
      r, t := RelayProgress(boundary, stream, handle, clock, slot, progress, screened, seen, k);
    case EngineCompleted(_, result) =>
      var completed;
      completed, t := RelayEvidence(boundary, stream, slot, result.value, seen, k);
      r := Some(completed);
  }

  predicate FirstProgressFails(write: nat, stream: PeerStream, received: Received, now: u64, slot: Slot) {
    && !stream.accepts(write) && now < slot.deadline
    && received.Update? && received.update.EngineProgress? && received.update.transaction == slot.transaction
  }

  // Cancels the transaction after a transport failure and waits for the engine to let go of it.
  method AbandonTransaction(boundary: BoundaryService, handle: EngineHandle, clock: Clock, slot: Slot,
                            error: BoundaryError) returns (e: BoundaryError)
    requires boundary.Valid() && (boundary.sessions.Occupant() == Some(slot) || boundary.sessions.Occupant() == None)
    modifies boundary.sessions, boundary.sessions.issued, handle, clock
    ensures boundary.Valid() && boundary.sessions.Occupant() == None
    ensures boundary.sessions.issued == old(boundary.sessions.issued) && handle.polls >= old(handle.polls)
    ensures e == error || e == EngineStopped
  {
    var now := clock.NowMicros();
    var _ := boundary.sessions.Cancel(slot.connection, slot.transaction, now);
    var drained := DrainCancelledEngine(handle);
    e := if drained.Failure? then drained.error else error;
  }

  // What answering one request of an open transaction comes to, once a failure has abandoned it.
  lemma AnsweringSettles(duration: u64, slot: Slot, request: Request, authorization: Authorization, now: u64, ok: bool,
                         screened: bool)
    ensures
      var (active, response) := Answer(duration, Some(slot), request, authorization, slot.connection, now);
      var t := TrailOf(Emitted(response), ok);
      && (ok && !response.Completed? ==> Settled(slot, active, t, screened, None))
      && (ok && response.Completed? ==> Settled(slot, active, t, screened, Some(Success(response)))
                                        && Settled(slot, active, t, screened, Some(Failure(EngineStopped))))
      && (!ok ==> Settled(slot, None, t, screened, Some(Failure(EngineStopped)))
                  && Settled(slot, None, t, screened, Some(Failure(Transport(Writing(response))))))
      && (active == Some(slot) || active == None)
  {
    AnswerWhileActive(duration, slot, request, authorization, slot.connection, now);
    hide Answer;
  }

  // One request of the client, answered while its transaction is open.
  method AnswerOpen(boundary: BoundaryService, stream: PeerStream, slot: Slot, now: u64, ghost screened: bool,
                    ghost seen: Seen)
    returns (r: Result<Response, BoundaryError>, ghost t: Trail)
    requires boundary.Valid() && boundary.sessions.Occupant() == Some(slot)
    requires seen.requests == stream.requests && seen.first == stream.readCount && seen.end == stream.readCount + 1
    modifies boundary`asked, boundary.sessions, boundary.sessions.issued
    modifies stream`readCount, stream`writes, stream`written, stream`attempted
    ensures boundary.Valid()
    ensures boundary.sessions.issued >= old(boundary.sessions.issued)
    ensures fresh(boundary.sessions.issued - old(boundary.sessions.issued))
    ensures stream.readCount == old(stream.readCount) + 1
    ensures Recorded(old(stream.Log()), stream.Log(), stream.accepts, t) && Accounted(boundary, slot, seen, t)
    ensures boundary.sessions.Occupant() == Some(slot) || boundary.sessions.Occupant() == None
    ensures r.Success? && !r.value.Completed? ==> Settled(slot, boundary.sessions.Occupant(), t, screened, None)
    ensures r.Success? && r.value.Completed? ==>
              && Settled(slot, boundary.sessions.Occupant(), t, screened, Some(r))
              && Settled(slot, boundary.sessions.Occupant(), t, screened, Some(Failure(EngineStopped)))
    ensures r.Failure? ==>
              && Settled(slot, None, t, screened, Some(r))
              && Settled(slot, None, t, screened, Some(Failure(EngineStopped)))
  {
    hide Answer;
    ghost var request, ok := stream.requests(stream.readCount), stream.accepts(stream.writes);
    ghost var authorization := boundary.authorizations(boundary.asked);
    t := NO_WRITES;
    if request.Some? {
      ghost var duration := boundary.sessions.duration;
      AnsweringSettles(duration, slot, request.value, authorization, now, ok, screened);
      RequestAccounts(boundary, slot, seen, stream.readCount, duration, request.value, authorization, now, ok);
      t := TrailOf(Emitted(Answer(duration, Some(slot), request.value, authorization, slot.connection, now).1), ok);
    } else {
      NothingReadSettles(slot, screened);
    }
    hide Settled;
    hide Accounts;
    r := boundary.HandleOne(stream, slot.connection, now);
  }

  // One request of the client while its transaction is open.
  method HandleRequest(boundary: BoundaryService, stream: PeerStream, handle: EngineHandle, clock: Clock, slot: Slot,
                       ghost screened: bool)
    returns (r: Option<Result<Response, BoundaryError>>, ghost t: Trail)
    requires boundary.Valid() && boundary.sessions.Occupant() == Some(slot)
    modifies boundary`asked, boundary.sessions, boundary.sessions.issued, stream, handle, clock
    ensures boundary.Valid()
    ensures boundary.sessions.issued >= old(boundary.sessions.issued)
    ensures fresh(boundary.sessions.issued - old(boundary.sessions.issued))
    ensures Recorded(old(stream.Log()), stream.Log(), stream.accepts, t)
    ensures Settled(slot, boundary.sessions.Occupant(), t, screened, r)
    ensures stream.readCount >= old(stream.readCount) && handle.polls >= old(handle.polls)
    ensures Accounted(boundary, slot, Seen(handle.outcomes, old(handle.polls), handle.polls, stream.requests,
                                           old(stream.readCount), stream.readCount), t)
  {
    hide Settled;
    hide Recorded;
    hide Accounted;
    var now := clock.NowMicros();
    ghost var seen := Seen(handle.outcomes, handle.polls, handle.polls, stream.requests, stream.readCount,
                           stream.readCount + 1);
    ghost var polls, count := handle.polls, stream.readCount;
    var response;
    response, t := AnswerOpen(boundary, stream, slot, now, screened, seen);
    if response.Failure? {
      var e := AbandonTransaction(boundary, handle, clock, slot, response.error);
      AccountedForMore(boundary, slot, seen, Seen(handle.outcomes, polls, handle.polls, stream.requests, count,
                                                  stream.readCount), t);
      return Some(Failure(e)), t;
    }
    if !response.value.Completed? { return None, t; }
    var drained := DrainCancelledEngine(handle);
    AccountedForMore(boundary, slot, seen, Seen(handle.outcomes, polls, handle.polls, stream.requests, count,
                                                stream.readCount), t);
    return Some(if drained.Failure? then Failure(drained.error) else response), t;
  }

  lemma NothingReadSettles(slot: Slot, screened: bool)
    ensures Settled(slot, None, NO_WRITES, screened, Some(Failure(EngineStopped)))
    ensures Settled(slot, None, NO_WRITES, screened, Some(Failure(Transport(Reading))))
    ensures Settled(slot, None, NO_WRITES, screened, Some(Failure(Transport(Polling))))
    ensures Settled(slot, Some(slot), NO_WRITES, screened, None)
  {
  }

  // The part of one round that deals with the client.
  method HandleInput(boundary: BoundaryService, stream: PeerStream, handle: EngineHandle, clock: Clock, slot: Slot,
                     ghost screened: bool)
    returns (r: Option<Result<Response, BoundaryError>>, ghost t: Trail)
    requires boundary.Valid() && boundary.sessions.Occupant() == Some(slot)
    modifies boundary`asked, boundary.sessions, boundary.sessions.issued, stream, handle, clock
    ensures boundary.Valid()
    ensures boundary.sessions.issued >= old(boundary.sessions.issued)
    ensures fresh(boundary.sessions.issued - old(boundary.sessions.issued))
    ensures Recorded(old(stream.Log()), stream.Log(), stream.accepts, t)
    ensures Settled(slot, boundary.sessions.Occupant(), t, screened, r)
    ensures stream.readCount >= old(stream.readCount) && handle.polls >= old(handle.polls)
    ensures Accounted(boundary, slot, Seen(handle.outcomes, old(handle.polls), handle.polls, stream.requests,
                                           old(stream.readCount), stream.readCount), t)
  {
    NothingReadSettles(slot, screened);
    hide Settled;
    var pending := stream.HasPendingInput();
    match pending
    case NoInput => return None, NO_WRITES;
    case Broken =>
      var e := AbandonTransaction(boundary, handle, clock, slot, Transport(Polling));
      return Some(Failure(e)), NO_WRITES;
    case Input =>
      r, t := HandleRequest(boundary, stream, handle, clock, slot, screened);
  }

  lemma SettledForScreened(slot: Slot, occupant: Option<Slot>, t: Trail, bound: bool, screened: bool,
                           r: Option<Result<Response, BoundaryError>>)
    requires Settled(slot, occupant, t, bound, r) && (screened ==> bound)
    ensures Settled(slot, occupant, t, screened, r)
  {
  }

  lemma OpenMeansOngoing(slot: Slot, occupant: Option<Slot>, t: Trail, screened: bool)
    requires Settled(slot, occupant, t, screened, None)
    ensures occupant == Some(slot) && !t.refused && Ongoing(t.attempted, slot.transaction)
  {
  }

  // One round: the engine's update, and then the client's input.
  method CoordinateRound(boundary: BoundaryService, stream: PeerStream, handle: EngineHandle, clock: Clock, slot: Slot)
    returns (r: Option<Result<Response, BoundaryError>>, ghost t: Trail)
    requires boundary.Valid() && boundary.sessions.Occupant() == Some(slot)
    modifies boundary`asked, boundary.sessions, boundary.sessions.issued, stream, handle, clock
    ensures boundary.Valid()
    ensures boundary.sessions.issued >= old(boundary.sessions.issued)
    ensures fresh(boundary.sessions.issued - old(boundary.sessions.issued))
    ensures Recorded(old(stream.Log()), stream.Log(), stream.accepts, t)
    ensures Settled(slot, boundary.sessions.Occupant(), t, Screened(handle.outcomes), r)
    ensures stream.readCount >= old(stream.readCount) && handle.polls > old(handle.polls)
    ensures Accounted(boundary, slot, Seen(handle.outcomes, old(handle.polls), handle.polls, stream.requests,
                                           old(stream.readCount), stream.readCount), t)
    ensures FirstProgressFails(old(stream.writes), stream, handle.outcomes(old(handle.polls)),
                               clock.readings(old(clock.ticks)), slot) ==>
              r == Some(Failure(Transport(Writing(
                     Progress(slot.transaction, handle.outcomes(old(handle.polls)).update.progress)))))
  {
    hide Settled;
    hide Recorded;
    hide Bound;
    hide Ongoing;
    hide Accounted;
    ghost var before, screened, low, count := stream.Log(), Screened(handle.outcomes), handle.polls, stream.readCount;
    ghost var all := Seen(handle.outcomes, low, low, stream.requests, count, count);
    var received := handle.RecvTimeout();
    r, t := HandleUpdate(boundary, stream, handle, clock, slot, received);
    SettledForScreened(slot, boundary.sessions.Occupant(), t, Bound(received), screened, r);
    AccountedForMore(boundary, slot, all.(high := low + 1), all.(high := handle.polls), t);
    if r.Some? { return; }
    OpenMeansOngoing(slot, boundary.sessions.Occupant(), t, screened);
    ghost var between, u, middle := stream.Log(), NO_WRITES, handle.polls;
    r, u := HandleInput(boundary, stream, handle, clock, slot, screened);
    AccountedInTurn(boundary, slot, all.(high := middle), all.(low := middle, high := handle.polls,
                                                                         end := stream.readCount),
                    all.(high := handle.polls, end := stream.readCount), t, u);
    RecordedInTurn(before, between, stream.Log(), stream.accepts, t, u);
    SettledAfterOngoing(slot, boundary.sessions.Occupant(), t, u, screened, r);
    t := Joined(t, u);
  }

  // Whether the engine behind a connection delivers bound evidence only.
  ghost predicate EngineScreened(engine: Option<EngineHandle>) {
    engine.Some? ==> Screened(engine.value.outcomes)
  }

  lemma NothingWritten(boundary: BoundaryService, slot: Slot, stream: PeerStream, seen: Seen)
    ensures Recorded(stream.Log(), stream.Log(), stream.accepts, NO_WRITES)
    ensures forall screened :: Settled(slot, Some(slot), NO_WRITES, screened, None)
    ensures Accounted(boundary, slot, seen, NO_WRITES)
  {
  }

  // What a connection without an engine has seen of it.
  ghost function Unheard(requests: nat -> Option<Request>, count: nat): (seen: Seen) {
    Seen(_ => Disconnected, 0, 1, requests, count, count)
  }

  // The coordinator, for any number of rounds: `None` is a connection still being served.
  method CoordinateStarted(boundary: BoundaryService, stream: PeerStream, engine: Option<EngineHandle>, clock: Clock,
                           slot: Slot, rounds: nat)
    returns (r: Option<Result<Response, BoundaryError>>, ghost t: Trail, ghost seen: Seen)
    requires boundary.Valid() && boundary.sessions.Occupant() == Some(slot)
    modifies boundary`asked, boundary.sessions, boundary.sessions.issued, stream, clock
    modifies if engine.Some? then {engine.value} else {}
    ensures boundary.Valid() && boundary.sessions.issued >= old(boundary.sessions.issued)
    ensures Recorded(old(stream.Log()), stream.Log(), stream.accepts, t)
    ensures Settled(slot, boundary.sessions.Occupant(), t, EngineScreened(engine), r)
    ensures engine.None? ==> r.Some?
    // Every response answers something the connection has seen.
    ensures Accounted(boundary, slot, seen, t)
    ensures if engine.None? then seen == Unheard(stream.requests, stream.readCount)
            else seen == Seen(engine.value.outcomes, old(engine.value.polls), engine.value.polls, stream.requests,
                              old(stream.readCount), stream.readCount)
    ensures stream.readCount >= old(stream.readCount)
    // The first progress update is enough: if its write fails, the slot stays occupied.
    ensures engine.Some? && rounds > 0
            && FirstProgressFails(old(stream.writes), stream, engine.value.outcomes(old(engine.value.polls)),
                                  clock.readings(old(clock.ticks)), slot) ==>
              r == Some(Failure(Transport(Writing(
                     Progress(slot.transaction, engine.value.outcomes(old(engine.value.polls)).update.progress)))))
  {
    if engine.None? {
      seen := Unheard(stream.requests, stream.readCount);
      var failed;
      failed, t := RelayFailure(boundary, stream, clock, slot, true, seen, 0);
      return Some(failed), t, seen;
    }
    ghost var polls, count := engine.value.polls, stream.readCount;
    r, t := CoordinateRounds(boundary, stream, engine.value, clock, slot, rounds);
    seen := Seen(engine.value.outcomes, polls, engine.value.polls, stream.requests, count, stream.readCount);
  }

  method CoordinateRounds(boundary: BoundaryService, stream: PeerStream, handle: EngineHandle, clock: Clock, slot: Slot,
                          rounds: nat)
    returns (r: Option<Result<Response, BoundaryError>>, ghost t: Trail)
    requires boundary.Valid() && boundary.sessions.Occupant() == Some(slot)
    modifies boundary`asked, boundary.sessions, boundary.sessions.issued, stream, clock, handle
    ensures boundary.Valid() && boundary.sessions.issued >= old(boundary.sessions.issued)
    ensures Recorded(old(stream.Log()), stream.Log(), stream.accepts, t)
    ensures Settled(slot, boundary.sessions.Occupant(), t, Screened(handle.outcomes), r)
    ensures stream.readCount >= old(stream.readCount) && handle.polls >= old(handle.polls)
    ensures Accounted(boundary, slot, Seen(handle.outcomes, old(handle.polls), handle.polls, stream.requests,
                                           old(stream.readCount), stream.readCount), t)
    ensures rounds > 0
            && FirstProgressFails(old(stream.writes), stream, handle.outcomes(old(handle.polls)),
                                  clock.readings(old(clock.ticks)), slot) ==>
              r == Some(Failure(Transport(Writing(
                     Progress(slot.transaction, handle.outcomes(old(handle.polls)).update.progress)))))
  {
    ghost var all := Seen(handle.outcomes, handle.polls, handle.polls, stream.requests, stream.readCount,
                          stream.readCount);
    NothingWritten(boundary, slot, stream, all);
    hide Settled;
    hide Recorded;
    hide Accounted;
    hide FirstProgressFails;
    hide Screened;
    ghost var before, screened, issued := stream.Log(), Screened(handle.outcomes), boundary.sessions.issued;
    r, t := None, NO_WRITES;
    for round := 0 to rounds
      invariant boundary.Valid() && r == None
      invariant boundary.sessions.issued >= issued && fresh(boundary.sessions.issued - issued)
      invariant Recorded(before, stream.Log(), stream.accepts, t)
      invariant Settled(slot, boundary.sessions.Occupant(), t, screened, None)
      invariant all.first <= stream.readCount && all.low <= handle.polls
      invariant Accounted(boundary, slot, all.(high := handle.polls, end := stream.readCount), t)
      invariant round == 0 ==>
                  && handle.polls == old(handle.polls) && clock.ticks == old(clock.ticks)
                  && stream.writes == old(stream.writes)
      invariant round > 0 ==>
                  !FirstProgressFails(old(stream.writes), stream, handle.outcomes(old(handle.polls)),
                                      clock.readings(old(clock.ticks)), slot)
    {
      OpenMeansOngoing(slot, boundary.sessions.Occupant(), t, screened);
      ghost var between, u, polls, count := stream.Log(), NO_WRITES, handle.polls, stream.readCount;
      r, u := CoordinateRound(boundary, stream, handle, clock, slot);
      AccountedInTurn(boundary, slot, all.(high := polls, end := count),
                      Seen(handle.outcomes, polls, handle.polls, stream.requests, count, stream.readCount),
                      all.(high := handle.polls, end := stream.readCount), t, u);
      RecordedInTurn(before, between, stream.Log(), stream.accepts, t, u);
      SettledAfterOngoing(slot, boundary.sessions.Occupant(), t, u, screened, r);
      t := Joined(t, u);
      if r.Some? { return; }
    }
  }

  // Whether what a new connection wrote leaves its transaction in the slot: its start, or a later
  // progress response, could not be delivered.
  predicate Leaves(t: Trail) {
    t.Undelivered().Some? && (t.Undelivered().value.Started? || t.Undelivered().value.Progress?)
  }

  // How a connection to a free slot ends: an admitted transaction's responses start with `Started`, an
  // `Ok` return has written its one terminal response last and freed the slot, and behind a worker
  // that screens its evidence the slot stays occupied exactly when the start or one of the progress
  // responses could not be delivered.
  predicate Served(occupant: Option<Slot>, t: Trail, screened: bool, r: Result<Response, BoundaryError>) {
    && (t.refused ==> t.attempted != [])
    && (r.Success? ==>
          var w := t.Written();
          && occupant == None && !t.refused
          && if w != [] && w[0].Started? then Finished(w[1..], w[0].transaction) && r.value == w[|w| - 1]
             else w == [r.value] && r.value.Rejected?)
    && (screened ==> (occupant.Some? <==> Leaves(t)))
  }

  // How one to an occupied slot ends: at most one answer, which is a rejection, or the completion of
  // the occupant by its own cancellation; nothing else frees the slot.
  predicate Disregarded(before: Slot, occupant: Option<Slot>, t: Trail) {
    && |t.attempted| <= 1
    && (forall k :: k in t.attempted ==> k.Rejected? || k.Completed?)
    && occupant == if t.attempted != [] && t.attempted[0].Completed? then None else Some(before)
  }

  // A request to a free slot starts a transaction or is rejected; one to an occupied slot starts none.
  lemma AdmissionSettles(duration: u64, occupant: Option<Slot>, request: Request, authorization: Authorization,
                         connection: ConnectionToken, now: u64, ok: bool)
    ensures
      var (after, response) := Answer(duration, occupant, request, authorization, connection, now);
      var t := TrailOf(Emitted(response), ok);
      && (occupant.Some? ==> Disregarded(occupant.value, after, t) && !response.Started?)
      && (occupant.None? && response.Started? ==> after.Some? && response == Started(after.value.transaction))
      && (occupant.None? && !(ok && response.Started?) ==>
            forall screened :: Served(after, t, screened, Delivered(Emitted(response), ok)))
  {
  }

  lemma NothingAdmitted(occupant: Option<Slot>)
    ensures occupant.Some? ==> Disregarded(occupant.value, occupant, NO_WRITES)
    ensures occupant.None? ==>
              forall screened :: Served(occupant, NO_WRITES, screened, Failure(Transport(Reading)))
  {
  }

  lemma StartedSettles(slot: Slot, occupant: Option<Slot>, u: Trail, screened: bool, r: Result<Response, BoundaryError>)
    requires Settled(slot, occupant, u, screened, Some(r))
    ensures Served(occupant, Joined(Trail([Started(slot.transaction)], false), u), screened, r)
  {
    var t := Joined(Trail([Started(slot.transaction)], false), u);
    assert t.attempted[1..] == u.attempted;
    assert u.attempted != [] ==> t.attempted[|t.attempted| - 1] == u.attempted[|u.attempted| - 1];
    assert u.attempted != [] ==> t.Undelivered() == u.Undelivered();
    assert u.Undelivered().Some? ==> !u.Undelivered().value.Started?;
  }

  lemma TakenMeansFree(before: WriteLog, after: WriteLog, accepts: nat -> bool, t: Trail)
    requires Recorded(before, after, accepts, t)
    requires forall k :: before.writes <= k < after.writes ==> accepts(k)
    ensures !Leaves(t)
  {
    assert t.attempted != [] ==> accepts(after.writes - 1);
  }

  lemma FreeUnlessLeaves(occupant: Option<Slot>, t: Trail, screened: bool, r: Result<Response, BoundaryError>)
    requires Served(occupant, t, screened, r) && screened && !Leaves(t)
    ensures occupant == None
  {
  }

  // The slot is that of an authorized request, read on this connection.
  predicate Opens(slot: Slot, request: Option<Request>, authorization: Authorization, connection: ConnectionToken,
                  now: u64, duration: u64)
  {
    && request == Some(Authenticate(slot.transaction)) && authorization == Granted(slot.uid)
    && slot.connection == connection && slot.deadline == now + duration
  }

  // The one request that is read before a transaction is open.
  method Admit(boundary: BoundaryService, stream: PeerStream, connection: ConnectionToken, clock: Clock)
    returns (r: Result<Response, BoundaryError>, ghost t: Trail)
    requires boundary.Valid()
    modifies boundary`asked, boundary.sessions, boundary.sessions.issued, stream, clock
    ensures boundary.Valid() && boundary.sessions.issued >= old(boundary.sessions.issued)
    ensures fresh(boundary.sessions.issued - old(boundary.sessions.issued))
    ensures Recorded(old(stream.Log()), stream.Log(), stream.accepts, t)
    ensures stream.readCount == old(stream.readCount) + 1
    ensures !(r.Success? && r.value.Started?) ==> forall response :: response in t.Written() ==> !response.Started?
    ensures old(boundary.sessions.Occupant()).Some? ==>
              && Disregarded(old(boundary.sessions.Occupant()).value, boundary.sessions.Occupant(), t)
              && !(r.Success? && r.value.Started?)
    ensures old(boundary.sessions.Occupant()).None? ==>
              if r.Success? && r.value.Started? then
                && boundary.sessions.Occupant().Some?
                && t == Trail([Started(boundary.sessions.Occupant().value.transaction)], false)
                && Opens(boundary.sessions.Occupant().value, stream.requests(old(stream.readCount)),
                         boundary.authorizations(old(boundary.asked)), connection,
                         clock.readings(old(clock.ticks)), boundary.sessions.duration)
              else forall screened :: Served(boundary.sessions.Occupant(), t, screened, r)
  {
    hide Answer;
    ghost var occupant := boundary.sessions.Occupant();
    var now := clock.NowMicros();
    ghost var request, ok := stream.requests(stream.readCount), stream.accepts(stream.writes);
    ghost var authorization := boundary.authorizations(boundary.asked);
    t := NO_WRITES;
    NothingAdmitted(occupant);
    if request.Some? {
      AdmissionSettles(boundary.sessions.duration, occupant, request.value, authorization, connection, now, ok);
      AnswersMean(boundary.sessions.duration, occupant, request.value, authorization, connection, now);
      t := TrailOf(Emitted(Answer(boundary.sessions.duration, occupant, request.value, authorization, connection,
                                  now).1), ok);
    }
    hide Served;
    hide Disregarded;
    r := boundary.HandleOne(stream, connection, now);
  }

  // Admits one request, and serves the transaction it starts.
  method CoordinateConnection(boundary: BoundaryService, stream: PeerStream, connection: ConnectionToken,
                              engine: Option<EngineHandle>, clock: Clock, rounds: nat)
    returns (r: Option<Result<Response, BoundaryError>>, ghost t: Trail, ghost served: Option<(Slot, Seen)>)
    requires boundary.Valid()
    modifies boundary`asked, boundary.sessions, boundary.sessions.issued, stream, clock
    modifies if engine.Some? then {engine.value} else {}
    ensures boundary.Valid()
    // What was tried, and that every write but a last one was taken.
    ensures Recorded(old(stream.Log()), stream.Log(), stream.accepts, t)
    ensures old(boundary.sessions.Occupant()).None? && r.Some? ==>
              Served(boundary.sessions.Occupant(), t, EngineScreened(engine), r.value)
    ensures old(boundary.sessions.Occupant()).Some? ==>
              r.Some? && Disregarded(old(boundary.sessions.Occupant()).value, boundary.sessions.Occupant(), t)
    // So a client that takes every write leaves a free slot free on every return.
    ensures old(boundary.sessions.Occupant()).None? && r.Some? && EngineScreened(engine)
            && (forall k :: old(stream.writes) <= k < stream.writes ==> stream.accepts(k)) ==>
              boundary.sessions.Occupant() == None
    // A transaction is served only for an authorized request, and every response in it answers something
    // the connection has seen: what is accepted was proved by evidence.
    ensures served.None? ==> forall response :: response in t.Written() ==> !response.Started?
    ensures served.Some? ==>
              var (slot, seen) := served.value;
              && old(boundary.sessions.Occupant()).None? && t.attempted != []
              && t.attempted[0] == Started(slot.transaction)
              && Opens(slot, stream.requests(old(stream.readCount)), boundary.authorizations(old(boundary.asked)),
                       connection, clock.readings(old(clock.ticks)), boundary.sessions.duration)
              && seen.requests == stream.requests && seen.first > old(stream.readCount) && seen.end == stream.readCount
              && (engine.Some? ==> seen.outcomes == engine.value.outcomes && seen.low == old(engine.value.polls)
                                   && seen.high == engine.value.polls)
              && (engine.None? ==> seen.outcomes(0) == Disconnected && seen.low == 0 && seen.high == 1)
              && Accounted(boundary, slot, seen, Trail(t.attempted[1..], t.refused))
    // And no cancellation token of a past transaction is left live.
    ensures boundary.sessions.Occupant().None? ==> forall k :: k in boundary.sessions.issued ==> k.cancelled
  {
    hide Answer;
    hide Served;
    hide Disregarded;
    hide Recorded;
    hide Settled;
    hide Leaves;
    ghost var before, screened := stream.Log(), EngineScreened(engine);
    ghost var free := boundary.sessions.Occupant().None?;
    var admission;
    admission, t := Admit(boundary, stream, connection, clock);
    r, served := Some(admission), None;
    if admission.Success? && admission.value.Started? {
      ghost var between, u := stream.Log(), NO_WRITES;
      ghost var slot := boundary.sessions.active.value.slot;
      ghost var seen;
      r, u, seen := CoordinateStarted(boundary, stream, engine, clock, boundary.sessions.active.value.slot, rounds);
      RecordedInTurn(before, between, stream.Log(), stream.accepts, t, u);
      if r.Some? { StartedSettles(slot, boundary.sessions.Occupant(), u, screened, r.value); }
      t := Joined(t, u);
      served := Some((slot, seen));
      assert t.attempted[1..] == u.attempted;
    }
    if free && r.Some? && screened && forall k :: before.writes <= k < stream.writes ==> stream.accepts(k) {
      TakenMeansFree(before, stream.Log(), stream.accepts, t);
      FreeUnlessLeaves(boundary.sessions.Occupant(), t, screened, r.value);
    }
  }
}
