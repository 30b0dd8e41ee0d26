/**
 The durable execution protocol as a transition system.

 Any number of workers run `execute_internal` at once. Each lock section, each
 journal append and each provider call is one action; actions of different
 workers interleave freely. `Crash` may happen between any two actions and
 leaves only the journal. A journal append may fail, a provider may answer
 anything, a lease may expire at any time.
 */
module KernelSystem {
  import opened Prelude
  import Journal

  type OperationId = nat
  type WorkloadId = nat
  type LeaseId = nat
  type WorkerId = nat
  type Revision = nat

  datatype Delivery =
    | AtMostOnce | AtLeastOnce | Idempotent | Compensatable
    | ExternalCommit | Reconcilable | Unknown

  /** An operation request; `input` stands for the fields the protocol never reads. */
  datatype Request = Request(
    operation: OperationId, workload: WorkloadId, step: nat,
    revision: Revision, delivery: Delivery, input: nat)

  datatype Receipt = Receipt(provider: Revision, result: nat)

  datatype Error =
    | JournalError | ProviderError | SerializationError | UnsafeRecovery(operation: OperationId)
    | Cancelled | DeadlineExceeded | Admission | Scheduling | Resource | ShuttingDown

  predicate Retryable(e: Error) {
    e.ProviderError? || e.Resource? || e.DeadlineExceeded?
  }

  type Outcome = Result<Receipt, Error>

  // ---------------------------------------------------------------------------
  // Journal rows
  // ---------------------------------------------------------------------------

  datatype WorkloadPhase = Completed | WorkloadCancelled | Failed | CancellationRequested

  /** What a row records: entry type, object type, phase and payload together. */
  datatype Body =
    | SchedulerDecision
    | LeaseActive(lease: LeaseId)
    | LeaseReleased(lease: LeaseId)
    | LeaseRevoked(lease: LeaseId)
    | Intent(request: Request, rebound: bool)
    | Received(receipt: Receipt)
    | StepCommit(receipt: Receipt)
    | OperationAbort(revision: Revision)
    | OperationFailure
    | Profile(revision: Revision, failed: bool)
    | Workload(phase: WorkloadPhase)
    | ProviderRebind(revision: Revision)
    | Candidate(provider: nat, verdict: nat)

  /** The idempotency keys, one constructor for each format string. */
  datatype Key =
    | ScheduleKey(op: OperationId)
    | GrantKey(op: OperationId, lease: LeaseId)
    | ReleaseKey(op: OperationId, lease: LeaseId)
    | RevokeKey(op: OperationId, lease: LeaseId)
    | IntentKey(op: OperationId)
    | RebindKey(op: OperationId, revision: Revision)
    | ReceiptKey(op: OperationId)
    | CommitKey(op: OperationId)
    | AbortKey(op: OperationId, revision: Revision)
    | FailureKey(op: OperationId)
    | ProfileKey(op: OperationId, revision: Revision, failed: bool)
    | WorkloadKey(op: OperationId, phase: WorkloadPhase)
    | ProviderRebindKey(op: OperationId, revision: Revision)
    | CandidateKey(op: OperationId, provider: nat, verdict: nat)

  function KeyOf(op: OperationId, body: Body): Key {
    match body
    case SchedulerDecision => ScheduleKey(op)
    case LeaseActive(l) => GrantKey(op, l)
    case LeaseReleased(l) => ReleaseKey(op, l)
    case LeaseRevoked(l) => RevokeKey(op, l)
    case Intent(r, rebound) => if rebound then RebindKey(op, r.revision) else IntentKey(op)
    case Received(_) => ReceiptKey(op)
    case StepCommit(_) => CommitKey(op)
    case OperationAbort(v) => AbortKey(op, v)
    case OperationFailure => FailureKey(op)
    case Profile(v, failed) => ProfileKey(op, v, failed)
    case Workload(p) => WorkloadKey(op, p)
    case ProviderRebind(v) => ProviderRebindKey(op, v)
    case Candidate(p, v) => CandidateKey(op, p, v)
  }

  datatype Record = Record(op: OperationId, body: Body)

  type Row = Journal.Entry<Key, Record>
  type Log = seq<Row>

  function MakeRow(workload: WorkloadId, op: OperationId, body: Body): Row {
    Journal.Entry(workload, Some(KeyOf(op, body)), Record(op, body))
  }

  function RowFor(request: Request, body: Body): Row {
    MakeRow(request.workload, request.operation, body)
  }

  /** `committed_receipt`: the newest commit of the operation among the workload's rows. */
  function CommittedReceipt(log: Log, workload: WorkloadId, op: OperationId): (r: Option<Receipt>)
    ensures r.Some? ==> exists i :: 0 <= i < |log| && log[i].workload == workload && log[i].record == Record(op, StepCommit(r.value))
    ensures r.None? ==> forall i :: 0 <= i < |log| && log[i].workload == workload && log[i].record.op == op ==> !log[i].record.body.StepCommit?
  {
    if log == [] then None
    else
      var last := log[|log| - 1];
      if last.workload == workload && last.record.op == op && last.record.body.StepCommit? then Some(last.record.body.receipt)
      else CommittedReceipt(log[..|log| - 1], workload, op)
  }

  /** `received_receipt`: the newest durable receipt of the operation among the workload's rows. */
  function ReceivedReceipt(log: Log, workload: WorkloadId, op: OperationId): (r: Option<Receipt>)
    ensures r.Some? ==> exists i :: 0 <= i < |log| && log[i].workload == workload && log[i].record == Record(op, Received(r.value))
    ensures r.None? ==> forall i :: 0 <= i < |log| && log[i].workload == workload && log[i].record.op == op ==> !log[i].record.body.Received?
  {
    if log == [] then None
    else
      var last := log[|log| - 1];
      if last.workload == workload && last.record.op == op && last.record.body.Received? then Some(last.record.body.receipt)
      else ReceivedReceipt(log[..|log| - 1], workload, op)
  }

  // ---------------------------------------------------------------------------
  // State
  // ---------------------------------------------------------------------------

  /** An in-memory lease; `expired` once the clock has passed its expiry. */
  datatype Lease = Lease(workload: WorkloadId, expired: bool)

  /** Where a worker is while it holds its lease. */
  datatype Stage =
    | Granted                                             // lease granted in memory only
    | Active                                              // ACTIVE is durable
    | Authorized                                          // fencing validated
    | Intending                                           // no commit found, intent not yet durable
    | Intended                                            // intent durable
    | Unreceived                                          // no durable receipt found
    | Calling                                             // provider invoked
    | Answered(receipt: Receipt)                          // provider returned, receipt not yet durable
    | Durable(receipt: Receipt)                           // receipt durable, commit not yet
    | Closing(step: nat, outcome: Outcome, failed: bool)  // bookkeeping; `failed` once an append failed

  datatype Pc =
    | Begin
    | Admitted
    | Scheduled
    | Held(lease: LeaseId, stage: Stage)
    | Released(lease: LeaseId, outcome: Outcome, failed: bool)
    | Done(result: Outcome)

  datatype Worker = Worker(request: Request, pc: Pc)

  /** A provider invocation; `at` is the journal length when it started. */
  datatype Call = Call(request: Request, lease: LeaseId, at: nat)

  /** A successful `execute` and the receipt it returned. */
  datatype Return = Return(request: Request, receipt: Receipt)

  datatype State = State(
    log: Log,
    leases: map<LeaseId, Lease>,
    nextLease: LeaseId,              // lease ids from here on were never issued
    workers: map<WorkerId, Worker>,
    calls: seq<Call>,
    returned: seq<Return>)

  const Boot := State([], map[], 0, map[], [], [])

  predicate Leased(leases: map<LeaseId, Lease>, workload: WorkloadId) {
    exists l :: l in leases && leases[l].workload == workload && !leases[l].expired
  }

  // ---------------------------------------------------------------------------
  // What one worker can do
  // ---------------------------------------------------------------------------

  /** One atomic step of `execute_internal`; `stored` is false when the append fails. */
  datatype Act =
    | Refuse(error: Error)
    | Replay
    | Admit
    | JournalDecision(stored: bool)
    | Grant
    | GrantRefused
    | JournalGrant(stored: bool)
    | Authorize(valid: bool)
    | CheckCommitted(readable: bool)
    | JournalIntent(stored: bool)
    | CheckReceived(cancelled: bool, readable: bool)
    | CallProvider
    | ProviderReturns(outcome: Outcome)
    | JournalReceipt(stored: bool)
    | JournalCommit(stored: bool)
    | Close(stored: bool)
    | Release
    | JournalRelease(stored: bool)

  /** Errors that stop an execution before it holds a lease. */
  predicate EarlyError(e: Error) {
    e.Admission? || e.ShuttingDown? || e.JournalError? || e.Scheduling?
  }

  function Committed(log: Log, request: Request): Option<Receipt> {
    CommittedReceipt(log, request.workload, request.operation)
  }

  predicate Ready(log: Log, leases: map<LeaseId, Lease>, wk: Worker, act: Act) {
    match act
    case Refuse(e) => (wk.pc.Begin? || wk.pc.Admitted?) && EarlyError(e)
    case Replay => wk.pc.Begin? && Committed(log, wk.request).Some?
    case Admit => wk.pc.Begin? && Committed(log, wk.request).None?
    case JournalDecision(_) => wk.pc.Admitted?
    case Grant => wk.pc.Scheduled? && !Leased(leases, wk.request.workload)
    case GrantRefused => wk.pc.Scheduled? && Leased(leases, wk.request.workload)
    case JournalRelease(_) => wk.pc.Released?
    case _ => wk.pc.Held? && ReadyHeld(wk.pc.stage, act)
  }

  predicate ReadyHeld(stage: Stage, act: Act) {
    match act
    case JournalGrant(_) => stage.Granted?
    case Authorize(_) => stage.Active?
    case CheckCommitted(_) => stage.Authorized?
    case JournalIntent(_) => stage.Intending?
    case CheckReceived(_, _) => stage.Intended?
    case CallProvider => stage.Unreceived?
    case ProviderReturns(_) => stage.Calling?
    case JournalReceipt(_) => stage.Answered?
    case JournalCommit(_) => stage.Durable?
    case Close(_) => stage.Closing? && stage.step < 4
    case Release => stage.Closing? && stage.step >= 4
    case _ => false
  }

  /** The four bookkeeping rows an execution writes before it gives its lease back. */
  function ClosingBody(revision: Revision, step: nat, outcome: Outcome): Body {
    if step == 0 then Profile(revision, outcome.Err?)
    else if step == 1 then OperationAbort(revision)
    else if step == 2 then OperationFailure
    else Workload(match outcome
                  case Ok(_) => Completed
                  case Err(Cancelled) => WorkloadCancelled
                  case Err(_) => Failed)
  }

  /** A success writes no abort and no failure row. */
  function NextClosing(step: nat, outcome: Outcome): nat {
    if step == 0 && outcome.Ok? then 3 else step + 1
  }

  /** The result reported after bookkeeping: a failed append outranks the execution's outcome. */
  function Reported(outcome: Outcome, failed: bool): Outcome {
    if failed then Err(JournalError) else outcome
  }

  /** The row an act appends, if it appends one. */
  function Written(wk: Worker, act: Act): Option<Body> {
    match act
    case JournalDecision(true) => Some(SchedulerDecision)
    case JournalGrant(true) => if wk.pc.Held? then Some(LeaseActive(wk.pc.lease)) else None
    case JournalIntent(true) => Some(Intent(wk.request, false))
    case JournalReceipt(true) => if wk.pc.Held? && wk.pc.stage.Answered? then Some(Received(wk.pc.stage.receipt)) else None
    case JournalCommit(true) => if wk.pc.Held? && wk.pc.stage.Durable? then Some(StepCommit(wk.pc.stage.receipt)) else None
    case Close(true) => if wk.pc.Held? && wk.pc.stage.Closing? then Some(ClosingBody(wk.request.revision, wk.pc.stage.step, wk.pc.stage.outcome)) else None
    case JournalRelease(true) => if wk.pc.Released? then Some(LeaseReleased(wk.pc.lease)) else None
    case _ => None
  }

  /** The stage an act moves a lease holder to, while it keeps holding. */
  function NextStage(log: Log, request: Request, stage: Stage, act: Act): Stage
    requires ReadyHeld(stage, act)
  {
    var broken := Closing(0, Err(JournalError), false);
    match act
    case JournalGrant(_) => Active
    case Authorize(_) => Authorized
    case CheckCommitted(readable) =>
      if !readable then broken
      else (match Committed(log, request) case Some(r) => Closing(0, Ok(r), false) case None => Intending)
    case JournalIntent(stored) => if stored then Intended else broken
    case CheckReceived(cancelled, readable) =>
      if cancelled then Closing(0, Err(Cancelled), false)
      else if !readable then broken
      else (match ReceivedReceipt(log, request.workload, request.operation) case Some(r) => Durable(r) case None => Unreceived)
    case CallProvider => Calling
    case ProviderReturns(outcome) => (match outcome case Ok(r) => Answered(r) case Err(e) => Closing(0, Err(e), false))
    case JournalReceipt(stored) => if stored then Durable(stage.receipt) else broken
    case JournalCommit(stored) => if stored then Closing(0, Ok(stage.receipt), false) else broken
    case Close(stored) => Closing(NextClosing(stage.step, stage.outcome), stage.outcome, stage.failed || !stored)
    case Release => stage
  }

  /** Where an act takes its worker. */
  function NextPc(log: Log, leases: map<LeaseId, Lease>, next: LeaseId, wk: Worker, act: Act): Pc
    requires Ready(log, leases, wk, act)
  {
    match act
    case Refuse(e) => Done(Err(e))
    case Replay => Done(Ok(Committed(log, wk.request).value))
    case Admit => Admitted
    case JournalDecision(stored) => if stored then Scheduled else Done(Err(JournalError))
    case Grant => Held(next, Granted)
    case GrantRefused => Done(Err(Resource))
    case JournalGrant(false) => Done(Err(JournalError))
    case Authorize(false) => Done(Err(Resource))
    case Release => Released(wk.pc.lease, wk.pc.stage.outcome, wk.pc.stage.failed)
    case JournalRelease(stored) => Done(Reported(wk.pc.outcome, wk.pc.failed || !stored))
    case _ => Held(wk.pc.lease, NextStage(log, wk.request, wk.pc.stage, act))
  }

  // ---------------------------------------------------------------------------
  // Actions of the whole system
  // ---------------------------------------------------------------------------

  datatype Action =
    | Spawn(id: WorkerId, request: Request)      // a call of `execute` arrives
    | By(id: WorkerId, act: Act)                 // a worker takes one step
    | Note(row: Row)                             // a coordinator records something outside any lease
    | Revoke(lease: LeaseId, request: Request)   // recovery closes an orphaned lease
    | Expire(lease: LeaseId)                     // the clock passes a lease's expiry
    | Crash

  /** Rows that coordinators append outside any lease. */
  predicate Noted(row: Row) {
    && row == MakeRow(row.workload, row.record.op, row.record.body)
    && match row.record.body
       case Intent(r, rebound) => rebound && r.operation == row.record.op && r.workload == row.workload
       case Candidate(_, _) => true
       case ProviderRebind(_) => true
       case Workload(p) => p == CancellationRequested
       case _ => false
  }

  ghost predicate Closes(body: Body, l: LeaseId) {
    body == LeaseReleased(l) || body == LeaseRevoked(l)
  }

  /** ACTIVE is durable and neither RELEASED nor REVOKED is. */
  ghost predicate OpenLease(log: Log, workload: WorkloadId, op: OperationId, l: LeaseId) {
    && MakeRow(workload, op, LeaseActive(l)) in log
    && forall i :: 0 <= i < |log| ==> !Closes(log[i].record.body, l)
  }

  /** Recovery runs alone and needs a durable intent of the lease's workload. */
  ghost predicate Orphaned(s: State, l: LeaseId, request: Request) {
    && s.workers == map[]
    && (exists op :: OpenLease(s.log, request.workload, op, l))
    && (exists rebound :: RowFor(request, Intent(request, rebound)) in s.log)
  }

  ghost predicate Enabled(s: State, a: Action) {
    match a
    case Spawn(id, _) => id !in s.workers
    case By(id, act) => id in s.workers && Ready(s.log, s.leases, s.workers[id], act)
    case Note(row) => Noted(row)
    case Revoke(l, r) => Orphaned(s, l, r)
    case Expire(l) => l in s.leases
    case Crash => true
  }

  function Write(log: Log, request: Request, body: Option<Body>): Log {
    if body.None? then log else Journal.Appended(log, RowFor(request, body.value))
  }

  /** The lease table after a worker moved: granting adds a lease, ceasing to hold removes it. */
  function Table(leases: map<LeaseId, Lease>, request: Request, was: Pc, now: Pc): map<LeaseId, Lease> {
    if !was.Held? && now.Held? then leases[now.lease := Lease(request.workload, false)]
    else if was.Held? && !now.Held? then leases - {was.lease}
    else leases
  }

  function DoBy(s: State, id: WorkerId, act: Act): State
    requires id in s.workers && Ready(s.log, s.leases, s.workers[id], act)
  {
    var wk := s.workers[id];
    var pc := NextPc(s.log, s.leases, s.nextLease, wk, act);
    State(
      Write(s.log, wk.request, Written(wk, act)),
      Table(s.leases, wk.request, wk.pc, pc),
      if act.Grant? then s.nextLease + 1 else s.nextLease,
      s.workers[id := wk.(pc := pc)],
      if act.CallProvider? && wk.pc.Held? then s.calls + [Call(wk.request, wk.pc.lease, |s.log|)] else s.calls,
      if pc.Done? && pc.result.Ok? then s.returned + [Return(wk.request, pc.result.value)] else s.returned)
  }

  predicate Holds(wk: Worker, l: LeaseId) {
    wk.pc.Held? && wk.pc.lease == l
  }

  function Do(s: State, a: Action): State
    requires Enabled(s, a)
  {
    match a
    case Spawn(id, request) => s.(workers := s.workers[id := Worker(request, Begin)])
    case By(id, act) => DoBy(s, id, act)
    case Note(row) => s.(log := Journal.Appended(s.log, row))
    case Revoke(l, request) => s.(log := Journal.Appended(s.log, RowFor(request, LeaseRevoked(l))))
    case Expire(l) => s.(leases := s.leases[l := s.leases[l].(expired := true)])
    case Crash => s.(workers := map[], leases := map[])
  }

  // ---------------------------------------------------------------------------
  // Runs
  // ---------------------------------------------------------------------------

  ghost predicate StepAt(run: seq<State>, acts: seq<Action>, i: nat)
    requires i < |acts| && |run| == |acts| + 1
  {
    Enabled(run[i], acts[i]) && run[i + 1] == Do(run[i], acts[i])
  }

  /** `run` is the sequence of states that `acts` goes through from an empty journal. */
  ghost predicate IsRun(run: seq<State>, acts: seq<Action>) {
    && |run| == |acts| + 1
    && run[0] == Boot
    && forall i :: 0 <= i < |acts| ==> StepAt(run, acts, i)
  }
}
