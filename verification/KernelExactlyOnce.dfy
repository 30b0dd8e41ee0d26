/**
 Exactly-once execution, operation by operation, over every run.

 The journal keys alone give at most one commit per operation. That the commit
 carries the durable receipt, and that the provider is never invoked again once
 that receipt is durable, needs two more things of the operation at hand, and
 nothing of any other: its requests arrive under one workload, and no two
 callers are at once between looking for its receipt and journaling one.
 Leases provide the second as long as none expires under a caller of this
 operation. `KernelCounterexamples` shows what happens without either.
 */
module KernelExactlyOnce {
  import opened Prelude
  import Journal
  import opened KernelSystem
  import opened KernelBase

  /** A request for the operation arrives under workload x. */
  predicate Routed(a: Action, op: OperationId, x: WorkloadId) {
    a.Spawn? && a.request.operation == op ==> a.request.workload == x
  }

  predicate IsEffect(body: Body) {
    body.Received? || body.StepCommit?
  }

  ghost predicate CommittedWith(log: Log, x: WorkloadId, op: OperationId, r: Receipt) {
    MakeRow(x, op, StepCommit(r)) in log
  }

  ghost predicate ReceivedWith(log: Log, x: WorkloadId, op: OperationId, r: Receipt) {
    MakeRow(x, op, Received(r)) in log
  }

  /** The commit at position i carries the payload of an earlier durable receipt. */
  ghost predicate Matched(log: Log, op: OperationId, x: WorkloadId, i: nat)
    requires i < |log|
  {
    log[i].record.op == op && log[i].record.body.StepCommit? ==> ReceivedWith(log[..i], x, op, log[i].record.body.receipt)
  }

  ghost predicate CalledBeforeReceipt(log: Log, c: Call) {
    c.at <= |log| && !Journal.HasKey(log[..c.at], ReceiptKey(c.request.operation))
  }

  /**
   What the kernel promises of one operation: its commit carries the durable
   receipt, every provider call started before a receipt was durable, and every
   successful execution returned the committed receipt.
   */
  ghost predicate Kept(s: State, op: OperationId, x: WorkloadId) {
    && (forall i :: 0 <= i < |s.log| ==> Matched(s.log, op, x, i))
    && (forall i :: 0 <= i < |s.calls| && s.calls[i].request.operation == op ==> CalledBeforeReceipt(s.log, s.calls[i]))
    && (forall i :: 0 <= i < |s.returned| && s.returned[i].request.operation == op ==> CommittedWith(s.log, x, op, s.returned[i].receipt))
  }

  // ---------------------------------------------------------------------------
  // The invariant of one operation
  // ---------------------------------------------------------------------------

  /** Receipts and commits of the operation are where its lookups search. */
  ghost predicate RoutedRows(log: Log, op: OperationId, x: WorkloadId) {
    forall i :: 0 <= i < |log| && log[i].record.op == op && IsEffect(log[i].record.body) ==> log[i].workload == x
  }

  ghost predicate LogStrong(log: Log, op: OperationId, x: WorkloadId) {
    RoutedRows(log, op, x) && forall i :: 0 <= i < |log| ==> Matched(log, op, x, i)
  }

  /** Between finding no receipt and journaling one. */
  predicate Exposed(stage: Stage) {
    stage.Unreceived? || stage.Calling? || stage.Answered?
  }

  predicate InWindow(wk: Worker, op: OperationId) {
    wk.request.operation == op && wk.pc.Held? && Exposed(wk.pc.stage)
  }

  /** At most one caller of the operation is in the window. */
  predicate OneInWindow(s: State, op: OperationId) {
    forall i, j :: i in s.workers && j in s.workers && InWindow(s.workers[i], op) && InWindow(s.workers[j], op) ==> i == j
  }

  ghost predicate StageStrong(log: Log, op: OperationId, x: WorkloadId, stage: Stage) {
    match stage
    case Durable(r) => ReceivedWith(log, x, op, r)
    case Closing(_, Ok(r), _) => CommittedWith(log, x, op, r)
    case _ => Exposed(stage) ==> !Journal.HasKey(log, ReceiptKey(op))
  }

  ghost predicate WorkerStrong(log: Log, x: WorkloadId, wk: Worker) {
    && wk.request.workload == x
    && match wk.pc
       case Held(_, stage) => StageStrong(log, wk.request.operation, x, stage)
       case Released(_, Ok(r), _) => CommittedWith(log, x, wk.request.operation, r)
       case Done(Ok(r)) => CommittedWith(log, x, wk.request.operation, r)
       case _ => true
  }

  ghost predicate WorkersStrong(s: State, op: OperationId, x: WorkloadId) {
    forall id {:trigger WorkerStrong(s.log, x, s.workers[id])} ::
      id in s.workers && s.workers[id].request.operation == op ==> WorkerStrong(s.log, x, s.workers[id])
  }

  ghost predicate Strong(s: State, op: OperationId, x: WorkloadId) {
    Kept(s, op, x) && RoutedRows(s.log, op, x) && WorkersStrong(s, op, x)
  }

  // ---------------------------------------------------------------------------
  // Looking receipts up
  // ---------------------------------------------------------------------------

  lemma KeyHolder(log: Log, k: Key)
    requires Keyed(log) && Journal.HasKey(log, k)
    ensures exists i :: 0 <= i < |log| && KeyedRow(log[i]) && KeyOf(log[i].record.op, log[i].record.body) == k
  {
    var i :| 0 <= i < |log| && log[i].key == Some(k);
    assert KeyedRow(log[i]);
  }

  /** The workload-scoped searches see every effect of a routed operation. */
  lemma LookupsAreComplete(log: Log, op: OperationId, x: WorkloadId)
    requires Keyed(log) && RoutedRows(log, op, x)
    ensures match CommittedReceipt(log, x, op)
            case Some(r) => CommittedWith(log, x, op, r) && Journal.HasKey(log, CommitKey(op))
            case None => !Journal.HasKey(log, CommitKey(op))
    ensures match ReceivedReceipt(log, x, op)
            case Some(r) => ReceivedWith(log, x, op, r) && Journal.HasKey(log, ReceiptKey(op))
            case None => !Journal.HasKey(log, ReceiptKey(op))
  {
    assert forall i :: 0 <= i < |log| ==> KeyedRow(log[i]);
    if Journal.HasKey(log, CommitKey(op)) {
      KeyHolder(log, CommitKey(op));
    }
    if Journal.HasKey(log, ReceiptKey(op)) {
      KeyHolder(log, ReceiptKey(op));
    }
  }

  lemma OneCommittedReceipt(log: Log, x: WorkloadId, op: OperationId, r: Receipt, q: Receipt)
    requires Journal.UniqueKeys(log) && CommittedWith(log, x, op, r) && CommittedWith(log, x, op, q)
    ensures r == q
  {
    var i :| 0 <= i < |log| && log[i] == MakeRow(x, op, StepCommit(r));
    var j :| 0 <= j < |log| && log[j] == MakeRow(x, op, StepCommit(q));
    assert log[i].key == log[j].key;
  }

  lemma OneReceivedReceipt(log: Log, x: WorkloadId, op: OperationId, r: Receipt, q: Receipt)
    requires Journal.UniqueKeys(log) && ReceivedWith(log, x, op, r) && ReceivedWith(log, x, op, q)
    ensures r == q
  {
    var i :| 0 <= i < |log| && log[i] == MakeRow(x, op, Received(r));
    var j :| 0 <= j < |log| && log[j] == MakeRow(x, op, Received(q));
    assert log[i].key == log[j].key;
  }

  /** A commit that is already there carries the durable receipt, whoever wrote it. */
  lemma CommitIsOfTheReceipt(log: Log, op: OperationId, x: WorkloadId, r: Receipt)
    requires Keyed(log) && Journal.UniqueKeys(log) && LogStrong(log, op, x)
    requires ReceivedWith(log, x, op, r) && Journal.HasKey(log, CommitKey(op))
    ensures CommittedWith(log, x, op, r)
  {
    KeyHolder(log, CommitKey(op));
    var i :| 0 <= i < |log| && KeyedRow(log[i]) && KeyOf(log[i].record.op, log[i].record.body) == CommitKey(op);
    var q := log[i].record.body.receipt;
    assert Matched(log, op, x, i);
    assert ReceivedWith(log, x, op, q);
    OneReceivedReceipt(log, x, op, r, q);
  }

  // ---------------------------------------------------------------------------
  // Appending one row
  // ---------------------------------------------------------------------------

  lemma AppendKeepsWorkerStrong(log: Log, row: Row, x: WorkloadId, wk: Worker)
    requires row.key.Some? && WorkerStrong(log, x, wk)
    requires InWindow(wk, wk.request.operation) ==> row.key != Some(ReceiptKey(wk.request.operation))
    ensures WorkerStrong(Journal.Appended(log, row), x, wk)
  {
    AppendFacts(log, row);
    assert forall e :: e in log ==> e in Journal.Appended(log, row);
  }

  /** An effect of the operation that belongs where it lands; any row of no concern to it. */
  ghost predicate Fitting(log: Log, op: OperationId, x: WorkloadId, row: Row) {
    && KeyedRow(row)
    && (row.record.op == op && IsEffect(row.record.body) ==> row.workload == x)
    && (row.record.op == op && row.record.body.StepCommit? ==> ReceivedWith(log, x, op, row.record.body.receipt))
  }

  lemma AppendKeepsLogStrong(log: Log, op: OperationId, x: WorkloadId, row: Row)
    requires LogStrong(log, op, x) && Fitting(log, op, x, row)
    ensures LogStrong(Journal.Appended(log, row), op, x)
  {
    var log' := Journal.Appended(log, row);
    AppendFacts(log, row);
    assert log[..|log|] == log;
    forall i | 0 <= i < |log'| ensures Matched(log', op, x, i) {
      assert log'[..i] == log[..i];
      if i < |log| {
        assert Matched(log, op, x, i);
      }
    }
  }

  lemma AppendKeepsCallHistory(log: Log, row: Row, c: Call)
    requires row.key.Some? && CalledBeforeReceipt(log, c)
    ensures CalledBeforeReceipt(Journal.Appended(log, row), c)
  {
    AppendFacts(log, row);
  }

  /** What was promised of past calls and returns stays true as the journal grows. */
  lemma AppendKeepsKept(s: State, op: OperationId, x: WorkloadId, row: Row)
    requires Kept(s, op, x) && RoutedRows(s.log, op, x) && Fitting(s.log, op, x, row)
    ensures var s' := s.(log := Journal.Appended(s.log, row)); Kept(s', op, x) && RoutedRows(s'.log, op, x)
  {
    var log' := Journal.Appended(s.log, row);
    AppendKeepsLogStrong(s.log, op, x, row);
    forall i | 0 <= i < |s.calls| && s.calls[i].request.operation == op ensures CalledBeforeReceipt(log', s.calls[i]) {
      AppendKeepsCallHistory(s.log, row, s.calls[i]);
    }
    forall i | 0 <= i < |s.returned| && s.returned[i].request.operation == op
      ensures CommittedWith(log', x, op, s.returned[i].receipt)
    {
      assert CommittedWith(s.log, x, op, s.returned[i].receipt);
    }
  }

  // ---------------------------------------------------------------------------
  // A step of a caller of the operation
  // ---------------------------------------------------------------------------

  lemma WrittenFits(log: Log, leases: map<LeaseId, Lease>, op: OperationId, x: WorkloadId, wk: Worker, act: Act)
    requires wk.request.operation == op ==> WorkerStrong(log, x, wk)
    requires Ready(log, leases, wk, act) && Written(wk, act).Some?
    ensures Fitting(log, op, x, RowFor(wk.request, Written(wk, act).value))
  {
  }

  /** The caller's new stage is justified by the journal it has just written. */
  lemma {:induction false} WritingStageStrong(log: Log, x: WorkloadId, wk: Worker, act: Act)
    requires Keyed(log) && Journal.UniqueKeys(log) && LogStrong(log, wk.request.operation, x) && WorkerStrong(log, x, wk)
    requires wk.pc.Held? && ReadyHeld(wk.pc.stage, act) && Written(wk, act).Some?
    ensures StageStrong(Write(log, wk.request, Written(wk, act)), wk.request.operation, x, NextStage(log, wk.request, wk.pc.stage, act))
  {
    var op := wk.request.operation;
    AppendFacts(log, RowFor(wk.request, Written(wk, act).value));
    assert !act.CheckCommitted? && !act.CheckReceived?;
    if act.JournalCommit? && Journal.HasKey(log, CommitKey(op)) {
      CommitIsOfTheReceipt(log, op, x, wk.pc.stage.receipt);
    }
  }

  lemma {:induction false} ReadingStageStrong(log: Log, x: WorkloadId, wk: Worker, act: Act)
    requires Keyed(log) && RoutedRows(log, wk.request.operation, x) && WorkerStrong(log, x, wk)
    requires wk.pc.Held? && ReadyHeld(wk.pc.stage, act) && Written(wk, act).None? && act != JournalGrant(false)
    ensures StageStrong(log, wk.request.operation, x, NextStage(log, wk.request, wk.pc.stage, act))
  {
    if act.CheckCommitted? || act.CheckReceived? {
      LookupsAreComplete(log, wk.request.operation, x);
    }
  }

  /** A caller that does not hold a lease next is justified too. */
  lemma {:induction false} SettledStrong(log: Log, leases: map<LeaseId, Lease>, next: LeaseId, x: WorkloadId, wk: Worker, act: Act)
    requires Keyed(log) && RoutedRows(log, wk.request.operation, x) && WorkerStrong(log, x, wk) && Ready(log, leases, wk, act)
    requires !NextPc(log, leases, next, wk, act).Held?
    ensures WorkerStrong(Write(log, wk.request, Written(wk, act)), x, wk.(pc := NextPc(log, leases, next, wk, act)))
  {
    if act.Replay? {
      LookupsAreComplete(log, wk.request.operation, x);
    } else if Written(wk, act).Some? {
      AppendFacts(log, RowFor(wk.request, Written(wk, act).value));
    }
  }

  lemma {:induction false} ActStrong(log: Log, leases: map<LeaseId, Lease>, next: LeaseId, x: WorkloadId, wk: Worker, act: Act)
    requires Keyed(log) && Journal.UniqueKeys(log) && LogStrong(log, wk.request.operation, x) && WorkerStrong(log, x, wk)
    requires Ready(log, leases, wk, act)
    ensures WorkerStrong(Write(log, wk.request, Written(wk, act)), x, wk.(pc := NextPc(log, leases, next, wk, act)))
  {
    var pc := NextPc(log, leases, next, wk, act);
    if !pc.Held? {
      SettledStrong(log, leases, next, x, wk, act);
    } else if act.Grant? {
      assert pc == Held(next, Granted);
    } else if Written(wk, act).Some? {
      WritingStageStrong(log, x, wk, act);
    } else {
      ReadingStageStrong(log, x, wk, act);
    }
  }

  /** Receipts are journaled from inside the window. */
  lemma ReceiptsComeFromTheWindow(log: Log, leases: map<LeaseId, Lease>, wk: Worker, act: Act)
    requires Ready(log, leases, wk, act) && Written(wk, act).Some?
    ensures KeyOf(wk.request.operation, Written(wk, act).value).ReceiptKey? ==> InWindow(wk, wk.request.operation)
  {
  }

  /** A row written by one caller does not unsettle another. */
  lemma {:induction false} OthersReadOn(s: State, op: OperationId, x: WorkloadId, id: WorkerId, act: Act, j: WorkerId)
    requires Enabled(s, By(id, act)) && j in s.workers && j != id
    requires s.workers[j].request.operation == op && WorkerStrong(s.log, x, s.workers[j])
    requires s.workers[id].request.operation == op ==> OneInWindow(s, op)
    ensures WorkerStrong(Write(s.log, s.workers[id].request, Written(s.workers[id], act)), x, s.workers[j])
  {
    var wk := s.workers[id];
    if Written(wk, act).Some? {
      ReceiptsComeFromTheWindow(s.log, s.leases, wk, act);
      AppendKeepsWorkerStrong(s.log, RowFor(wk.request, Written(wk, act).value), x, s.workers[j]);
    }
  }

  lemma WriteKeepsKept(s: State, op: OperationId, x: WorkloadId, id: WorkerId, act: Act)
    requires Strong(s, op, x) && Enabled(s, By(id, act))
    ensures var s' := s.(log := DoBy(s, id, act).log); Kept(s', op, x) && RoutedRows(s'.log, op, x)
  {
    var wk := s.workers[id];
    if Written(wk, act).Some? {
      WrittenFits(s.log, s.leases, op, x, wk, act);
      AppendKeepsKept(s, op, x, RowFor(wk.request, Written(wk, act).value));
    }
  }

  /** A call this step starts precedes any receipt; a receipt this step returns is committed. */
  lemma {:induction false} NewHistoryIsKept(s: State, op: OperationId, x: WorkloadId, id: WorkerId, act: Act)
    requires Strong(s, op, x) && Enabled(s, By(id, act)) && s.workers[id].request.operation == op
    requires Keyed(s.log) && Journal.UniqueKeys(s.log)
    ensures var s' := DoBy(s, id, act);
            && (|s'.calls| > |s.calls| ==> CalledBeforeReceipt(s'.log, s'.calls[|s.calls|]))
            && (|s'.returned| > |s.returned| ==> CommittedWith(s'.log, x, op, s'.returned[|s.returned|].receipt))
  {
    var wk := s.workers[id];
    assert WorkerStrong(s.log, x, wk);
    assert s.log[..|s.log|] == s.log;
    ActStrong(s.log, s.leases, s.nextLease, x, wk, act);
  }

  lemma {:induction false} ByKeepsKept(s: State, op: OperationId, x: WorkloadId, id: WorkerId, act: Act)
    requires Base(s) && Strong(s, op, x) && Enabled(s, By(id, act))
    ensures Kept(DoBy(s, id, act), op, x) && RoutedRows(DoBy(s, id, act).log, op, x)
  {
    var s' := DoBy(s, id, act);
    var mid := s.(log := s'.log);
    WriteKeepsKept(s, op, x, id, act);
    if s.workers[id].request.operation == op {
      NewHistoryIsKept(s, op, x, id, act);
    }
    forall i | 0 <= i < |s'.log| ensures Matched(s'.log, op, x, i) {
      assert Matched(mid.log, op, x, i);
    }
    forall i | 0 <= i < |s'.calls| && s'.calls[i].request.operation == op ensures CalledBeforeReceipt(s'.log, s'.calls[i]) {
      if i < |s.calls| {
        assert mid.calls[i] == s'.calls[i];
      }
    }
    forall i | 0 <= i < |s'.returned| && s'.returned[i].request.operation == op
      ensures CommittedWith(s'.log, x, op, s'.returned[i].receipt)
    {
      if i < |s.returned| {
        assert mid.returned[i] == s'.returned[i];
      }
    }
  }

  lemma {:induction false} ByStrong(s: State, op: OperationId, x: WorkloadId, id: WorkerId, act: Act)
    requires Base(s) && Strong(s, op, x) && Enabled(s, By(id, act))
    requires s.workers[id].request.operation == op ==> OneInWindow(s, op)
    ensures Strong(DoBy(s, id, act), op, x)
  {
    var s' := DoBy(s, id, act);
    ByKeepsKept(s, op, x, id, act);
    forall j | j in s'.workers && s'.workers[j].request.operation == op ensures WorkerStrong(s'.log, x, s'.workers[j]) {
      assert WorkerStrong(s.log, x, s.workers[j]);
      if j == id {
        ActStrong(s.log, s.leases, s.nextLease, x, s.workers[id], act);
      } else {
        OthersReadOn(s, op, x, id, act, j);
      }
    }
  }

  // ---------------------------------------------------------------------------
  // Every action keeps the invariant
  // ---------------------------------------------------------------------------

  /** Rows that are no effects concern no operation's invariant. */
  lemma NoteStrong(s: State, op: OperationId, x: WorkloadId, row: Row)
    requires Strong(s, op, x) && KeyedRow(row) && !IsEffect(row.record.body)
    ensures Strong(s.(log := Journal.Appended(s.log, row)), op, x)
  {
    AppendKeepsKept(s, op, x, row);
    forall j | j in s.workers && s.workers[j].request.operation == op
      ensures WorkerStrong(Journal.Appended(s.log, row), x, s.workers[j])
    {
      AppendKeepsWorkerStrong(s.log, row, x, s.workers[j]);
    }
  }

  /** Only a caller of the operation that meets another in the window can unsettle it. */
  lemma {:induction false} StepKeepsStrong(s: State, op: OperationId, x: WorkloadId, a: Action)
    requires Base(s) && Strong(s, op, x) && Enabled(s, a) && Routed(a, op, x)
    requires a.By? && s.workers[a.id].request.operation == op ==> OneInWindow(s, op)
    ensures Strong(Do(s, a), op, x)
  {
    match a
    case Spawn(id, r) =>
      forall j | j in Do(s, a).workers && Do(s, a).workers[j].request.operation == op
        ensures WorkerStrong(s.log, x, Do(s, a).workers[j])
      {
        assert j != id ==> WorkerStrong(s.log, x, s.workers[j]);
      }
    case By(id, act) => ByStrong(s, op, x, id, act);
    case Note(row) => NoteStrong(s, op, x, row);
    case Revoke(l, r) => NoteStrong(s, op, x, RowFor(r, LeaseRevoked(l)));
    case Expire(l) =>
    case Crash =>
  }

  // ---------------------------------------------------------------------------
  // The theorems
  // ---------------------------------------------------------------------------

  ghost predicate Undisturbed(run: seq<State>, acts: seq<Action>, op: OperationId, x: WorkloadId, k: nat)
    requires k < |acts| && |run| == |acts| + 1
  {
    Routed(acts[k], op, x) && OneInWindow(run[k], op)
  }

  lemma {:induction false} EveryRunKeepsStrong(run: seq<State>, acts: seq<Action>, op: OperationId, x: WorkloadId, i: nat)
    requires IsRun(run, acts) && i < |run|
    requires forall k :: 0 <= k < i ==> Undisturbed(run, acts, op, x, k)
    ensures Base(run[i]) && Strong(run[i], op, x)
  {
    if 0 < i {
      EveryRunKeepsStrong(run, acts, op, x, i - 1);
      assert StepAt(run, acts, i - 1) && Undisturbed(run, acts, op, x, i - 1);
      StepKeepsBase(run[i - 1], acts[i - 1]);
      StepKeepsStrong(run[i - 1], op, x, acts[i - 1]);
    }
  }

  /** At most one row of each kind that matters, whatever happens. */
  ghost predicate OncePerOperation(log: Log) {
    forall i, j :: 0 <= i < j < |log| && log[i].record.op == log[j].record.op ==>
      && !(log[i].record.body.StepCommit? && log[j].record.body.StepCommit?)
      && !(log[i].record.body.Received? && log[j].record.body.Received?)
  }

  lemma KeysGiveOncePerOperation(log: Log)
    requires Keyed(log) && Journal.UniqueKeys(log)
    ensures OncePerOperation(log)
  {
    assert forall i :: 0 <= i < |log| ==> KeyedRow(log[i]);
  }

  /**
   In every run whatsoever: at most one commit and one receipt per operation,
   every commit after an intent and a receipt of its operation, and every
   provider call, receipt and commit inside a lease that the journal shows open.
   */
  lemma LeaseBracketing(run: seq<State>, acts: seq<Action>, i: nat)
    requires IsRun(run, acts) && i < |run|
    ensures OncePerOperation(run[i].log) && AllOrdered(run[i].log)
    ensures forall k :: 0 <= k < |run[i].calls| ==> CallOrdered(run[i].log, run[i].calls[k])
  {
    EveryRunKeepsBase(run, acts, i);
    KeysGiveOncePerOperation(run[i].log);
  }

  /** All successful executions of the operation returned one and the same receipt. */
  ghost predicate OneAnswer(s: State, op: OperationId) {
    forall j, k :: 0 <= j < |s.returned| && 0 <= k < |s.returned| && s.returned[j].request.operation == op && s.returned[k].request.operation == op ==>
      s.returned[j].receipt == s.returned[k].receipt
  }

  lemma KeptIsOneAnswer(s: State, op: OperationId, x: WorkloadId)
    requires Journal.UniqueKeys(s.log) && Kept(s, op, x)
    ensures OneAnswer(s, op)
  {
    forall j, k | 0 <= j < |s.returned| && 0 <= k < |s.returned| && s.returned[j].request.operation == op && s.returned[k].request.operation == op
      ensures s.returned[j].receipt == s.returned[k].receipt
    {
      OneCommittedReceipt(s.log, x, op, s.returned[j].receipt, s.returned[k].receipt);
    }
  }

  /**
   The promise to one operation, whatever happens to all others: as long as its
   requests arrive under one workload and no two of its callers are in the
   window at once, its commit carries the one durable receipt, no provider call
   starts once that receipt is durable, and every successful execution returned it.
   */
  lemma ExactlyOnce(run: seq<State>, acts: seq<Action>, op: OperationId, x: WorkloadId, i: nat)
    requires IsRun(run, acts) && i < |run|
    requires forall k :: 0 <= k < i ==> Undisturbed(run, acts, op, x, k)
    ensures Kept(run[i], op, x) && OneAnswer(run[i], op)
  {
    EveryRunKeepsStrong(run, acts, op, x, i);
    KeptIsOneAnswer(run[i], op, x);
  }

  // ---------------------------------------------------------------------------
  // What leases contribute
  // ---------------------------------------------------------------------------

  predicate Holder(s: State, op: OperationId, id: WorkerId) {
    id in s.workers && s.workers[id].request.operation == op && s.workers[id].pc.Held?
  }

  /** A lease expires while a caller of the operation still holds it. */
  predicate Overruns(s: State, a: Action, op: OperationId) {
    a.Expire? && exists id :: id in s.workers && s.workers[id].request.operation == op && Holds(s.workers[id], a.lease)
  }

  predicate HoldsLive(s: State, x: WorkloadId, wk: Worker) {
    wk.request.workload == x && (wk.pc.Held? ==> wk.pc.lease in s.leases && s.leases[wk.pc.lease] == Lease(x, false))
  }

  /** Callers of the operation hold live leases of its workload, at most one of them at a time. */
  ghost predicate Guarded(s: State, op: OperationId, x: WorkloadId) {
    && (forall id {:trigger HoldsLive(s, x, s.workers[id])} ::
          id in s.workers && s.workers[id].request.operation == op ==> HoldsLive(s, x, s.workers[id]))
    && (forall i, j :: Holder(s, op, i) && Holder(s, op, j) ==> i == j)
  }

  lemma OthersKeepTheirLease(s: State, x: WorkloadId, id: WorkerId, act: Act, j: WorkerId)
    requires Base(s) && Enabled(s, By(id, act)) && j in s.workers && j != id && HoldsLive(s, x, s.workers[j])
    ensures HoldsLive(DoBy(s, id, act), x, s.workers[j])
  {
    var wk, other := s.workers[id], s.workers[j];
    assert WorkerBase(s.log, s.nextLease, other);
    assert (other.pc.Held? ==> HasLease(other.pc, other.pc.lease)) && (wk.pc.Held? ==> HasLease(wk.pc, wk.pc.lease));
  }

  lemma OwnLeaseIsLive(s: State, x: WorkloadId, id: WorkerId, act: Act)
    requires Base(s) && Enabled(s, By(id, act)) && HoldsLive(s, x, s.workers[id])
    ensures HoldsLive(DoBy(s, id, act), x, DoBy(s, id, act).workers[id])
  {
  }

  /** The grant gate: no caller is let in while another holds a live lease of the workload. */
  lemma GateKeepsOut(s: State, op: OperationId, x: WorkloadId, id: WorkerId, act: Act, j: WorkerId)
    requires Guarded(s, op, x) && Enabled(s, By(id, act)) && s.workers[id].request.operation == op
    requires Holder(s, op, j) && j != id
    ensures !Holder(DoBy(s, id, act), op, id)
  {
    assert HoldsLive(s, x, s.workers[id]) && HoldsLive(s, x, s.workers[j]);
    assert Leased(s.leases, x);
    assert !Holder(s, op, id);
  }

  lemma {:induction false} ByKeepsGuarded(s: State, op: OperationId, x: WorkloadId, id: WorkerId, act: Act)
    requires Base(s) && Guarded(s, op, x) && Enabled(s, By(id, act))
    ensures Guarded(DoBy(s, id, act), op, x)
  {
    var s' := DoBy(s, id, act);
    forall j | j in s'.workers && s'.workers[j].request.operation == op ensures HoldsLive(s', x, s'.workers[j]) {
      assert HoldsLive(s, x, s.workers[j]);
      if j == id {
        OwnLeaseIsLive(s, x, id, act);
      } else {
        OthersKeepTheirLease(s, x, id, act, j);
      }
    }
    forall i, j | Holder(s', op, i) && Holder(s', op, j) ensures i == j {
      if i != j && i == id {
        GateKeepsOut(s, op, x, id, act, j);
      } else if i != j && j == id {
        GateKeepsOut(s, op, x, id, act, i);
      } else {
        assert i != id && j != id ==> Holder(s, op, i) && Holder(s, op, j);
      }
    }
  }

  lemma {:induction false} StepKeepsGuarded(s: State, op: OperationId, x: WorkloadId, a: Action)
    requires Base(s) && Guarded(s, op, x) && Enabled(s, a) && Routed(a, op, x) && !Overruns(s, a, op)
    ensures Guarded(Do(s, a), op, x)
  {
    if a.By? {
      ByKeepsGuarded(s, op, x, a.id, a.act);
    } else {
      var s' := Do(s, a);
      forall j | j in s'.workers && s'.workers[j].request.operation == op ensures HoldsLive(s', x, s'.workers[j]) {
        assert j in s.workers && s'.workers[j] == s.workers[j] ==> HoldsLive(s, x, s.workers[j]);
      }
      forall i, j | Holder(s', op, i) && Holder(s', op, j) ensures i == j {
        assert Holder(s, op, i) && Holder(s, op, j);
      }
    }
  }

  ghost predicate InTime(run: seq<State>, acts: seq<Action>, op: OperationId, x: WorkloadId, k: nat)
    requires k < |acts| && |run| == |acts| + 1
  {
    Routed(acts[k], op, x) && !Overruns(run[k], acts[k], op)
  }

  /** While no lease expires under a caller of the operation, two of them never hold a lease at once. */
  lemma {:induction false} OneHolderPerOperation(run: seq<State>, acts: seq<Action>, op: OperationId, x: WorkloadId, i: nat)
    requires IsRun(run, acts) && i < |run|
    requires forall k :: 0 <= k < i ==> InTime(run, acts, op, x, k)
    ensures Guarded(run[i], op, x)
  {
    if 0 < i {
      OneHolderPerOperation(run, acts, op, x, i - 1);
      EveryRunKeepsBase(run, acts, i - 1);
      assert StepAt(run, acts, i - 1) && InTime(run, acts, op, x, i - 1);
      StepKeepsGuarded(run[i - 1], op, x, acts[i - 1]);
    }
  }

  /** So leases that outlast their callers' work on the operation are enough for the promise. */
  lemma ExactlyOnceInTime(run: seq<State>, acts: seq<Action>, op: OperationId, x: WorkloadId, i: nat)
    requires IsRun(run, acts) && i < |run|
    requires forall k :: 0 <= k < i ==> InTime(run, acts, op, x, k)
    ensures Kept(run[i], op, x) && OneAnswer(run[i], op)
  {
    forall k | 0 <= k < i ensures Undisturbed(run, acts, op, x, k) {
      assert InTime(run, acts, op, x, k);
      OneHolderPerOperation(run, acts, op, x, k);
      forall p, q | p in run[k].workers && q in run[k].workers && InWindow(run[k].workers[p], op) && InWindow(run[k].workers[q], op) ensures p == q {
        assert Holder(run[k], op, p) && Holder(run[k], op, q);
      }
    }
    ExactlyOnce(run, acts, op, x, i);
  }
}
