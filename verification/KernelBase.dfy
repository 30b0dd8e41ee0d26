/**
 What every run keeps, with no assumption at all: journal keys are unique, a
 commit follows an intent and a receipt of its operation, and every provider
 call, receipt and commit happens inside a lease that is open in the journal.
 */
module KernelBase {
  import opened Prelude
  import Journal
  import opened KernelSystem

  ghost predicate KeyedRow(row: Row) {
    && row == MakeRow(row.workload, row.record.op, row.record.body)
    && (row.record.body.Intent? ==>
          row.record.body.request.operation == row.record.op && row.record.body.request.workload == row.workload)
  }

  ghost predicate Keyed(log: Log) {
    forall i {:trigger KeyedRow(log[i])} :: 0 <= i < |log| ==> KeyedRow(log[i])
  }

  ghost predicate InSomeLease(log: Log, workload: WorkloadId, op: OperationId) {
    exists l :: OpenLease(log, workload, op, l)
  }

  /** A receipt or commit at position i lies inside an open lease; a commit also follows intent and receipt. */
  ghost predicate Ordered(log: Log, i: nat)
    requires i < |log|
  {
    var row := log[i];
    && (row.record.body.StepCommit? ==>
          && Journal.HasKey(log[..i], IntentKey(row.record.op))
          && Journal.HasKey(log[..i], ReceiptKey(row.record.op)))
    && (row.record.body.StepCommit? || row.record.body.Received? ==>
          InSomeLease(log[..i], row.workload, row.record.op))
  }

  ghost predicate AllOrdered(log: Log) {
    forall i :: 0 <= i < |log| ==> Ordered(log, i)
  }

  ghost predicate CallOrdered(log: Log, c: Call) {
    && c.at <= |log|
    && Journal.HasKey(log[..c.at], IntentKey(c.request.operation))
    && OpenLease(log[..c.at], c.request.workload, c.request.operation, c.lease)
  }

  ghost predicate Mentions(body: Body, l: LeaseId) {
    body == LeaseActive(l) || Closes(body, l)
  }

  /** Lease ids are never reused, so a lease that was not issued appears nowhere. */
  ghost predicate FreshFrom(log: Log, next: LeaseId) {
    forall i, l :: 0 <= i < |log| && next <= l ==> !Mentions(log[i].record.body, l)
  }

  /** A lease is journaled ACTIVE once, before anything else is said about it. */
  ghost predicate ActiveFirst(log: Log) {
    forall i, j, l :: 0 <= i < j < |log| && Mentions(log[i].record.body, l) ==> log[j].record.body != LeaseActive(l)
  }

  predicate Engaged(stage: Stage) {
    stage.Intended? || stage.Unreceived? || stage.Calling? || stage.Answered? || stage.Durable?
  }

  ghost predicate WorkerBase(log: Log, next: LeaseId, wk: Worker) {
    var op := wk.request.operation;
    match wk.pc
    case Held(l, stage) =>
      && l < next
      && (if stage.Granted? then forall i :: 0 <= i < |log| ==> !Mentions(log[i].record.body, l)
          else OpenLease(log, wk.request.workload, op, l))
      && (Engaged(stage) ==> Journal.HasKey(log, IntentKey(op)))
      && (stage.Durable? ==> Journal.HasKey(log, ReceiptKey(op)))
    case Released(l, _, _) => l < next
    case _ => true
  }

  ghost predicate HasLease(pc: Pc, l: LeaseId) {
    (pc.Held? || pc.Released?) && pc.lease == l
  }

  ghost predicate DistinctLeases(workers: map<WorkerId, Worker>) {
    forall i, j, l :: i in workers && j in workers && HasLease(workers[i].pc, l) && HasLease(workers[j].pc, l) ==> i == j
  }

  ghost predicate Base(s: State) {
    && Keyed(s.log)
    && Journal.UniqueKeys(s.log)
    && AllOrdered(s.log)
    && FreshFrom(s.log, s.nextLease)
    && ActiveFirst(s.log)
    && DistinctLeases(s.workers)
    && (forall id {:trigger WorkerBase(s.log, s.nextLease, s.workers[id])} :: id in s.workers ==> WorkerBase(s.log, s.nextLease, s.workers[id]))
    && (forall i :: 0 <= i < |s.calls| ==> CallOrdered(s.log, s.calls[i]))
  }

  // ---------------------------------------------------------------------------
  // Appending one row
  // ---------------------------------------------------------------------------

  lemma AppendFacts(log: Log, row: Row)
    requires row.key.Some?
    ensures var log' := Journal.Appended(log, row);
            && (forall k :: Journal.HasKey(log, k) ==> Journal.HasKey(log', k))
            && (forall k :: Journal.HasKey(log', k) ==> Journal.HasKey(log, k) || row.key == Some(k))
            && (forall i :: 0 <= i <= |log| ==> log'[..i] == log[..i])
            && (forall i :: 0 <= i < |log'| ==> (i < |log| && log'[i] == log[i]) || (i == |log| && log'[i] == row))
            && (!Journal.HasKey(log, row.key.value) ==> row in log')
  {
    forall k: Key
      ensures Journal.HasKey(Journal.Appended(log, row), k) <==> Journal.HasKey(log, k) || row.key == Some(k)
    {
      Journal.HasKeyAppend(log, row, k);
    }
  }

  /** What a new row must satisfy where it lands. */
  ghost predicate Admissible(log: Log, next: LeaseId, row: Row) {
    && KeyedRow(row)
    && (row.record.body.StepCommit? ==>
          Journal.HasKey(log, IntentKey(row.record.op)) && Journal.HasKey(log, ReceiptKey(row.record.op)))
    && (row.record.body.StepCommit? || row.record.body.Received? ==> InSomeLease(log, row.workload, row.record.op))
    && (forall l: LeaseId :: Mentions(row.record.body, l) ==> l < next)
    && (row.record.body.LeaseActive? ==>
          forall i :: 0 <= i < |log| ==> !Mentions(log[i].record.body, row.record.body.lease))
  }

  lemma AppendKeepsLog(log: Log, next: LeaseId, row: Row)
    requires Keyed(log) && Journal.UniqueKeys(log) && AllOrdered(log) && FreshFrom(log, next) && ActiveFirst(log)
    requires Admissible(log, next, row)
    ensures var log' := Journal.Appended(log, row);
            Keyed(log') && Journal.UniqueKeys(log') && AllOrdered(log') && FreshFrom(log', next) && ActiveFirst(log')
  {
    var log' := Journal.Appended(log, row);
    AppendFacts(log, row);
    assert log[..|log|] == log;
    forall i | 0 <= i < |log'| ensures Ordered(log', i) {
      assert log'[..i] == log[..i];
      if i < |log| {
        assert Ordered(log, i);
      }
    }
  }

  lemma AppendKeepsCall(log: Log, row: Row, c: Call)
    requires row.key.Some? && CallOrdered(log, c)
    ensures CallOrdered(Journal.Appended(log, row), c)
  {
    AppendFacts(log, row);
  }

  /** A worker is indifferent to rows that do not concern its lease. */
  lemma AppendKeepsWorker(log: Log, next: LeaseId, row: Row, wk: Worker)
    requires row.key.Some? && WorkerBase(log, next, wk)
    requires wk.pc.Held? ==> !Mentions(row.record.body, wk.pc.lease)
    ensures WorkerBase(Journal.Appended(log, row), next, wk)
  {
    AppendFacts(log, row);
    if wk.pc.Held? && !wk.pc.stage.Granted? {
      assert MakeRow(wk.request.workload, wk.request.operation, LeaseActive(wk.pc.lease)) in log;
    }
  }

  // ---------------------------------------------------------------------------
  // Every action keeps the invariant
  // ---------------------------------------------------------------------------

  ghost predicate LogBase(log: Log, next: LeaseId) {
    Keyed(log) && Journal.UniqueKeys(log) && AllOrdered(log) && FreshFrom(log, next) && ActiveFirst(log)
  }

  function NextLease(next: LeaseId, act: Act): LeaseId {
    if act.Grant? then next + 1 else next
  }

  /** What a worker writes is admissible and concerns no lease but its own. */
  lemma WrittenIsAdmissible(log: Log, leases: map<LeaseId, Lease>, next: LeaseId, wk: Worker, act: Act)
    requires LogBase(log, next) && WorkerBase(log, next, wk) && Ready(log, leases, wk, act) && Written(wk, act).Some?
    ensures var row := RowFor(wk.request, Written(wk, act).value);
            Admissible(log, next, row) && forall l :: Mentions(row.record.body, l) ==> HasLease(wk.pc, l)
  {
    if wk.pc.Held? && !wk.pc.stage.Granted? {
      assert InSomeLease(log, wk.request.workload, wk.request.operation);
    }
  }

  lemma GrantKeyIsFree(log: Log, op: OperationId, l: LeaseId)
    requires Keyed(log) && forall i :: 0 <= i < |log| ==> !Mentions(log[i].record.body, l)
    ensures !Journal.HasKey(log, GrantKey(op, l))
  {
    forall i | 0 <= i < |log| ensures log[i].key != Some(GrantKey(op, l)) {
      assert KeyedRow(log[i]);
    }
  }

  lemma FoundReceiptHasKey(log: Log, request: Request)
    requires Keyed(log) && ReceivedReceipt(log, request.workload, request.operation).Some?
    ensures Journal.HasKey(log, ReceiptKey(request.operation))
  {
    var r := ReceivedReceipt(log, request.workload, request.operation).value;
    var i :| 0 <= i < |log| && log[i].workload == request.workload && log[i].record == Record(request.operation, Received(r));
    assert KeyedRow(log[i]);
  }

  /** A worker's own step leads it to a sound place. */
  lemma {:induction false} ActKeepsWorker(log: Log, leases: map<LeaseId, Lease>, next: LeaseId, wk: Worker, act: Act)
    requires LogBase(log, next) && WorkerBase(log, next, wk) && Ready(log, leases, wk, act)
    ensures var pc := NextPc(log, leases, next, wk, act);
            && WorkerBase(Write(log, wk.request, Written(wk, act)), NextLease(next, act), wk.(pc := pc))
            && (forall l :: HasLease(pc, l) ==> HasLease(wk.pc, l) || (act.Grant? && l == next))
  {
    if Written(wk, act).Some? {
      var row := RowFor(wk.request, Written(wk, act).value);
      AppendFacts(log, row);
      if act.JournalGrant? {
        GrantKeyIsFree(log, wk.request.operation, wk.pc.lease);
      } else if !act.JournalRelease? {
        AppendKeepsWorker(log, next, row, wk);
      }
    } else if act.CheckReceived? && ReceivedReceipt(log, wk.request.workload, wk.request.operation).Some? {
      FoundReceiptHasKey(log, wk.request);
    }
  }

  lemma {:induction false} ActKeepsOthers(s: State, id: WorkerId, act: Act, j: WorkerId)
    requires Base(s) && Enabled(s, By(id, act)) && j in s.workers && j != id
    ensures WorkerBase(DoBy(s, id, act).log, DoBy(s, id, act).nextLease, s.workers[j])
  {
    var wk := s.workers[id];
    var other := s.workers[j];
    assert WorkerBase(s.log, s.nextLease, wk) && WorkerBase(s.log, s.nextLease, other);
    if Written(wk, act).Some? {
      WrittenIsAdmissible(s.log, s.leases, s.nextLease, wk, act);
      if other.pc.Held? {
        assert HasLease(other.pc, other.pc.lease) && !HasLease(wk.pc, other.pc.lease);
      }
      AppendKeepsWorker(s.log, s.nextLease, RowFor(wk.request, Written(wk, act).value), other);
    }
  }

  lemma ActKeepsCalls(s: State, id: WorkerId, act: Act)
    requires Base(s) && Enabled(s, By(id, act))
    ensures forall i :: 0 <= i < |DoBy(s, id, act).calls| ==> CallOrdered(DoBy(s, id, act).log, DoBy(s, id, act).calls[i])
  {
    var wk := s.workers[id];
    var s' := DoBy(s, id, act);
    forall i | 0 <= i < |s'.calls| ensures CallOrdered(s'.log, s'.calls[i]) {
      if i < |s.calls| {
        assert CallOrdered(s.log, s.calls[i]) && s'.calls[i] == s.calls[i];
        if Written(wk, act).Some? {
          AppendKeepsCall(s.log, RowFor(wk.request, Written(wk, act).value), s.calls[i]);
        }
      } else {
        assert s.log[..|s.log|] == s.log;
        assert WorkerBase(s.log, s.nextLease, wk);
      }
    }
  }

  lemma ActKeepsLog(s: State, id: WorkerId, act: Act)
    requires Base(s) && Enabled(s, By(id, act))
    ensures LogBase(DoBy(s, id, act).log, DoBy(s, id, act).nextLease)
  {
    var wk := s.workers[id];
    if Written(wk, act).Some? {
      WrittenIsAdmissible(s.log, s.leases, s.nextLease, wk, act);
      AppendKeepsLog(s.log, s.nextLease, RowFor(wk.request, Written(wk, act).value));
    }
  }

  lemma ActKeepsDistinct(s: State, id: WorkerId, act: Act)
    requires Base(s) && Enabled(s, By(id, act))
    ensures DistinctLeases(DoBy(s, id, act).workers)
  {
    var s' := DoBy(s, id, act);
    ActKeepsWorker(s.log, s.leases, s.nextLease, s.workers[id], act);
    forall i, j, l | i in s'.workers && j in s'.workers && HasLease(s'.workers[i].pc, l) && HasLease(s'.workers[j].pc, l)
      ensures i == j
    {
      assert WorkerBase(s.log, s.nextLease, s.workers[i]) && WorkerBase(s.log, s.nextLease, s.workers[j]);
    }
  }

  lemma {:induction false} ByKeepsBase(s: State, id: WorkerId, act: Act)
    requires Base(s) && Enabled(s, By(id, act))
    ensures Base(DoBy(s, id, act))
  {
    var s' := DoBy(s, id, act);
    ActKeepsLog(s, id, act);
    ActKeepsDistinct(s, id, act);
    ActKeepsCalls(s, id, act);
    forall j | j in s'.workers ensures WorkerBase(s'.log, s'.nextLease, s'.workers[j]) {
      if j == id {
        ActKeepsWorker(s.log, s.leases, s.nextLease, s.workers[id], act);
      } else {
        ActKeepsOthers(s, id, act, j);
      }
    }
  }

  /** A row written outside any lease. */
  lemma NoteKeepsBase(s: State, row: Row)
    requires Base(s) && Admissible(s.log, s.nextLease, row)
    requires forall id, l :: id in s.workers && HasLease(s.workers[id].pc, l) ==> !Mentions(row.record.body, l)
    ensures Base(s.(log := Journal.Appended(s.log, row)))
  {
    var log' := Journal.Appended(s.log, row);
    AppendKeepsLog(s.log, s.nextLease, row);
    forall j | j in s.workers ensures WorkerBase(log', s.nextLease, s.workers[j]) {
      var wk := s.workers[j];
      assert wk.pc.Held? ==> HasLease(wk.pc, wk.pc.lease);
      AppendKeepsWorker(s.log, s.nextLease, row, wk);
    }
    forall i | 0 <= i < |s.calls| ensures CallOrdered(log', s.calls[i]) {
      AppendKeepsCall(s.log, row, s.calls[i]);
    }
  }

  lemma RevokeKeepsBase(s: State, l: LeaseId, r: Request)
    requires Base(s) && Orphaned(s, l, r)
    ensures Base(s.(log := Journal.Appended(s.log, RowFor(r, LeaseRevoked(l)))))
  {
    var op :| OpenLease(s.log, r.workload, op, l);
    var i :| 0 <= i < |s.log| && s.log[i] == MakeRow(r.workload, op, LeaseActive(l));
    assert Mentions(s.log[i].record.body, l);
    NoteKeepsBase(s, RowFor(r, LeaseRevoked(l)));
  }

  lemma {:induction false} StepKeepsBase(s: State, a: Action)
    requires Base(s) && Enabled(s, a)
    ensures Base(Do(s, a))
  {
    match a
    case Spawn(id, _) =>
    case By(id, act) => ByKeepsBase(s, id, act);
    case Note(row) => NoteKeepsBase(s, row);
    case Revoke(l, r) => RevokeKeepsBase(s, l, r);
    case Expire(l) =>
    case Crash =>
  }

  lemma {:induction false} EveryRunKeepsBase(run: seq<State>, acts: seq<Action>, i: nat)
    requires IsRun(run, acts) && i < |run|
    ensures Base(run[i])
  {
    if 0 < i {
      EveryRunKeepsBase(run, acts, i - 1);
      assert StepAt(run, acts, i - 1);
      StepKeepsBase(run[i - 1], acts[i - 1]);
    }
  }
}
