/**
 What recovery reads out of the journal: the operations still pending and the
 leases still open, each computed by a left-to-right scan and proved equal to a
 reading of the journal that mentions no scan.
 */
module KernelRecovery {
  import opened Prelude
  import Journal
  import opened KernelSystem
  import opened KernelBase
  import opened KernelExactlyOnce

  // ---------------------------------------------------------------------------
  // Pending operations
  // ---------------------------------------------------------------------------

  predicate Settles(body: Body) {
    body.StepCommit? || body.OperationAbort?
  }

  function PendingStep(pending: map<OperationId, Request>, row: Row): map<OperationId, Request> {
    if row.record.body.Intent? then pending[row.record.body.request.operation := row.record.body.request]
    else if Settles(row.record.body) then pending - {row.record.op}
    else pending
  }

  function Pending(log: Log): map<OperationId, Request> {
    if log == [] then map[] else PendingStep(Pending(log[..|log| - 1]), log[|log| - 1])
  }

  /** Position i holds the latest intent of the operation, and nothing settled the operation since. */
  ghost predicate Unsettled(log: Log, op: OperationId, i: nat) {
    && i < |log| && log[i].record.op == op && log[i].record.body.Intent?
    && forall j :: i < j < |log| && log[j].record.op == op ==> !log[j].record.body.Intent? && !Settles(log[j].record.body)
  }

  /** The scan finds exactly the operations whose latest intent is unsettled, with that intent's request. */
  lemma {:induction false} PendingIsExact(log: Log, op: OperationId)
    requires Keyed(log)
    ensures op in Pending(log) <==> exists i: nat :: Unsettled(log, op, i)
    ensures forall i: nat :: Unsettled(log, op, i) ==> op in Pending(log) && Pending(log)[op] == log[i].record.body.request
  {
    if log != [] {
      var n := |log| - 1;
      var init := log[..n];
      var row := log[n];
      assert KeyedRow(row);
      PendingIsExact(init, op);
      forall i: nat ensures Unsettled(log, op, i) <==>
          (i == n && row.record.op == op && row.record.body.Intent?) ||
          (Unsettled(init, op, i) && !(row.record.op == op && (row.record.body.Intent? || Settles(row.record.body))))
      {
        if i < n {
          assert log[i] == init[i];
        }
      }
      if row.record.op == op && row.record.body.Intent? {
        assert Unsettled(log, op, n);
      } else if exists i: nat :: Unsettled(init, op, i) {
        var i: nat :| Unsettled(init, op, i);
        assert Unsettled(log, op, i) <==> !(row.record.op == op && Settles(row.record.body));
      }
    }
  }

  /** Rows about other operations leave an operation's pending status alone. */
  lemma {:induction false} PendingOthers(log: Log, log': Log, op: OperationId)
    requires log <= log' && Keyed(log')
    requires forall i :: |log| <= i < |log'| ==> log'[i].record.op != op
    ensures op in Pending(log') <==> op in Pending(log)
    ensures op in Pending(log) ==> Pending(log')[op] == Pending(log)[op]
  {
    if |log| < |log'| {
      var n := |log'| - 1;
      assert KeyedRow(log'[n]);
      assert forall i :: 0 <= i < n ==> KeyedRow(log'[i]);
      PendingOthers(log, log'[..n], op);
    } else {
      assert log' == log;
    }
  }

  // ---------------------------------------------------------------------------
  // No intent after a commit
  // ---------------------------------------------------------------------------

  /** No intent of the operation stands after its commit. */
  ghost predicate Final(log: Log, op: OperationId) {
    forall i, j :: 0 <= i < j < |log| && log[i].record.op == log[j].record.op == op && log[i].record.body.StepCommit? ==>
      !log[j].record.body.Intent?
  }

  ghost predicate NoLateIntent(log: Log) {
    forall op :: Final(log, op)
  }

  /** A new rebinding intent is only recorded for an operation that is not committed. */
  predicate Orderly(s: State, a: Action) {
    a.Note? && a.row.record.body.Intent? && !Journal.HasKey(s.log, KeyOf(a.row.record.op, a.row.record.body)) ==>
      !Journal.HasKey(s.log, CommitKey(a.row.record.op))
  }

  lemma CommitPosition(log: Log, op: OperationId) returns (i: nat)
    requires Keyed(log) && Journal.HasKey(log, CommitKey(op))
    ensures i < |log| && log[i].record.op == op && log[i].record.body.StepCommit?
  {
    KeyHolder(log, CommitKey(op));
    i :| i < |log| && KeyedRow(log[i]) && KeyOf(log[i].record.op, log[i].record.body) == CommitKey(op);
  }

  /** A committed operation has declared its intent before. */
  lemma CommitHasIntent(log: Log, op: OperationId)
    requires Keyed(log) && AllOrdered(log) && Journal.HasKey(log, CommitKey(op))
    ensures Journal.HasKey(log, IntentKey(op)) && Journal.HasKey(log, ReceiptKey(op))
  {
    var i := CommitPosition(log, op);
    assert Ordered(log, i);
    var j :| 0 <= j < i && log[..i][j].key == Some(IntentKey(op));
    var k :| 0 <= k < i && log[..i][k].key == Some(ReceiptKey(op));
    assert log[j].key == Some(IntentKey(op)) && log[k].key == Some(ReceiptKey(op));
  }

  lemma AppendKeepsFinal(log: Log, row: Row, op: OperationId)
    requires Final(log, op) && row.key.Some? && Keyed(log)
    requires row.record.op == op && row.record.body.Intent? && !Journal.HasKey(log, row.key.value) ==> !Journal.HasKey(log, CommitKey(op))
    ensures Final(Journal.Appended(log, row), op)
  {
    AppendFacts(log, row);
    forall i | 0 <= i < |log| && log[i].record.body.StepCommit? && log[i].record.op == op ensures Journal.HasKey(log, CommitKey(op)) {
      assert KeyedRow(log[i]);
    }
  }

  /** An execution's own intent is journaled once, so it never lands after the commit. */
  lemma {:induction false} ActKeepsFinal(log: Log, leases: map<LeaseId, Lease>, wk: Worker, act: Act, op: OperationId)
    requires Keyed(log) && AllOrdered(log) && Final(log, op) && Ready(log, leases, wk, act)
    ensures Final(Write(log, wk.request, Written(wk, act)), op)
  {
    if Written(wk, act).Some? {
      if wk.request.operation == op && Journal.HasKey(log, CommitKey(op)) {
        CommitHasIntent(log, op);
      }
      AppendKeepsFinal(log, RowFor(wk.request, Written(wk, act).value), op);
    }
  }

  lemma {:induction false} StepKeepsNoLateIntent(s: State, a: Action)
    requires Base(s) && NoLateIntent(s.log) && Enabled(s, a) && Orderly(s, a)
    ensures NoLateIntent(Do(s, a).log)
  {
    forall op ensures Final(Do(s, a).log, op) {
      assert Final(s.log, op);
      match a
      case By(id, act) => ActKeepsFinal(s.log, s.leases, s.workers[id], act, op);
      case Note(row) => AppendKeepsFinal(s.log, row, op);
      case Revoke(l, r) => AppendKeepsFinal(s.log, RowFor(r, LeaseRevoked(l)), op);
      case _ =>
    }
  }

  /** The condition is exact: a step breaks the order precisely when it newly rebinds a committed operation. */
  lemma OrderlyIsExact(s: State, a: Action)
    requires Base(s) && NoLateIntent(s.log) && Enabled(s, a)
    ensures NoLateIntent(Do(s, a).log) <==> Orderly(s, a)
  {
    if Orderly(s, a) {
      StepKeepsNoLateIntent(s, a);
    } else {
      var i := CommitPosition(s.log, a.row.record.op);
      var log' := Do(s, a).log;
      assert log' == s.log + [a.row];
      assert log'[i] == s.log[i] && log'[|s.log|] == a.row;
      assert !Final(log', a.row.record.op);
    }
  }

  lemma PrefixNoLateIntent(log: Log, log': Log)
    requires log <= log' && NoLateIntent(log')
    ensures NoLateIntent(log)
  {
    forall op ensures Final(log, op) {
      assert Final(log', op);
      forall i, j | 0 <= i < j < |log| && log[i].record.op == log[j].record.op == op && log[i].record.body.StepCommit? ensures !log[j].record.body.Intent? {
        assert log'[i] == log[i] && log'[j] == log[j];
      }
    }
  }

  lemma JournalGrows(s: State, a: Action)
    requires Enabled(s, a)
    ensures s.log <= Do(s, a).log
  {
  }

  ghost predicate OrderlyAt(run: seq<State>, acts: seq<Action>, k: nat)
    requires k < |acts| && |run| == |acts| + 1
  {
    Orderly(run[k], acts[k])
  }

  /** In any run, no intent follows a commit of its operation exactly when no committed operation was ever rebound. */
  lemma {:induction false} CommitsAreFinal(run: seq<State>, acts: seq<Action>, i: nat)
    requires IsRun(run, acts) && i < |run|
    ensures NoLateIntent(run[i].log) <==> forall k :: 0 <= k < i ==> OrderlyAt(run, acts, k)
  {
    if 0 < i {
      CommitsAreFinal(run, acts, i - 1);
      EveryRunKeepsBase(run, acts, i - 1);
      assert StepAt(run, acts, i - 1);
      assert OrderlyAt(run, acts, i - 1) <==> Orderly(run[i - 1], acts[i - 1]);
      JournalGrows(run[i - 1], acts[i - 1]);
      if NoLateIntent(run[i].log) {
        PrefixNoLateIntent(run[i - 1].log, run[i].log);
      }
      if NoLateIntent(run[i - 1].log) {
        OrderlyIsExact(run[i - 1], acts[i - 1]);
      }
    }
  }

  /** An operation whose commit is final is not pending. */
  lemma CommittedIsNotPending(log: Log, op: OperationId)
    requires Keyed(log) && Final(log, op) && Journal.HasKey(log, CommitKey(op))
    ensures op !in Pending(log)
  {
    PendingIsExact(log, op);
    var c := CommitPosition(log, op);
    forall i | 0 <= i < |log| ensures !Unsettled(log, op, i) {
      assert log[c].record.op == op && Settles(log[c].record.body);
    }
  }

  // ---------------------------------------------------------------------------
  // Which executions a crash leaves pending
  // ---------------------------------------------------------------------------

  /** The row an action hands to the journal, if any. */
  function Offered(s: State, a: Action): Option<Row> {
    match a
    case By(id, act) =>
      if id in s.workers && Written(s.workers[id], act).Some?
      then Some(RowFor(s.workers[id].request, Written(s.workers[id], act).value))
      else None
    case Note(row) => Some(row)
    case Revoke(l, r) => Some(RowFor(r, LeaseRevoked(l)))
    case _ => None
  }

  /** The row is about the operation and its key is not taken yet. */
  predicate Lands(s: State, a: Action, op: OperationId) {
    var row := Offered(s, a);
    row.Some? && row.value.record.op == op && !Journal.HasKey(s.log, KeyOf(op, row.value.record.body))
  }

  /** The action newly records an intent of the operation. */
  predicate Declares(s: State, a: Action, op: OperationId) {
    Lands(s, a, op) && Offered(s, a).value.record.body.Intent?
  }

  /** The action newly records a commit or an abort of the operation. */
  predicate Drops(s: State, a: Action, op: OperationId) {
    Lands(s, a, op) && Settles(Offered(s, a).value.record.body)
  }

  ghost predicate Declared(log: Log, op: OperationId) {
    exists i :: 0 <= i < |log| && log[i].record.op == op && log[i].record.body.Intent?
  }

  lemma OfferedIsKeyed(s: State, a: Action)
    requires Enabled(s, a) && Offered(s, a).Some?
    ensures KeyedRow(Offered(s, a).value) && Do(s, a).log == Journal.Appended(s.log, Offered(s, a).value)
  {
  }

  /** One step: what makes an operation pending, and what stops it. */
  lemma StepPending(s: State, a: Action, op: OperationId)
    requires Base(s) && Enabled(s, a)
    ensures op in Pending(Do(s, a).log) <==> Declares(s, a, op) || (op in Pending(s.log) && !Drops(s, a, op))
    ensures Declared(Do(s, a).log, op) <==> Declares(s, a, op) || Declared(s.log, op)
  {
    if Offered(s, a).Some? {
      OfferedIsKeyed(s, a);
      RowPending(s.log, Offered(s, a).value, op);
    }
  }

  lemma RowPending(log: Log, row: Row, op: OperationId)
    requires KeyedRow(row)
    ensures var lands, log' := row.record.op == op && !Journal.HasKey(log, KeyOf(op, row.record.body)), Journal.Appended(log, row);
            && (op in Pending(log') <==> (lands && row.record.body.Intent?) || (op in Pending(log) && !(lands && Settles(row.record.body))))
            && (Declared(log', op) <==> (lands && row.record.body.Intent?) || Declared(log, op))
  {
    if !Journal.HasKey(log, row.key.value) {
      var log' := log + [row];
      assert log'[..|log|] == log && log'[|log|] == row;
      assert forall i :: 0 <= i < |log| ==> log'[i] == log[i];
    }
  }

  ghost predicate DropsAt(run: seq<State>, acts: seq<Action>, k: nat, op: OperationId) {
    k < |acts| && k < |run| && Drops(run[k], acts[k], op)
  }

  ghost predicate DeclaresAt(run: seq<State>, acts: seq<Action>, k: nat, op: OperationId) {
    k < |acts| && k < |run| && Declares(run[k], acts[k], op)
  }

  /** Some step committed or aborted the operation, and none recorded a new intent since. */
  ghost predicate Dropped(run: seq<State>, acts: seq<Action>, i: nat, op: OperationId) {
    exists k: nat :: k < i && DropsAt(run, acts, k, op) && forall j :: k < j < i ==> !DeclaresAt(run, acts, j, op)
  }

  lemma DroppedOn(run: seq<State>, acts: seq<Action>, i: nat, op: OperationId)
    ensures Dropped(run, acts, i + 1, op) <==> DropsAt(run, acts, i, op) || (Dropped(run, acts, i, op) && !DeclaresAt(run, acts, i, op))
  {
    if Dropped(run, acts, i, op) && !DeclaresAt(run, acts, i, op) {
      var k: nat :| k < i && DropsAt(run, acts, k, op) && forall j :: k < j < i ==> !DeclaresAt(run, acts, j, op);
      assert forall j :: k < j < i + 1 ==> !DeclaresAt(run, acts, j, op);
    }
  }

  lemma RunPending(run: seq<State>, acts: seq<Action>, k: nat, op: OperationId)
    requires IsRun(run, acts) && k < |acts|
    ensures op in Pending(run[k + 1].log) <==> DeclaresAt(run, acts, k, op) || (op in Pending(run[k].log) && !DropsAt(run, acts, k, op))
    ensures Declared(run[k + 1].log, op) <==> DeclaresAt(run, acts, k, op) || Declared(run[k].log, op)
    ensures !(DeclaresAt(run, acts, k, op) && DropsAt(run, acts, k, op))
  {
    EveryRunKeepsBase(run, acts, k);
    assert StepAt(run, acts, k);
    StepPending(run[k], acts[k], op);
  }

  /** In every run, an operation is pending exactly when it was declared and not dropped since. */
  lemma {:induction false} PendingIff(run: seq<State>, acts: seq<Action>, i: nat, op: OperationId)
    requires IsRun(run, acts) && i < |run|
    ensures op in Pending(run[i].log) <==> Declared(run[i].log, op) && !Dropped(run, acts, i, op)
  {
    if i > 0 {
      PendingIff(run, acts, i - 1, op);
      RunPending(run, acts, i - 1, op);
      DroppedOn(run, acts, i - 1, op);
    }
  }

  lemma EngagedIsDeclared(s: State, id: WorkerId)
    requires Base(s) && id in s.workers && s.workers[id].pc.Held? && Engaged(s.workers[id].pc.stage)
    ensures Declared(s.log, s.workers[id].request.operation)
  {
    assert WorkerBase(s.log, s.nextLease, s.workers[id]);
    KeyHolder(s.log, IntentKey(s.workers[id].request.operation));
  }

  /**
   An operation in flight at a crash, anywhere between its intent and its commit,
   is left to recovery exactly when no commit or abort of it was recorded since
   its latest new intent.
   */
  lemma InFlightIsPendingIff(run: seq<State>, acts: seq<Action>, i: nat, id: WorkerId)
    requires IsRun(run, acts) && i < |run| && id in run[i].workers
    requires run[i].workers[id].pc.Held? && Engaged(run[i].workers[id].pc.stage)
    ensures var op := run[i].workers[id].request.operation;
            op in Pending(Do(run[i], Crash).log) <==> !Dropped(run, acts, i, op)
  {
    EveryRunKeepsBase(run, acts, i);
    EngagedIsDeclared(run[i], id);
    PendingIff(run, acts, i, run[i].workers[id].request.operation);
  }

  /** Seen from the execution: its intent makes it pending exactly when it is the first, or the operation is pending already. */
  lemma IntentCountsIff(s: State, id: WorkerId)
    requires Base(s) && Enabled(s, By(id, JournalIntent(true)))
    ensures var op := s.workers[id].request.operation;
            op in Pending(Do(s, By(id, JournalIntent(true))).log) <==> !Journal.HasKey(s.log, IntentKey(op)) || op in Pending(s.log)
  {
    StepPending(s, By(id, JournalIntent(true)), s.workers[id].request.operation);
  }

  // ---------------------------------------------------------------------------
  // Open leases
  // ---------------------------------------------------------------------------

  function OpenStep(open: map<LeaseId, WorkloadId>, row: Row): map<LeaseId, WorkloadId> {
    match row.record.body
    case LeaseActive(l) => open[l := row.workload]
    case LeaseReleased(l) => open - {l}
    case LeaseRevoked(l) => open - {l}
    case _ => open
  }

  function OpenLeases(log: Log): map<LeaseId, WorkloadId> {
    if log == [] then map[] else OpenStep(OpenLeases(log[..|log| - 1]), log[|log| - 1])
  }

  function RequestStep(requests: map<WorkloadId, Request>, row: Row): map<WorkloadId, Request> {
    if row.record.body.Intent? then requests[row.record.body.request.workload := row.record.body.request] else requests
  }

  /** The latest request that declared an intent for each workload. */
  function Requests(log: Log): map<WorkloadId, Request> {
    if log == [] then map[] else RequestStep(Requests(log[..|log| - 1]), log[|log| - 1])
  }

  ghost predicate OpenFor(log: Log, workload: WorkloadId, l: LeaseId) {
    exists op :: OpenLease(log, workload, op, l)
  }

  /** The scan finds exactly the leases that are ACTIVE and neither RELEASED nor REVOKED. */
  lemma {:induction false} OpenLeasesIsExact(log: Log, l: LeaseId)
    requires Keyed(log) && ActiveFirst(log)
    ensures l in OpenLeases(log) ==> OpenFor(log, OpenLeases(log)[l], l)
    ensures forall workload :: OpenFor(log, workload, l) ==> l in OpenLeases(log) && OpenLeases(log)[l] == workload
  {
    if log != [] {
      var n := |log| - 1;
      var init := log[..n];
      var row := log[n];
      assert log == init + [row];
      assert KeyedRow(row);
      assert Keyed(init) && ActiveFirst(init);
      OpenLeasesIsExact(init, l);
      forall workload, op ensures OpenLease(log, workload, op, l) <==>
          (row == MakeRow(workload, op, LeaseActive(l))) ||
          (OpenLease(init, workload, op, l) && !Closes(row.record.body, l))
      {
        OpenLeaseOfSnoc(init, row, workload, op, l);
      }
      if l in OpenLeases(log) {
        if row.record.body == LeaseActive(l) {
          assert OpenLease(log, row.workload, row.record.op, l);
        } else {
          var op :| OpenLease(init, OpenLeases(init)[l], op, l);
          assert OpenLease(log, OpenLeases(init)[l], op, l);
        }
      }
      forall workload | OpenFor(log, workload, l)
        ensures l in OpenLeases(log) && OpenLeases(log)[l] == workload
      {
        var op :| OpenLease(log, workload, op, l);
        if OpenLease(init, workload, op, l) {
          assert OpenFor(init, workload, l);
          ActiveIsNotRepeated(init, row, workload, op, l);
        }
      }
    }
  }

  lemma ActiveIsNotRepeated(init: Log, row: Row, workload: WorkloadId, op: OperationId, l: LeaseId)
    requires ActiveFirst(init + [row]) && OpenLease(init, workload, op, l)
    ensures row.record.body != LeaseActive(l)
  {
    var i :| 0 <= i < |init| && init[i] == MakeRow(workload, op, LeaseActive(l));
    assert (init + [row])[i] == init[i] && Mentions(init[i].record.body, l);
    assert (init + [row])[|init|] == row;
  }

  lemma OpenLeaseOfSnoc(init: Log, row: Row, workload: WorkloadId, op: OperationId, l: LeaseId)
    requires KeyedRow(row) && ActiveFirst(init + [row])
    ensures OpenLease(init + [row], workload, op, l) <==>
              (row == MakeRow(workload, op, LeaseActive(l))) ||
              (OpenLease(init, workload, op, l) && !Closes(row.record.body, l))
  {
    var log := init + [row];
    var active := MakeRow(workload, op, LeaseActive(l));
    assert forall i :: 0 <= i < |init| ==> log[i] == init[i];
    assert log[|init|] == row;
    if row == active {
      forall i | 0 <= i < |log| ensures !Closes(log[i].record.body, l) {
        if i < |init| && Closes(log[i].record.body, l) {
          assert Mentions(log[i].record.body, l);
        }
      }
    } else if OpenLease(log, workload, op, l) {
      var i :| 0 <= i < |log| && log[i] == active;
      assert init[i] == active;
      forall k | 0 <= k < |init| ensures !Closes(init[k].record.body, l) {
        assert !Closes(log[k].record.body, l);
      }
    }
  }

  /** Position i holds the workload's latest intent. */
  ghost predicate LatestIntent(log: Log, workload: WorkloadId, i: nat) {
    && i < |log| && log[i].workload == workload && log[i].record.body.Intent?
    && forall j :: i < j < |log| && log[j].workload == workload ==> !log[j].record.body.Intent?
  }

  lemma LatestIntentSnoc(init: Log, row: Row, workload: WorkloadId, i: nat)
    ensures LatestIntent(init + [row], workload, i) <==>
              if row.workload == workload && row.record.body.Intent? then i == |init| else LatestIntent(init, workload, i)
  {
    var log := init + [row];
    assert log[|init|] == row;
    if i < |init| {
      assert log[i] == init[i];
      if LatestIntent(log, workload, i) {
        forall j | i < j < |init| && init[j].workload == workload ensures !init[j].record.body.Intent? {
          assert log[j] == init[j];
        }
      }
    }
  }

  /** The scan remembers, for exactly the workloads with an intent, the request of the latest one. */
  lemma {:induction false} RequestsIsExact(log: Log, workload: WorkloadId)
    requires Keyed(log)
    ensures workload in Requests(log) <==> exists i: nat :: LatestIntent(log, workload, i)
    ensures forall i: nat :: LatestIntent(log, workload, i) ==>
              workload in Requests(log) && Requests(log)[workload] == log[i].record.body.request && log[i] == RowFor(log[i].record.body.request, log[i].record.body)
  {
    if log != [] {
      var n := |log| - 1;
      var init := log[..n];
      var row := log[n];
      assert log == init + [row] && KeyedRow(row);
      RequestsIsExact(init, workload);
      forall i: nat ensures LatestIntent(log, workload, i) <==>
          if row.workload == workload && row.record.body.Intent? then i == n else LatestIntent(init, workload, i)
      {
        LatestIntentSnoc(init, row, workload, i);
      }
      if row.workload == workload && row.record.body.Intent? {
        assert LatestIntent(log, workload, n);
      } else if workload in Requests(init) {
        var i: nat :| LatestIntent(init, workload, i);
        assert LatestIntent(log, workload, i);
      }
    }
  }

  /** A remembered request was declared by a durable intent. */
  lemma RememberedIsDurable(log: Log, workload: WorkloadId)
    requires Keyed(log) && workload in Requests(log)
    ensures var r := Requests(log)[workload]; r.workload == workload && exists rebound :: RowFor(r, Intent(r, rebound)) in log
  {
    RequestsIsExact(log, workload);
    var i: nat :| LatestIntent(log, workload, i);
    var r := Requests(log)[workload];
    assert RowFor(r, Intent(r, log[i].record.body.rebound)) == log[i];
  }
}
