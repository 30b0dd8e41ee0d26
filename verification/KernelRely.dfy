/**
 What callers of the runtime may rely on and what they guarantee each other: how
 a state may change while others run, and what that leaves of the promise to an
 operation, of its commits and of an execution on its way.
 */
module KernelRely {
  import opened Prelude
  import Journal
  import opened KernelSystem
  import opened KernelBase
  import opened KernelScript
  import opened KernelExactlyOnce
  import opened KernelRecovery

  ghost predicate Idle(s: State, mine: set<OperationId>) {
    forall id :: id in s.workers && s.workers[id].request.operation in mine ==> s.workers[id].pc.Done?
  }

  /** Callers of `mine` are where they were, and nothing new was called or returned for them. */
  ghost predicate Apart(s: State, t: State, p: OperationId) {
    && s.log <= t.log && s.calls <= t.calls && s.returned <= t.returned
    && (forall i :: |s.calls| <= i < |t.calls| ==> t.calls[i].request.operation != p)
    && (forall i :: |s.returned| <= i < |t.returned| ==> t.returned[i].request.operation != p)
    && (forall id :: id in t.workers && t.workers[id].request.operation == p ==> id in s.workers && t.workers[id] == s.workers[id])
  }

  /** No row of the operation was added. */
  ghost predicate Silent(log: Log, log': Log, p: OperationId) {
    log <= log' && forall i :: |log| <= i < |log'| ==> log'[i].record.op != p
  }

  /** What other callers may do: anything, except on the operations in `mine`. */
  ghost predicate Rely(s: State, t: State, mine: set<OperationId>) {
    && s.log <= t.log && s.calls <= t.calls && s.returned <= t.returned
    && (forall p {:trigger Apart(s, t, p)} :: p in mine ==> Apart(s, t, p))
    && (forall p {:trigger Silent(s.log, t.log, p)} :: p in mine ==> Silent(s.log, t.log, p))
    && (forall id :: id in s.workers && s.workers[id].request.operation in mine ==> id in t.workers && t.workers[id] == s.workers[id])
  }

  /** Recording notes: rows of `mine` may be added, but no receipt and no commit. */
  ghost predicate Quiet(s: State, t: State, mine: set<OperationId>) {
    && s.log <= t.log && s.calls <= t.calls && s.returned <= t.returned
    && (forall p {:trigger Apart(s, t, p)} :: p in mine ==> Apart(s, t, p))
    && (forall i :: |s.log| <= i < |t.log| && t.log[i].record.op in mine ==> !IsEffect(t.log[i].record.body))
  }

  /** What a caller working on `request` adds, others' additions aside. */
  ghost predicate Adds(s: State, t: State, request: Request, mine: set<OperationId>, alone: bool) {
    && s.log <= t.log && s.calls <= t.calls
    && (forall i :: |s.log| <= i < |t.log| && (alone || t.log[i].record.op in mine) ==> t.log[i].record.op == request.operation)
    && (forall i :: |s.calls| <= i < |t.calls| && (alone || t.calls[i].request.operation in mine) ==> t.calls[i].request == request)
    && (alone ==> forall id :: id in t.workers && t.workers[id].request.operation != request.operation ==>
          id in s.workers && t.workers[id] == s.workers[id])
  }

  /** Every worker of `mine` other than `me` is where it was. */
  ghost predicate Unmoved(s: State, t: State, mine: set<OperationId>, me: WorkerId) {
    forall id :: id in t.workers && t.workers[id].request.operation in mine && id != me ==>
      id in s.workers && t.workers[id] == s.workers[id]
  }

  /** Every worker of `mine` other than `me` is done. */
  ghost predicate Sole(s: State, mine: set<OperationId>, me: WorkerId) {
    forall id :: id in s.workers && s.workers[id].request.operation in mine && id != me ==> s.workers[id].pc.Done?
  }

  lemma RelyTransitive(s: State, t: State, u: State, mine: set<OperationId>)
    requires Rely(s, t, mine) && Rely(t, u, mine)
    ensures Rely(s, u, mine)
  {
    forall p | p in mine ensures Apart(s, u, p) && Silent(s.log, u.log, p) {
      assert Apart(s, t, p) && Apart(t, u, p) && Silent(s.log, t.log, p) && Silent(t.log, u.log, p);
    }
  }

  lemma QuietTransitive(s: State, t: State, u: State, mine: set<OperationId>)
    requires Quiet(s, t, mine) && Quiet(t, u, mine)
    ensures Quiet(s, u, mine)
  {
    forall p | p in mine ensures Apart(s, u, p) {
      assert Apart(s, t, p) && Apart(t, u, p);
    }
  }

  /** Rows of other operations do not commit this one. */
  lemma StaysUncommitted(log: Log, log': Log, op: OperationId)
    requires log <= log' && Keyed(log') && !Journal.HasKey(log, CommitKey(op))
    requires forall i :: |log| <= i < |log'| && log'[i].record.op == op ==> !log'[i].record.body.StepCommit?
    ensures !Journal.HasKey(log', CommitKey(op))
  {
    forall i | 0 <= i < |log'| ensures log'[i].key != Some(CommitKey(op)) {
      assert KeyedRow(log'[i]);
      if i < |log| {
        assert log[i] == log'[i];
      }
    }
  }

  lemma KeyStays(log: Log, log': Log, k: Key)
    requires log <= log' && Journal.HasKey(log, k)
    ensures Journal.HasKey(log', k)
  {
    var i :| 0 <= i < |log| && log[i].key == Some(k);
    assert log'[i] == log[i];
  }

  /** Actions that touch none of the operations in `mine`. */
  predicate Foreign(s: State, a: Action, mine: set<OperationId>) {
    match a
    case Spawn(_, r) => r.operation !in mine
    case By(id, _) => id in s.workers && s.workers[id].request.operation !in mine
    case Note(row) => row.record.op !in mine
    case Expire(_) => true
    case Revoke(_, _) => false
    case Crash => false
  }

  lemma ForeignActionsKeepRely(s: State, a: Action, mine: set<OperationId>)
    requires Enabled(s, a) && Foreign(s, a, mine)
    ensures Rely(s, Do(s, a), mine)
  {
    if a.Note? {
      AppendFacts(s.log, a.row);
    } else if a.By? && Written(s.workers[a.id], a.act).Some? {
      AppendFacts(s.log, RowFor(s.workers[a.id].request, Written(s.workers[a.id], a.act).value));
    }
  }

  lemma OthersSpare(s: State, a: Action, me: WorkerId)
    requires Enabled(s, a) && me in s.workers && !a.Crash? && (a.By? ==> a.id != me)
    ensures me in Do(s, a).workers && Do(s, a).workers[me] == s.workers[me]
  {
  }

  // ---------------------------------------------------------------------------
  // The steps an object has seen
  // ---------------------------------------------------------------------------

  /** A stretch of a run, from a state that some run reaches. */
  ghost predicate Trace(run: seq<State>, acts: seq<Action>) {
    && |run| == |acts| + 1 && Base(run[0])
    && forall k :: 0 <= k < |acts| ==> StepAt(run, acts, k)
  }

  /** The state of an object that has seen the trace. */
  ghost predicate Sane(s: State, next: WorkerId, run: seq<State>, acts: seq<Action>) {
    && Base(s) && (forall id :: id in s.workers ==> id < next) && (forall l :: l in s.leases ==> l < s.nextLease)
    && Trace(run, acts) && run[|acts|] == s
  }

  lemma TraceSnoc(run: seq<State>, acts: seq<Action>, a: Action)
    requires Trace(run, acts) && Enabled(run[|acts|], a)
    ensures Trace(run + [Do(run[|acts|], a)], acts + [a])
  {
    var run', acts' := run + [Do(run[|acts|], a)], acts + [a];
    forall k | 0 <= k < |acts'| ensures StepAt(run', acts', k) {
      if k < |acts| {
        assert StepAt(run, acts, k);
      }
    }
  }

  lemma SaneOn(s: State, next: WorkerId, run: seq<State>, acts: seq<Action>, a: Action)
    requires Sane(s, next, run, acts) && Enabled(s, a) && (a.Spawn? ==> a.id == next)
    ensures Sane(Do(s, a), if a.Spawn? then next + 1 else next, run + [Do(s, a)], acts + [a])
  {
    StepKeepsBase(s, a);
    TraceSnoc(run, acts, a);
  }

  /** Finished executions stay as they are. */
  ghost predicate Lasting(s: State, t: State) {
    && (forall id :: id in s.workers ==> id in t.workers)
    && (forall id :: id in s.workers && s.workers[id].pc.Done? ==> t.workers[id] == s.workers[id])
  }

  /** From state s, with its trace, to state t: the journal and the trace only grow. */
  ghost predicate Onward(s: State, t: State, run: seq<State>, run': seq<State>, acts: seq<Action>, acts': seq<Action>) {
    s.log <= t.log && run <= run' && acts <= acts' && Lasting(s, t)
  }

  lemma StepIsLasting(s: State, a: Action)
    requires Enabled(s, a) && !a.Crash?
    ensures s.log <= Do(s, a).log && Lasting(s, Do(s, a))
  {
    JournalGrows(s, a);
  }

  lemma HistoryOn(acts: seq<Action>, a: Action, id: WorkerId)
    ensures History(acts + [a], |acts| + 1, id) ==
              if a.Spawn? && a.id == id then [] else History(acts, |acts|, id) + if a.By? && a.id == id then [a.act] else []
  {
    HistoryOfPrefix(acts, acts + [a], |acts|, id);
  }

  lemma {:induction false} TraceIsBase(run: seq<State>, acts: seq<Action>, i: nat)
    requires Trace(run, acts) && i < |run|
    ensures Base(run[i])
  {
    if i > 0 {
      TraceIsBase(run, acts, i - 1);
      assert StepAt(run, acts, i - 1);
      StepKeepsBase(run[i - 1], acts[i - 1]);
    }
  }

  /**
   What was promised of the operation held after i steps, and in every step since it
   kept to one workload and had one caller at a time between lookup and receipt.
   */
  ghost predicate Promised(run: seq<State>, acts: seq<Action>, i: nat, op: OperationId, x: WorkloadId) {
    && |run| == |acts| + 1 && i <= |acts| && Strong(run[i], op, x)
    && forall k :: i <= k < |acts| ==> Undisturbed(run, acts, op, x, k)
  }

  lemma {:induction false} PromiseHolds(run: seq<State>, acts: seq<Action>, i: nat, j: nat, op: OperationId, x: WorkloadId)
    requires Trace(run, acts) && Promised(run, acts, i, op, x) && i <= j <= |acts|
    ensures Strong(run[j], op, x) && Promised(run, acts, j, op, x)
  {
    if i < j {
      PromiseHolds(run, acts, i, j - 1, op, x);
      TraceIsBase(run, acts, j - 1);
      assert StepAt(run, acts, j - 1) && Undisturbed(run, acts, op, x, j - 1);
      StepKeepsStrong(run[j - 1], op, x, acts[j - 1]);
    }
  }

  lemma PromisedBefore(run: seq<State>, acts: seq<Action>, run': seq<State>, acts': seq<Action>, i: nat, op: OperationId, x: WorkloadId)
    requires run <= run' && acts <= acts' && |run| == |acts| + 1 && i <= |acts| && Promised(run', acts', i, op, x)
    ensures Promised(run, acts, i, op, x)
  {
    forall k | i <= k < |acts| ensures Undisturbed(run, acts, op, x, k) {
      assert Undisturbed(run', acts', op, x, k);
    }
  }

  // ---------------------------------------------------------------------------
  // The promise to an operation survives what others do
  // ---------------------------------------------------------------------------

  /** No effect of the operation was added. */
  ghost predicate Effectless(log: Log, log': Log, p: OperationId) {
    log <= log' && forall i :: |log| <= i < |log'| && log'[i].record.op == p ==> !IsEffect(log'[i].record.body)
  }

  lemma NoNewReceipt(log: Log, log': Log, p: OperationId)
    requires Effectless(log, log', p) && Keyed(log') && !Journal.HasKey(log, ReceiptKey(p))
    ensures !Journal.HasKey(log', ReceiptKey(p))
  {
    forall i | 0 <= i < |log'| ensures log'[i].key != Some(ReceiptKey(p)) {
      assert KeyedRow(log'[i]);
      if i < |log| {
        assert log[i] == log'[i];
      }
    }
  }

  lemma LongerLogKeepsWorker(log: Log, log': Log, p: OperationId, y: WorkloadId, wk: Worker)
    requires Effectless(log, log', p) && Keyed(log') && wk.request.operation == p && WorkerStrong(log, y, wk)
    ensures WorkerStrong(log', y, wk)
  {
    assert forall e :: e in log ==> e in log';
    if InWindow(wk, p) {
      NoNewReceipt(log, log', p);
    }
  }

  lemma ApartKeepsKept(s: State, t: State, p: OperationId, y: WorkloadId)
    requires Apart(s, t, p) && Effectless(s.log, t.log, p) && Kept(s, p, y) && RoutedRows(s.log, p, y)
    ensures Kept(t, p, y) && RoutedRows(t.log, p, y)
  {
    forall i | 0 <= i < |t.log| ensures Matched(t.log, p, y, i) && (t.log[i].record.op == p && IsEffect(t.log[i].record.body) ==> t.log[i].workload == y) {
      if i < |s.log| {
        assert Matched(s.log, p, y, i) && t.log[i] == s.log[i] && t.log[..i] == s.log[..i];
      }
    }
    forall i | 0 <= i < |t.calls| && t.calls[i].request.operation == p ensures CalledBeforeReceipt(t.log, t.calls[i]) {
      assert t.calls[i] == s.calls[i] && CalledBeforeReceipt(s.log, s.calls[i]);
      assert t.log[..t.calls[i].at] == s.log[..t.calls[i].at];
    }
    forall i | 0 <= i < |t.returned| && t.returned[i].request.operation == p ensures CommittedWith(t.log, y, p, t.returned[i].receipt) {
      assert t.returned[i] == s.returned[i] && CommittedWith(s.log, y, p, s.returned[i].receipt);
      assert forall e :: e in s.log ==> e in t.log;
    }
  }

  lemma ApartKeepsStrong(s: State, t: State, p: OperationId, y: WorkloadId)
    requires Apart(s, t, p) && Effectless(s.log, t.log, p) && Keyed(t.log) && Strong(s, p, y)
    ensures Strong(t, p, y)
  {
    ApartKeepsKept(s, t, p, y);
    forall id | id in t.workers && t.workers[id].request.operation == p ensures WorkerStrong(t.log, y, t.workers[id]) {
      assert WorkerStrong(s.log, y, s.workers[id]);
      LongerLogKeepsWorker(s.log, t.log, p, y, s.workers[id]);
    }
  }

  lemma SilentKeepsFinal(log: Log, log': Log, p: OperationId)
    requires Silent(log, log', p) && Final(log, p)
    ensures Final(log', p)
  {
    forall i, j | 0 <= i < j < |log'| && log'[i].record.op == log'[j].record.op == p && log'[i].record.body.StepCommit? ensures !log'[j].record.body.Intent? {
      assert log'[i] == log[i] && log'[j] == log[j];
    }
  }

  /** The promise to every operation of `mine` is kept; to `op`, if made for workload x. */
  ghost predicate KeepsStrong(s: State, t: State, mine: set<OperationId>, alone: bool, op: OperationId, x: WorkloadId) {
    forall p, y {:trigger Strong(t, p, y)} :: (alone || p in mine) && (p == op ==> y == x) && Strong(s, p, y) ==> Strong(t, p, y)
  }

  /** Commits that were final stay final. */
  ghost predicate KeepsFinal(log: Log, log': Log, mine: set<OperationId>, alone: bool) {
    forall p {:trigger Final(log', p)} :: (alone || p in mine) && Final(log, p) ==> Final(log', p)
  }

  /** One execution's contribution: its own rows and calls, and no promise broken. */
  ghost predicate Progress(s: State, t: State, request: Request, mine: set<OperationId>, alone: bool) {
    && Adds(s, t, request, mine, alone)
    && KeepsStrong(s, t, mine, alone, request.operation, request.workload)
    && KeepsFinal(s.log, t.log, mine, alone)
  }

  lemma ProgressTransitive(s: State, t: State, u: State, request: Request, mine: set<OperationId>, alone: bool)
    requires Progress(s, t, request, mine, alone) && Progress(t, u, request, mine, alone)
    ensures Progress(s, u, request, mine, alone)
  {
    forall p, y | (alone || p in mine) && (p == request.operation ==> y == request.workload) && Strong(s, p, y) ensures Strong(u, p, y) {
      assert Strong(t, p, y);
    }
    forall p | (alone || p in mine) && Final(s.log, p) ensures Final(u.log, p) {
      assert Final(t.log, p);
    }
  }

  lemma SpawnIsProgress(s: State, me: WorkerId, request: Request, mine: set<OperationId>, alone: bool)
    requires Base(s) && me !in s.workers
    ensures Progress(s, Do(s, Spawn(me, request)), request, mine, alone)
  {
    var t := Do(s, Spawn(me, request));
    forall p, y | (p == request.operation ==> y == request.workload) && Strong(s, p, y) ensures Strong(t, p, y) {
      StepKeepsStrong(s, p, y, Spawn(me, request));
    }
  }

  /** One step of `me`, then others: the promises to `mine` are kept. */
  lemma {:induction false} StepThenOthersKeep(s: State, me: WorkerId, act: Act, t: State, mine: set<OperationId>, alone: bool)
    requires Base(s) && Enabled(s, By(me, act)) && Sole(s, mine, me) && s.workers[me].request.operation in mine
    requires Rely(DoBy(s, me, act), t, mine) && (alone ==> t == DoBy(s, me, act)) && Keyed(t.log)
    ensures var r := s.workers[me].request;
            KeepsStrong(s, t, mine, alone, r.operation, r.workload) && KeepsFinal(s.log, t.log, mine, alone)
  {
    var mid, r := DoBy(s, me, act), s.workers[me].request;
    forall p, y | (alone || p in mine) && (p == r.operation ==> y == r.workload) && Strong(s, p, y) ensures Strong(t, p, y) {
      StepKeepsStrong(s, p, y, By(me, act));
      if p in mine {
        assert Apart(mid, t, p) && Silent(mid.log, t.log, p);
        ApartKeepsStrong(mid, t, p, y);
      }
    }
    forall p | (alone || p in mine) && Final(s.log, p) ensures Final(t.log, p) {
      ActKeepsFinal(s.log, s.leases, s.workers[me], act, p);
      if p in mine {
        assert Silent(mid.log, t.log, p);
        SilentKeepsFinal(mid.log, t.log, p);
      }
    }
  }

  /** A step of worker `me` followed by any steps of others. */
  lemma {:induction false} StepThenOthers(s: State, me: WorkerId, act: Act, t: State, mine: set<OperationId>, alone: bool)
    requires Enabled(s, By(me, act)) && s.workers[me].request.operation in mine
    requires Rely(DoBy(s, me, act), t, mine) && (alone ==> t == DoBy(s, me, act))
    ensures me in t.workers && t.workers[me] == s.workers[me].(pc := NextPc(s.log, s.leases, s.nextLease, s.workers[me], act))
    ensures Adds(s, t, s.workers[me].request, mine, alone) && Unmoved(s, t, mine, me)
  {
    var wk, mid := s.workers[me], DoBy(s, me, act);
    assert mid.workers[me].request.operation in mine;
    if Written(wk, act).Some? {
      AppendFacts(s.log, RowFor(wk.request, Written(wk, act).value));
    }
    forall i | |s.log| <= i < |t.log| && (alone || t.log[i].record.op in mine) ensures t.log[i].record.op == wk.request.operation {
      assert t.log[i].record.op in mine ==> Silent(mid.log, t.log, t.log[i].record.op);
      assert i < |mid.log| ==> t.log[i] == mid.log[i];
    }
    forall i | |s.calls| <= i < |t.calls| && (alone || t.calls[i].request.operation in mine) ensures t.calls[i].request == wk.request {
      assert t.calls[i].request.operation in mine ==> Apart(mid, t, t.calls[i].request.operation);
      assert i < |mid.calls| ==> t.calls[i] == mid.calls[i];
    }
    forall id | id in t.workers && t.workers[id].request.operation in mine ensures id in mid.workers && t.workers[id] == mid.workers[id] {
      assert Apart(mid, t, t.workers[id].request.operation);
    }
  }

  // ---------------------------------------------------------------------------
  // What a worker's place says about its operation
  // ---------------------------------------------------------------------------

  /** A worker that may yet report a retryable failure has not committed its operation. */
  ghost predicate Undecided(log: Log, wk: Worker) {
    var uncommitted := !Journal.HasKey(log, CommitKey(wk.request.operation));
    match wk.pc
    case Begin => true
    case Admitted => uncommitted
    case Scheduled => uncommitted
    case Held(_, stage) =>
      (match stage
       case Closing(_, outcome, _) => outcome.Err? && Retryable(outcome.error) ==> uncommitted
       case Durable(_) => true
       case _ => uncommitted)
    case Released(_, outcome, _) => outcome.Err? && Retryable(outcome.error) ==> uncommitted
    case Done(result) => result.Err? && Retryable(result.error) ==> uncommitted
  }

  lemma OnlyCommitCommits(log: Log, wk: Worker, act: Act)
    requires !act.JournalCommit? && !Journal.HasKey(log, CommitKey(wk.request.operation))
    ensures !Journal.HasKey(Write(log, wk.request, Written(wk, act)), CommitKey(wk.request.operation))
  {
    if Written(wk, act).Some? {
      AppendFacts(log, RowFor(wk.request, Written(wk, act).value));
    }
  }

  lemma {:induction false} StepKeepsUndecided(log: Log, leases: map<LeaseId, Lease>, next: LeaseId, wk: Worker, act: Act)
    requires Keyed(log) && RoutedRows(log, wk.request.operation, wk.request.workload)
    requires Ready(log, leases, wk, act) && Undecided(log, wk)
    ensures Undecided(Write(log, wk.request, Written(wk, act)), wk.(pc := NextPc(log, leases, next, wk, act)))
  {
    LookupsAreComplete(log, wk.request.operation, wk.request.workload);
    if !act.JournalCommit? && !Journal.HasKey(log, CommitKey(wk.request.operation)) {
      OnlyCommitCommits(log, wk, act);
    }
  }

  predicate Failing(pc: Pc) {
    match pc
    case Held(_, Closing(_, Err(_), _)) => true
    case Released(_, Err(_), _) => true
    case Done(Err(_)) => true
    case _ => false
  }

  predicate Succeeding(pc: Pc) {
    match pc
    case Held(_, Closing(_, Ok(_), _)) => true
    case Released(_, Ok(_), _) => true
    case Done(Ok(_)) => true
    case _ => false
  }

  ghost predicate SamePending(log: Log, log': Log, op: OperationId) {
    (op in Pending(log') <==> op in Pending(log)) && (op in Pending(log) ==> op in Pending(log') && Pending(log')[op] == Pending(log)[op])
  }

  /** A commit made since `start` settles the operation; one made before leaves its pending status as it was. */
  ghost predicate Settling(start: Log, log: Log, op: OperationId) {
    if Journal.HasKey(start, CommitKey(op)) then SamePending(start, log, op)
    else Journal.HasKey(log, CommitKey(op)) ==> op !in Pending(log)
  }

  /** A worker that started at `start` and has not failed. */
  ghost predicate Tracks(start: Log, log: Log, wk: Worker) {
    var op := wk.request.operation;
    && start <= log
    && (Succeeding(wk.pc) ==> Journal.HasKey(log, CommitKey(op)))
    && (Succeeding(wk.pc) && wk.pc.Held? ==> wk.pc.stage.step == 0 || wk.pc.stage.step >= 3)
    && (!Failing(wk.pc) ==> Settling(start, log, op))
  }

  lemma FoundCommitHasKey(log: Log, request: Request)
    requires Keyed(log) && Committed(log, request).Some?
    ensures Journal.HasKey(log, CommitKey(request.operation))
  {
    var r := Committed(log, request).value;
    var i :| 0 <= i < |log| && log[i].workload == request.workload && log[i].record == Record(request.operation, StepCommit(r));
    assert KeyedRow(log[i]);
  }

  /** A worker reports success only for a committed operation. */
  ghost predicate Honest(log: Log, wk: Worker) {
    Succeeding(wk.pc) ==> Journal.HasKey(log, CommitKey(wk.request.operation))
  }

  lemma ActKeepsHonest(log: Log, leases: map<LeaseId, Lease>, next: LeaseId, wk: Worker, act: Act)
    requires Keyed(log) && Ready(log, leases, wk, act) && Honest(log, wk)
    ensures Honest(Write(log, wk.request, Written(wk, act)), wk.(pc := NextPc(log, leases, next, wk, act)))
  {
    if Written(wk, act).Some? {
      AppendFacts(log, RowFor(wk.request, Written(wk, act).value));
    } else if Committed(log, wk.request).Some? {
      FoundCommitHasKey(log, wk.request);
    }
  }

  lemma LongerKeepsHonest(log: Log, log': Log, wk: Worker)
    requires log <= log' && Honest(log, wk)
    ensures Honest(log', wk)
  {
    if Succeeding(wk.pc) {
      KeyStays(log, log', CommitKey(wk.request.operation));
    }
  }

  lemma AppendKeepsPending(log: Log, row: Row, op: OperationId)
    requires row.key.Some? && (Journal.HasKey(log, row.key.value) || !(row.record.body.Intent? || Settles(row.record.body)))
    ensures SamePending(log, Journal.Appended(log, row), op)
  {
    if !Journal.HasKey(log, row.key.value) {
      assert (log + [row])[..|log|] == log;
    }
  }

  /** A row of an unfailed execution keeps the record straight. */
  lemma {:induction false} RowKeepsSettling(start: Log, log: Log, row: Row, op: OperationId)
    requires Keyed(log) && AllOrdered(log) && KeyedRow(row) && row.record.op == op && start <= log && Settling(start, log, op)
    requires !row.record.body.OperationAbort? && (row.record.body.Intent? ==> !row.record.body.rebound)
    ensures Settling(start, Journal.Appended(log, row), op)
  {
    if Journal.HasKey(start, CommitKey(op)) {
      KeyStays(start, log, CommitKey(op));
    }
    if Journal.HasKey(log, CommitKey(op)) {
      CommitHasIntent(log, op);
      AppendKeepsPending(log, row, op);
    } else {
      AppendFacts(log, row);
      RowPending(log, row, op);
    }
  }

  /** What an unfailed worker writes keeps the record straight. */
  lemma {:induction false} WriteKeepsSettling(start: Log, log: Log, leases: map<LeaseId, Lease>, wk: Worker, act: Act)
    requires Keyed(log) && AllOrdered(log) && Ready(log, leases, wk, act) && Written(wk, act).Some?
    requires start <= log && Settling(start, log, wk.request.operation)
    requires !Written(wk, act).value.OperationAbort?
    ensures Settling(start, Write(log, wk.request, Written(wk, act)), wk.request.operation)
  {
    RowKeepsSettling(start, log, RowFor(wk.request, Written(wk, act).value), wk.request.operation);
  }

  lemma {:induction false} ActKeepsTracks(start: Log, log: Log, leases: map<LeaseId, Lease>, next: LeaseId, wk: Worker, act: Act)
    requires Keyed(log) && AllOrdered(log) && Ready(log, leases, wk, act) && Tracks(start, log, wk)
    ensures Tracks(start, Write(log, wk.request, Written(wk, act)), wk.(pc := NextPc(log, leases, next, wk, act)))
  {
    if Written(wk, act).Some? {
      AppendFacts(log, RowFor(wk.request, Written(wk, act).value));
      if !Failing(wk.pc) {
        WriteKeepsSettling(start, log, leases, wk, act);
      }
    } else if Committed(log, wk.request).Some? {
      FoundCommitHasKey(log, wk.request);
    }
  }

  lemma SilentKeepsTracks(start: Log, log: Log, log': Log, wk: Worker)
    requires Tracks(start, log, wk) && Silent(log, log', wk.request.operation) && Keyed(log')
    ensures Tracks(start, log', wk)
  {
    var op := wk.request.operation;
    PendingOthers(log, log', op);
    if Journal.HasKey(log, CommitKey(op)) {
      KeyStays(log, log', CommitKey(op));
    } else {
      StaysUncommitted(log, log', op);
    }
  }

  // ---------------------------------------------------------------------------
  // An execution on its way
  // ---------------------------------------------------------------------------

  /** Worker `me` has come from its start in `s` to `t`; `sole` says that it is the only one on its operation. */
  ghost predicate Going(s: State, t: State, request: Request, me: WorkerId, mine: set<OperationId>, alone: bool, sole: bool) {
    && me in t.workers && t.workers[me].request == request && Honest(t.log, t.workers[me])
    && (sole ==>
          && request.operation in mine && Sole(t, mine, me)
          && Progress(s, t, request, mine, alone) && Tracks(s.log, t.log, t.workers[me]))
    && (sole && Strong(s, request.operation, request.workload) ==>
          Strong(t, request.operation, request.workload) && Undecided(t.log, t.workers[me]))
  }

  lemma SpawnIsGoing(s: State, me: WorkerId, request: Request, mine: set<OperationId>, alone: bool, sole: bool)
    requires Base(s) && me !in s.workers && (sole ==> request.operation in mine && Idle(s, mine))
    ensures Going(s, Do(s, Spawn(me, request)), request, me, mine, alone, sole)
  {
    SpawnIsProgress(s, me, request, mine, alone);
  }

  lemma UndecidedOn(t: State, me: WorkerId, act: Act, u: State)
    requires Base(t) && Keyed(u.log) && Enabled(t, By(me, act)) && Undecided(t.log, t.workers[me])
    requires var r := t.workers[me].request; RoutedRows(t.log, r.operation, r.workload) && Silent(DoBy(t, me, act).log, u.log, r.operation)
    requires me in u.workers && u.workers[me] == DoBy(t, me, act).workers[me]
    ensures Undecided(u.log, u.workers[me])
  {
    var r, mid := t.workers[me].request, DoBy(t, me, act).log;
    StepKeepsUndecided(t.log, t.leases, t.nextLease, t.workers[me], act);
    if !Journal.HasKey(mid, CommitKey(r.operation)) {
      StaysUncommitted(mid, u.log, r.operation);
    }
  }

  lemma TracksOn(start: Log, t: State, me: WorkerId, act: Act, u: State)
    requires Base(t) && Keyed(u.log) && Enabled(t, By(me, act)) && Tracks(start, t.log, t.workers[me])
    requires Silent(DoBy(t, me, act).log, u.log, t.workers[me].request.operation)
    requires me in u.workers && u.workers[me] == DoBy(t, me, act).workers[me]
    ensures Tracks(start, u.log, u.workers[me])
  {
    ActKeepsTracks(start, t.log, t.leases, t.nextLease, t.workers[me], act);
    SilentKeepsTracks(start, DoBy(t, me, act).log, u.log, u.workers[me]);
  }

  /** One step of `me`, then others: it is still on its way. */
  lemma {:induction false} GoingOn(s: State, t: State, me: WorkerId, act: Act, u: State, request: Request, mine: set<OperationId>, alone: bool, sole: bool)
    requires Going(s, t, request, me, mine, alone, sole) && Base(t) && Keyed(u.log) && Enabled(t, By(me, act))
    requires Rely(DoBy(t, me, act), u, mine) && (alone ==> u == DoBy(t, me, act))
    requires me in u.workers && u.workers[me] == DoBy(t, me, act).workers[me]
    ensures Going(s, u, request, me, mine, alone, sole)
  {
    ActKeepsHonest(t.log, t.leases, t.nextLease, t.workers[me], act);
    LongerKeepsHonest(DoBy(t, me, act).log, u.log, u.workers[me]);
    if sole {
      assert Silent(DoBy(t, me, act).log, u.log, request.operation);
      StepThenOthers(t, me, act, u, mine, alone);
      StepThenOthersKeep(t, me, act, u, mine, alone);
      ProgressTransitive(s, t, u, request, mine, alone);
      TracksOn(s.log, t, me, act, u);
      if Strong(s, request.operation, request.workload) {
        UndecidedOn(t, me, act, u);
      }
    }
  }

  /** What its place says of a finished execution that was the only one on its operation. */
  lemma EndOfExecution(s: State, t: State, request: Request, me: WorkerId, mine: set<OperationId>, alone: bool, sole: bool)
    requires Going(s, t, request, me, mine, alone, sole) && t.workers[me].pc.Done?
    ensures var result := t.workers[me].pc.result;
            && (result.Ok? ==> Journal.HasKey(t.log, CommitKey(request.operation)))
            && (sole ==> Idle(t, mine) && Progress(s, t, request, mine, alone) && (result.Ok? ==> Settling(s.log, t.log, request.operation)))
            && (sole && Strong(s, request.operation, request.workload) ==>
                  && (result.Ok? ==> CommittedWith(t.log, request.workload, request.operation, result.value))
                  && (result.Err? && Retryable(result.error) ==> !Journal.HasKey(t.log, CommitKey(request.operation))))
  {
    if sole && Strong(s, request.operation, request.workload) {
      assert WorkerStrong(t.log, request.workload, t.workers[me]);
    }
  }

  /** What the lookups of an execution would find in a state. */
  function FindingsAt(s: State, request: Request): Findings {
    Findings(Committed(s.log, request), Leased(s.leases, request.workload), Committed(s.log, request),
             ReceivedReceipt(s.log, request.workload, request.operation))
  }

  /** Rows other than receipts and commits leave the lookups alone. */
  lemma LookupsStay(log: Log, row: Row, request: Request)
    requires !row.record.body.StepCommit? && !row.record.body.Received?
    ensures Committed(Journal.Appended(log, row), request) == Committed(log, request)
    ensures ReceivedReceipt(Journal.Appended(log, row), request.workload, request.operation) == ReceivedReceipt(log, request.workload, request.operation)
  {
    assert (log + [row])[..|log|] == log;
  }

  lemma CommittedStays(log: Log, log': Log)
    requires log <= log'
    ensures forall x, op, r :: CommittedWith(log, x, op, r) ==> CommittedWith(log', x, op, r)
    ensures forall k :: Journal.HasKey(log, k) ==> Journal.HasKey(log', k)
  {
    assert forall e :: e in log ==> e in log';
    forall k | Journal.HasKey(log, k) ensures Journal.HasKey(log', k) {
      KeyStays(log, log', k);
    }
  }

  /** Offering the rows one after the other; `alone`, the journal holds just what was offered. */
  ghost predicate Journaled(log: Log, log': Log, request: Request, rows: seq<Body>, alone: bool) {
    AllStored(log', request.operation, rows) && (alone ==> log' == Offer(log, request, rows))
  }

  lemma WrittenIsJournaled(log: Log, mid: Log, log': Log, request: Request, wk: Worker, act: Act, alone: bool)
    requires mid == Write(log, request, Written(wk, act)) && mid <= log' && (alone ==> log' == mid)
    ensures Journaled(log, log', request, Appends(wk, act), alone)
  {
    if Written(wk, act).Some? {
      var body := Written(wk, act).value;
      AppendFacts(log, RowFor(request, body));
      Journal.HasKeyAppend(log, RowFor(request, body), KeyOf(request.operation, body));
      KeyStays(mid, log', KeyOf(request.operation, body));
      assert Offer(log, request, [body][..0]) == log;
    }
  }

  lemma JournaledOn(log: Log, log': Log, log'': Log, request: Request, rows: seq<Body>, more: seq<Body>, alone: bool)
    requires Journaled(log, log', request, rows, alone) && Journaled(log', log'', request, more, alone) && log' <= log''
    ensures Journaled(log, log'', request, rows + more, alone)
  {
    CommittedStays(log', log'');
    if alone {
      OfferMore(log, request, rows, more);
    }
  }

  /** How many steps a worker can still take. */
  function Rank(pc: Pc): nat {
    match pc
    case Begin => 24
    case Admitted => 23
    case Scheduled => 22
    case Held(_, stage) =>
      (match stage
       case Granted => 21
       case Active => 20
       case Authorized => 19
       case Intending => 18
       case Intended => 17
       case Unreceived => 16
       case Calling => 15
       case Answered(_) => 14
       case Durable(_) => 13
       case Closing(n, _, _) => 3 + (if n < 4 then 4 - n else 0))
    case Released(_, _, _) => 1
    case Done(_) => 0
  }

  lemma RankDecreases(log: Log, leases: map<LeaseId, Lease>, next: LeaseId, wk: Worker, act: Act)
    requires Ready(log, leases, wk, act)
    ensures Rank(NextPc(log, leases, next, wk, act)) < Rank(wk.pc)
  {
  }

  /** What a lone execution has changed besides the journal, where it stands: its lease and the provider call. */
  ghost predicate LoneAt(s: State, t: State, me: WorkerId, f: Findings, l: LeaseId, done: seq<Act>)
    requires me in t.workers
  {
    var request, pc := t.workers[me].request, t.workers[me].pc;
    && t.leases == (if pc.Held? then s.leases[l := Lease(request.workload, false)] else s.leases)
    && (pc.Begin? || pc.Admitted? || pc.Scheduled? ==> t.nextLease == s.nextLease) && (pc.Held? ==> l == s.nextLease)
    && |t.calls| == |s.calls| + (if CallProvider in done then 1 else 0)
    && f == FindingsAt(s, request)
    && (StillLooking(pc) ==> Committed(t.log, request) == f.first && ReceivedReceipt(t.log, request.workload, request.operation) == f.received)
  }

  /** Lookups are still to come. */
  predicate StillLooking(pc: Pc) {
    pc.Begin? || pc.Admitted? || pc.Scheduled? ||
    (pc.Held? && (pc.stage.Granted? || pc.stage.Active? || pc.stage.Authorized? || pc.stage.Intending? || pc.stage.Intended?))
  }

  lemma LoneLease(s: State, t: State, me: WorkerId, act: Act, l: LeaseId)
    requires me in t.workers && Ready(t.log, t.leases, t.workers[me], act) && s.nextLease !in s.leases
    requires var pc := t.workers[me].pc;
             && t.leases == (if pc.Held? then s.leases[l := Lease(t.workers[me].request.workload, false)] else s.leases)
             && (pc.Begin? || pc.Admitted? || pc.Scheduled? ==> t.nextLease == s.nextLease) && (pc.Held? ==> l == s.nextLease == pc.lease)
    ensures var u, m := DoBy(t, me, act), if act.Grant? then t.nextLease else l;
            var pc := u.workers[me].pc;
            && u.leases == (if pc.Held? then s.leases[m := Lease(t.workers[me].request.workload, false)] else s.leases)
            && (pc.Begin? || pc.Admitted? || pc.Scheduled? ==> u.nextLease == s.nextLease) && (pc.Held? ==> m == s.nextLease)
  {
    LeaseAfter(t.log, t.leases, t.nextLease, t.workers[me], act);
    assert s.leases[l := Lease(t.workers[me].request.workload, false)] - {l} == s.leases - {l};
    if t.workers[me].pc.Held? {
      assert s.leases - {l} == s.leases;
    }
  }

  lemma LoneLookups(t: State, me: WorkerId, act: Act)
    requires me in t.workers && Ready(t.log, t.leases, t.workers[me], act) && StillLooking(DoBy(t, me, act).workers[me].pc)
    ensures var r, u := t.workers[me].request, DoBy(t, me, act);
            && StillLooking(t.workers[me].pc) && Committed(u.log, r) == Committed(t.log, r)
            && ReceivedReceipt(u.log, r.workload, r.operation) == ReceivedReceipt(t.log, r.workload, r.operation)
  {
    if Written(t.workers[me], act).Some? {
      LookupsStay(t.log, RowFor(t.workers[me].request, Written(t.workers[me], act).value), t.workers[me].request);
    }
  }

  lemma CallIsChosen(a: Answers, log: Log, leases: map<LeaseId, Lease>, wk: Worker)
    requires !wk.pc.Done?
    ensures Chosen(a, log, leases, wk).CallProvider? ==> wk.pc.Held? && wk.pc.stage == Unreceived
  {
  }

  lemma NotYetCalled(a: Answers, f: Findings, request: Request, l: LeaseId, done: seq<Act>, rows: seq<Body>)
    requires AtStage(a, f, request, l, Unreceived, done, rows)
    ensures CallProvider !in done
  {
  }

  lemma LoneCalls(a: Answers, f: Findings, l: LeaseId, t: State, me: WorkerId, done: seq<Act>, rows: seq<Body>)
    requires me in t.workers && !t.workers[me].pc.Done? && OnCourse(a, f, l, t.workers[me], done, rows)
    requires Ready(t.log, t.leases, t.workers[me], Chosen(a, t.log, t.leases, t.workers[me]))
    ensures var act := Chosen(a, t.log, t.leases, t.workers[me]);
            |DoBy(t, me, act).calls| - (if CallProvider in done + [act] then 1 else 0) == |t.calls| - if CallProvider in done then 1 else 0
  {
    CallIsChosen(a, t.log, t.leases, t.workers[me]);
    if Chosen(a, t.log, t.leases, t.workers[me]).CallProvider? {
      NotYetCalled(a, f, t.workers[me].request, l, done, rows);
    }
  }

  lemma LoneFinds(s: State, t: State, me: WorkerId, f: Findings, l: LeaseId, done: seq<Act>)
    requires me in t.workers && LoneAt(s, t, me, f, l, done)
    ensures Finds(f, t.log, t.leases, t.workers[me]) == f
  {
  }

  /** A lone execution finds what was there at its start. */
  lemma LoneOn(a: Answers, s: State, t: State, me: WorkerId, f: Findings, l: LeaseId, done: seq<Act>, rows: seq<Body>)
    requires me in t.workers && !t.workers[me].pc.Done? && OnCourse(a, f, l, t.workers[me], done, rows) && LoneAt(s, t, me, f, l, done)
    requires s.nextLease !in s.leases && Ready(t.log, t.leases, t.workers[me], Chosen(a, t.log, t.leases, t.workers[me]))
    ensures var act := Chosen(a, t.log, t.leases, t.workers[me]);
            LoneAt(s, DoBy(t, me, act), me, Finds(f, t.log, t.leases, t.workers[me]), if act.Grant? then t.nextLease else l, done + [act])
  {
    var act := Chosen(a, t.log, t.leases, t.workers[me]);
    LoneLease(s, t, me, act, l);
    LoneCalls(a, f, l, t, me, done, rows);
    LoneFinds(s, t, me, f, l, done);
    if StillLooking(DoBy(t, me, act).workers[me].pc) {
      LoneLookups(t, me, act);
    }
  }

  // ---------------------------------------------------------------------------
  // While others run
  // ---------------------------------------------------------------------------

  /** What may have happened between s and t while others ran, worker `me` standing still. */
  ghost predicate Meanwhile(s: State, t: State, run: seq<State>, run': seq<State>, acts: seq<Action>, acts': seq<Action>, mine: set<OperationId>, me: Option<WorkerId>) {
    && Rely(s, t, mine) && Onward(s, t, run, run', acts, acts')
    && (me.Some? && me.value in s.workers ==>
          me.value in t.workers && t.workers[me.value] == s.workers[me.value] && History(acts', |acts'|, me.value) == History(acts, |acts|, me.value))
  }

  lemma MeanwhileOn(s: State, t: State, run: seq<State>, run': seq<State>, acts: seq<Action>, acts': seq<Action>, mine: set<OperationId>, me: Option<WorkerId>, a: Action)
    requires Meanwhile(s, t, run, run', acts, acts', mine, me) && Enabled(t, a) && Foreign(t, a, mine) && (a.By? ==> Some(a.id) != me)
    ensures Meanwhile(s, Do(t, a), run, run' + [Do(t, a)], acts, acts' + [a], mine, me)
  {
    ForeignActionsKeepRely(t, a, mine);
    RelyTransitive(s, t, Do(t, a), mine);
    StepIsLasting(t, a);
    if me.Some? && me.value in s.workers {
      OthersSpare(t, a, me.value);
      HistoryOn(acts', a, me.value);
    }
  }

  // ---------------------------------------------------------------------------
  // Following the script
  // ---------------------------------------------------------------------------

  /** Worker `me` has come from its start in s to t, on the course that the answers and its findings prescribe. */
  ghost predicate Following(s: State, t: State, acts: seq<Action>, request: Request, me: WorkerId, a: Answers, f: Findings, l: LeaseId,
                            done: seq<Act>, rows: seq<Body>, alone: bool) {
    && me in t.workers && t.workers[me].request == request
    && History(acts, |acts|, me) == done && OnCourse(a, f, l, t.workers[me], done, rows) && Journaled(s.log, t.log, request, rows, alone)
    && f.first == Committed(s.log, request) && (t.workers[me].pc.Begin? ==> t.log == s.log)
    && (alone ==> LoneAt(s, t, me, f, l, done))
  }

  lemma FollowingOn(s: State, t: State, u: State, acts: seq<Action>, acts': seq<Action>, request: Request, me: WorkerId, a: Answers, f: Findings, l: LeaseId,
                    done: seq<Act>, rows: seq<Body>, alone: bool, act: Act)
    requires Following(s, t, acts, request, me, a, f, l, done, rows, alone) && !t.workers[me].pc.Done? && s.nextLease !in s.leases
    requires act == Chosen(a, t.log, t.leases, t.workers[me]) && Ready(t.log, t.leases, t.workers[me], act) && t.log <= u.log
    requires me in u.workers && u.workers[me] == t.workers[me].(pc := NextPc(t.log, t.leases, t.nextLease, t.workers[me], act))
    requires History(acts', |acts'|, me) == History(acts, |acts|, me) + [act] && Journaled(t.log, u.log, request, Appends(t.workers[me], act), alone)
    requires alone ==> u == DoBy(t, me, act)
    ensures Following(s, u, acts', request, me, a, Finds(f, t.log, t.leases, t.workers[me]), if act.Grant? then t.nextLease else l,
                      done + [act], rows + Appends(t.workers[me], act), alone)
  {
    CourseOn(a, f, l, t.log, t.leases, t.nextLease, t.workers[me], done, rows);
    RankDecreases(t.log, t.leases, t.nextLease, t.workers[me], act);
    JournaledOn(s.log, t.log, u.log, request, rows, Appends(t.workers[me], act), alone);
    if alone {
      LoneOn(a, s, t, me, f, l, done, rows);
    }
  }

  /** At the end of its course an execution has done, offered, found and returned what the script says. */
  lemma EndOfCourse(s: State, t: State, acts: seq<Action>, request: Request, me: WorkerId, a: Answers, f: Findings, l: LeaseId,
                    done: seq<Act>, rows: seq<Body>, alone: bool)
    requires Following(s, t, acts, request, me, a, f, l, done, rows, alone) && t.workers[me].pc.Done?
    ensures t.workers[me].pc.result == Verdict(a, f) && History(acts, |acts|, me) == Script(a, f)
    ensures AllStored(t.log, request.operation, Rows(a, f, request, l)) && f.first == Committed(s.log, request)
    ensures alone ==> f == FindingsAt(s, request) && t.log == Offer(s.log, request, Rows(a, f, request, l))
    ensures alone ==> t.leases == s.leases && |t.calls| == |s.calls| + if Calls(a, f) then 1 else 0
  {
    CallsAreScripted(a, f);
  }
}
