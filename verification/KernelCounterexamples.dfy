/**
 The conditions of `ExactlyOnce` are needed. The first time two callers of an
 operation are in the window together, the run has a continuation that breaks
 the promise; so does any request for a received operation under a second
 workload. Below are also runs in which a lease expires under its holder, in
 which an intent follows a commit, and in which recovery is blocked.
 */
module KernelCounterexamples {
  import opened Prelude
  import Journal
  import opened KernelSystem
  import opened KernelBase
  import opened KernelExactlyOnce
  import opened KernelRecovery

  ghost predicate Reached(s: State, acts: seq<Action>) {
    exists run :: IsRun(run, acts) && run[|acts|] == s
  }

  lemma Extend(s: State, acts: seq<Action>, a: Action)
    requires Reached(s, acts) && Enabled(s, a)
    ensures Reached(Do(s, a), acts + [a])
  {
    var run :| IsRun(run, acts) && run[|acts|] == s;
    var run' := run + [Do(s, a)];
    var acts' := acts + [a];
    forall i | 0 <= i < |acts'| ensures StepAt(run', acts', i) {
      if i < |acts| {
        assert StepAt(run, acts, i);
      }
    }
    assert IsRun(run', acts') && run'[|acts'|] == Do(s, a);
  }

  lemma Start()
    ensures Reached(Boot, [])
  {
    assert IsRun([Boot], []);
  }

  /** No receipt and no commit of the operation is visible under the workload. */
  ghost predicate Unseen(log: Log, request: Request) {
    forall i :: 0 <= i < |log| && log[i].workload == request.workload && log[i].record.op == request.operation ==>
      !log[i].record.body.Received? && !log[i].record.body.StepCommit?
  }

  lemma AppendUnseen(log: Log, row: Row, request: Request)
    requires Unseen(log, request) && row.key.Some? && !row.record.body.Received? && !row.record.body.StepCommit?
    ensures Unseen(Journal.Appended(log, row), request)
  {
    AppendFacts(log, row);
  }

  /** What an execution writes before its provider answers. */
  predicate Plain(body: Body) {
    !IsEffect(body) && !body.OperationAbort? && (body.Intent? ==> !body.rebound)
  }

  predicate BeforeIntent(pc: Pc) {
    pc.Begin? || pc.Admitted? || pc.Scheduled? || (pc.Held? && (pc.stage.Granted? || pc.stage.Active?))
  }

  /** Worker `id` is the only difference between `s` and `t`, lease aside; no receipt or commit was written. */
  ghost predicate Drove(s: State, t: State, id: WorkerId, request: Request, pc: Pc) {
    && t.workers == s.workers[id := Worker(request, pc)]
    && s.log <= t.log && Unseen(t.log, request) && t.returned == s.returned
    && (forall k :: Journal.HasKey(s.log, k) ==> Journal.HasKey(t.log, k))
    && (forall i :: |s.log| <= i < |t.log| ==> Plain(t.log[i].record.body))
    && (BeforeIntent(pc) ==> forall i :: |s.log| <= i < |t.log| ==> !t.log[i].record.body.Intent?)
  }

  /** The undisturbed course of an execution up to its provider call. */
  function ActAt(n: nat): Act {
    match n
    case 0 => Admit
    case 1 => JournalDecision(true)
    case 2 => Grant
    case 3 => JournalGrant(true)
    case 4 => Authorize(true)
    case 5 => CheckCommitted(true)
    case 6 => JournalIntent(true)
    case 7 => CheckReceived(false, true)
    case _ => CallProvider
  }

  function PcAt(n: nat, l: LeaseId): Pc {
    match n
    case 0 => Begin
    case 1 => Admitted
    case 2 => Scheduled
    case 3 => Held(l, Granted)
    case 4 => Held(l, Active)
    case 5 => Held(l, Authorized)
    case 6 => Held(l, Intending)
    case 7 => Held(l, Intended)
    case 8 => Held(l, Unreceived)
    case _ => Held(l, Calling)
  }

  lemma Course(log: Log, leases: map<LeaseId, Lease>, next: LeaseId, request: Request, l: LeaseId, n: nat)
    requires n < 9 && Unseen(log, request) && (n == 2 ==> !Leased(leases, request.workload) && l == next)
    ensures var wk := Worker(request, PcAt(n, l));
            && Ready(log, leases, wk, ActAt(n))
            && NextPc(log, leases, next, wk, ActAt(n)) == PcAt(n + 1, l)
            && (BeforeIntent(PcAt(n + 1, l)) ==> BeforeIntent(PcAt(n, l)))
            && (Written(wk, ActAt(n)).Some? ==>
                  var body := Written(wk, ActAt(n)).value;
                  Plain(body) && (BeforeIntent(PcAt(n + 1, l)) ==> !body.Intent?))
  {
  }

  /** A request arrives and runs `n` steps of its course. */
  lemma {:induction false} Drive(s: State, acts: seq<Action>, id: WorkerId, request: Request, n: nat) returns (t: State, done: seq<Action>)
    requires Reached(s, acts) && id !in s.workers && (n > 2 ==> !Leased(s.leases, request.workload)) && Unseen(s.log, request) && n <= 9
    ensures Reached(t, acts + done) && forall k :: 0 <= k < |done| ==> done[k] == Spawn(id, request) || done[k].By?
    ensures Drove(s, t, id, request, PcAt(n, s.nextLease))
    ensures t.leases == if n < 3 then s.leases else s.leases[s.nextLease := Lease(request.workload, false)]
    ensures t.nextLease == if n < 3 then s.nextLease else s.nextLease + 1
    ensures t.calls == if n < 9 then s.calls else s.calls + [Call(request, s.nextLease, |t.log|)]
    decreases n
  {
    if n == 0 {
      t, done := Do(s, Spawn(id, request)), [Spawn(id, request)];
      Extend(s, acts, Spawn(id, request));
    } else {
      var u, before := Drive(s, acts, id, request, n - 1);
      Course(u.log, u.leases, u.nextLease, request, s.nextLease, n - 1);
      t := DriveStep(s, u, acts + before, id, request, n - 1);
      done := before + [By(id, ActAt(n - 1))];
      assert acts + done == acts + before + [By(id, ActAt(n - 1))];
    }
  }

  lemma DriveStep(s: State, u: State, acts: seq<Action>, id: WorkerId, request: Request, n: nat) returns (t: State)
    requires Reached(u, acts) && n < 9 && Drove(s, u, id, request, PcAt(n, s.nextLease))
    requires u.leases == if n < 3 then s.leases else s.leases[s.nextLease := Lease(request.workload, false)]
    requires u.nextLease == if n < 3 then s.nextLease else s.nextLease + 1
    requires u.calls == s.calls && (n == 2 ==> !Leased(s.leases, request.workload))
    ensures Reached(t, acts + [By(id, ActAt(n))])
    ensures Drove(s, t, id, request, PcAt(n + 1, s.nextLease))
    ensures t.leases == if n < 2 then s.leases else s.leases[s.nextLease := Lease(request.workload, false)]
    ensures t.nextLease == if n < 2 then s.nextLease else s.nextLease + 1
    ensures t.calls == if n < 8 then s.calls else s.calls + [Call(request, s.nextLease, |t.log|)]
  {
    var act := ActAt(n);
    var wk := Worker(request, PcAt(n, s.nextLease));
    Course(u.log, u.leases, u.nextLease, request, s.nextLease, n);
    Extend(u, acts, By(id, act));
    t := DoBy(u, id, act);
    if Written(wk, act).Some? {
      WriteDrove(s, u.log, id, request, RowFor(request, Written(wk, act).value));
    }
  }

  lemma WriteDrove(s: State, log: Log, id: WorkerId, request: Request, row: Row)
    requires row.key.Some? && Plain(row.record.body)
    requires s.log <= log && Unseen(log, request)
    ensures var log' := Journal.Appended(log, row);
            && Unseen(log', request) && log <= log'
            && (forall k :: Journal.HasKey(log, k) ==> Journal.HasKey(log', k))
            && (forall i :: |log| <= i < |log'| ==> log'[i] == row)
  {
    AppendUnseen(log, row, request);
    AppendFacts(log, row);
  }

  lemma ReachedIsBase(s: State, acts: seq<Action>)
    requires Reached(s, acts)
    ensures Base(s)
  {
    var run :| IsRun(run, acts) && run[|acts|] == s;
    EveryRunKeepsBase(run, acts, |acts|);
  }

  /** The provider answers. */
  lemma Answer(s: State, acts: seq<Action>, id: WorkerId, r: Receipt) returns (t: State)
    requires Reached(s, acts) && id in s.workers && s.workers[id].pc.Held? && s.workers[id].pc.stage == Calling
    ensures Reached(t, acts + [By(id, ProviderReturns(Ok(r)))])
    ensures t == s.(workers := s.workers[id := s.workers[id].(pc := Held(s.workers[id].pc.lease, Answered(r)))])
  {
    Extend(s, acts, By(id, ProviderReturns(Ok(r))));
    t := DoBy(s, id, ProviderReturns(Ok(r)));
  }

  /** The receipt is journaled. */
  lemma StoreReceipt(s: State, acts: seq<Action>, id: WorkerId, r: Receipt) returns (t: State)
    requires Reached(s, acts) && id in s.workers && s.workers[id].pc.Held? && s.workers[id].pc.stage == Answered(r)
    ensures Reached(t, acts + [By(id, JournalReceipt(true))])
    ensures t == s.(log := Journal.Appended(s.log, RowFor(s.workers[id].request, Received(r))),
                    workers := s.workers[id := s.workers[id].(pc := Held(s.workers[id].pc.lease, Durable(r)))])
  {
    Extend(s, acts, By(id, JournalReceipt(true)));
    t := DoBy(s, id, JournalReceipt(true));
  }

  /** The step is committed. */
  lemma StoreCommit(s: State, acts: seq<Action>, id: WorkerId, r: Receipt) returns (t: State)
    requires Reached(s, acts) && id in s.workers && s.workers[id].pc.Held? && s.workers[id].pc.stage == Durable(r)
    ensures Reached(t, acts + [By(id, JournalCommit(true))])
    ensures t.log == Journal.Appended(s.log, RowFor(s.workers[id].request, StepCommit(r)))
    ensures forall j :: j in s.workers && j != id ==> j in t.workers && t.workers[j] == s.workers[j]
  {
    Extend(s, acts, By(id, JournalCommit(true)));
    t := DoBy(s, id, JournalCommit(true));
  }

  // ---------------------------------------------------------------------------
  // Two callers in the window
  // ---------------------------------------------------------------------------

  /** A caller in the window calls the provider, is answered and journals the receipt; nobody else moves. */
  lemma GetReceipt(s: State, acts: seq<Action>, op: OperationId, id: WorkerId) returns (t: State, more: seq<Action>)
    requires Reached(s, acts) && id in s.workers && InWindow(s.workers[id], op)
    ensures Reached(t, acts + more) && forall k :: 0 <= k < |more| ==> more[k].By?
    ensures Journal.HasKey(t.log, ReceiptKey(op)) && forall j :: j in s.workers && j != id ==> j in t.workers && t.workers[j] == s.workers[j]
    decreases if s.workers[id].pc.stage.Unreceived? then 2 else if s.workers[id].pc.stage.Calling? then 1 else 0
  {
    var stage := s.workers[id].pc.stage;
    if stage.Answered? {
      t := StoreReceipt(s, acts, id, stage.receipt);
      more := [By(id, JournalReceipt(true))];
      AppendFacts(s.log, RowFor(s.workers[id].request, Received(stage.receipt)));
    } else {
      var act := if stage.Unreceived? then CallProvider else ProviderReturns(Ok(Receipt(0, 0)));
      Extend(s, acts, By(id, act));
      var u := DoBy(s, id, act);
      var rest;
      t, rest := GetReceipt(u, acts + [By(id, act)], op, id);
      more := [By(id, act)] + rest;
      assert acts + [By(id, act)] + rest == acts + more;
    }
  }

  /** A caller that looked before a receipt became durable calls the provider after it. */
  lemma LateCall(s: State, acts: seq<Action>, op: OperationId, id: WorkerId) returns (t: State)
    requires Reached(s, acts) && Journal.HasKey(s.log, ReceiptKey(op))
    requires id in s.workers && s.workers[id].request.operation == op && s.workers[id].pc.Held? && s.workers[id].pc.stage == Unreceived
    ensures Reached(t, acts + [By(id, CallProvider)]) && forall x :: !Kept(t, op, x)
  {
    Extend(s, acts, By(id, CallProvider));
    t := DoBy(s, id, CallProvider);
    var c := t.calls[|s.calls|];
    assert t.log[..c.at] == s.log;
    assert !CalledBeforeReceipt(t.log, c);
  }

  /** Two callers in the window, one of them about to call: a continuation breaks the promise. */
  lemma OverlapBreaks(s: State, acts: seq<Action>, op: OperationId, i: WorkerId, j: WorkerId) returns (t: State, more: seq<Action>)
    requires Reached(s, acts) && i in s.workers && j in s.workers && i != j
    requires InWindow(s.workers[i], op) && InWindow(s.workers[j], op) && s.workers[j].pc.stage == Unreceived
    ensures Reached(t, acts + more) && (forall k :: 0 <= k < |more| ==> more[k].By?) && forall x :: !Kept(t, op, x)
  {
    var u, first := GetReceipt(s, acts, op, i);
    t := LateCall(u, acts + first, op, j);
    more := first + [By(j, CallProvider)];
    assert acts + first + [By(j, CallProvider)] == acts + more;
  }

  /** The window is entered by finding no receipt. */
  lemma EntersUnreceived(s: State, a: Action, op: OperationId, j: WorkerId)
    requires Enabled(s, a) && j in Do(s, a).workers && InWindow(Do(s, a).workers[j], op)
    requires j in s.workers ==> !InWindow(s.workers[j], op)
    ensures Do(s, a).workers[j].pc.stage == Unreceived
  {
  }

  lemma PrefixIsReached(run: seq<State>, acts: seq<Action>, i: nat)
    requires IsRun(run, acts) && i < |run|
    ensures Reached(run[i], acts[..i])
  {
    var run', acts' := run[..i + 1], acts[..i];
    forall k | 0 <= k < |acts'| ensures StepAt(run', acts', k) {
      assert StepAt(run, acts, k);
    }
    assert IsRun(run', acts') && run'[|acts'|] == run[i];
  }

  /**
   The window condition of `ExactlyOnce` is exact: the promise holds up to the
   first moment two callers of the operation are in the window, and from that
   moment on the callers already there can break it.
   */
  lemma FirstOverlapBreaks(run: seq<State>, acts: seq<Action>, op: OperationId, x: WorkloadId, i: nat) returns (t: State, more: seq<Action>)
    requires IsRun(run, acts) && i < |run| && !OneInWindow(run[i], op)
    requires forall k :: 0 <= k < i ==> KernelExactlyOnce.Undisturbed(run, acts, op, x, k)
    ensures Kept(run[i], op, x)
    ensures Reached(t, acts[..i] + more) && (forall k :: 0 <= k < |more| ==> more[k].By?) && !Kept(t, op, x)
  {
    ExactlyOnce(run, acts, op, x, i);
    var p, q :| p in run[i].workers && q in run[i].workers && InWindow(run[i].workers[p], op) && InWindow(run[i].workers[q], op) && p != q;
    assert StepAt(run, acts, i - 1) && KernelExactlyOnce.Undisturbed(run, acts, op, x, i - 1);
    PrefixIsReached(run, acts, i);
    if q in run[i - 1].workers && InWindow(run[i - 1].workers[q], op) {
      EntersUnreceived(run[i - 1], acts[i - 1], op, p);
      t, more := OverlapBreaks(run[i], acts[..i], op, q, p);
    } else {
      EntersUnreceived(run[i - 1], acts[i - 1], op, q);
      t, more := OverlapBreaks(run[i], acts[..i], op, p, q);
    }
  }

  // ---------------------------------------------------------------------------
  // A second workload
  // ---------------------------------------------------------------------------

  /** Once a receipt is durable, any request for the operation under another workload that gets its lease calls the provider again. */
  lemma SecondWorkloadBreaks(s: State, acts: seq<Action>, id: WorkerId, request: Request, x: WorkloadId) returns (t: State, more: seq<Action>)
    requires Reached(s, acts) && Journal.HasKey(s.log, ReceiptKey(request.operation)) && RoutedRows(s.log, request.operation, x)
    requires request.workload != x && id !in s.workers && !Leased(s.leases, request.workload)
    ensures Reached(t, acts + more) && forall y :: !Kept(t, request.operation, y)
  {
    assert Unseen(s.log, request);
    var u, drive := Drive(s, acts, id, request, 8);
    t := LateCall(u, acts + drive, request.operation, id);
    more := drive + [By(id, CallProvider)];
    assert acts + drive + [By(id, CallProvider)] == acts + more;
  }

  const Q := Request(0, 0, 0, 0, Idempotent, 0)

  /** A first caller up to its provider call. */
  lemma FirstCaller() returns (s: State, acts: seq<Action>)
    ensures Reached(s, acts) && s.workers == map[1 := Worker(Q, Held(0, Calling))] && s.leases == map[0 := Lease(0, false)]
    ensures Unseen(s.log, Q) && forall i :: 0 <= i < |s.log| ==> Plain(s.log[i].record.body)
    ensures forall k :: 0 <= k < |acts| ==> Routed(acts[k], 0, 0) && !acts[k].Expire?
  {
    Start();
    s, acts := Drive(Boot, [], 1, Q, 9);
    assert [] + acts == acts;
  }

  lemma NoKeyYet(s: State, acts: seq<Action>)
    requires Reached(s, acts) && forall i :: 0 <= i < |s.log| ==> Plain(s.log[i].record.body)
    ensures Keyed(s.log) && !Journal.HasKey(s.log, CommitKey(0)) && !Journal.HasKey(s.log, ReceiptKey(0)) && !Journal.HasKey(s.log, RebindKey(0, 0))
  {
    ReachedIsBase(s, acts);
    assert forall i :: 0 <= i < |s.log| ==> KeyedRow(s.log[i]);
  }

  /** The first caller is answered and its receipt is durable. */
  lemma FirstReceives(s: State, acts: seq<Action>, r: Receipt) returns (t: State, more: seq<Action>)
    requires Reached(s, acts) && 1 in s.workers && s.workers[1] == Worker(Q, Held(0, Calling))
    requires forall i :: 0 <= i < |s.log| ==> Plain(s.log[i].record.body)
    ensures Reached(t, acts + more) && t.log == s.log + [RowFor(Q, Received(r))] && t.leases == s.leases
    ensures t.workers == s.workers[1 := Worker(Q, Held(0, Durable(r)))]
    ensures forall k :: 0 <= k < |more| ==> more[k].By?
  {
    NoKeyYet(s, acts);
    var u := Answer(s, acts, 1, r);
    t := StoreReceipt(u, acts + [By(1, ProviderReturns(Ok(r)))], 1, r);
    more := [By(1, ProviderReturns(Ok(r))), By(1, JournalReceipt(true))];
    assert acts + [By(1, ProviderReturns(Ok(r)))] + [By(1, JournalReceipt(true))] == acts + more;
  }

  lemma SecondWorkloadIsReachable() returns (s: State, acts: seq<Action>)
    ensures Reached(s, acts) && forall y :: !Kept(s, 0, y)
    ensures forall k :: 0 <= k < |acts| ==> !acts[k].Expire?
  {
    var s1, a1 := FirstCaller();
    var s2, more := FirstReceives(s1, a1, Receipt(0, 1));
    Journal.HasKeyAppend(s1.log, RowFor(Q, Received(Receipt(0, 1))), ReceiptKey(0));
    var u, drive := Drive(s2, a1 + more, 2, Q.(workload := 1), 8);
    s := LateCall(u, a1 + more + drive, 0, 2);
    acts := a1 + more + drive + [By(2, CallProvider)];
  }

  // ---------------------------------------------------------------------------
  // A lease that expires under its holder
  // ---------------------------------------------------------------------------

  lemma TwoCallers() returns (s: State, acts: seq<Action>)
    ensures Reached(s, acts) && 1 in s.workers && 2 in s.workers
    ensures s.workers[1].request == s.workers[2].request == Q && s.workers[1].pc.Held? && s.workers[2].pc.Held?
    ensures s.workers[1].pc.stage == s.workers[2].pc.stage == Calling
    ensures forall i :: 0 <= i < |s.log| ==> Plain(s.log[i].record.body)
    ensures forall k :: 0 <= k < |acts| ==> Routed(acts[k], 0, 0)
  {
    var s1, a1 := FirstCaller();
    Extend(s1, a1, Expire(0));
    var s2, a2 := Do(s1, Expire(0)), a1 + [Expire(0)];
    var d2;
    s, d2 := Drive(s2, a2, 2, Q, 9);
    acts := a2 + d2;
    forall i | 0 <= i < |s.log| ensures Plain(s.log[i].record.body) {
      assert i < |s2.log| ==> s.log[i] == s2.log[i];
    }
  }

  /**
   Two callers, one operation, one workload, and a lease that expires while its
   holder waits for the provider: the commit carries a receipt that is not the
   durable one.
   */
  lemma OverrunBreaksExactlyOnce() returns (s: State, acts: seq<Action>)
    ensures Reached(s, acts) && (exists i :: 0 <= i < |s.log| && !Matched(s.log, 0, 0, i))
    ensures forall k :: 0 <= k < |acts| ==> Routed(acts[k], 0, 0)
  {
    var s3, a3 := TwoCallers();
    NoKeyYet(s3, a3);
    s, acts := BothAnswer(s3, a3, Receipt(0, 1), Receipt(0, 2));
  }

  /** Both are answered; the first journals its receipt. */
  lemma FirstStores(s: State, acts: seq<Action>, r1: Receipt, r2: Receipt) returns (t: State, all: seq<Action>)
    requires Reached(s, acts) && !Journal.HasKey(s.log, ReceiptKey(0))
    requires 1 in s.workers && s.workers[1].request == Q && s.workers[1].pc.Held? && s.workers[1].pc.stage == Calling
    requires 2 in s.workers && s.workers[2].request == Q && s.workers[2].pc.Held? && s.workers[2].pc.stage == Calling
    requires forall k :: 0 <= k < |acts| ==> Routed(acts[k], 0, 0)
    ensures Reached(t, all) && t.log == s.log + [RowFor(Q, Received(r1))]
    ensures 2 in t.workers && t.workers[2].request == Q && t.workers[2].pc.Held? && t.workers[2].pc.stage == Answered(r2)
    ensures forall k :: 0 <= k < |all| ==> Routed(all[k], 0, 0)
  {
    var t1 := Answer(s, acts, 1, r1);
    var a1 := acts + [By(1, ProviderReturns(Ok(r1)))];
    var t2 := Answer(t1, a1, 2, r2);
    var a2 := a1 + [By(2, ProviderReturns(Ok(r2)))];
    t := StoreReceipt(t2, a2, 1, r1);
    all := a2 + [By(1, JournalReceipt(true))];
  }

  /** The slower caller's receipt is dropped by its key, yet that caller commits it. */
  lemma BothAnswer(s: State, acts: seq<Action>, r1: Receipt, r2: Receipt) returns (t: State, all: seq<Action>)
    requires Reached(s, acts) && r1 != r2 && forall i :: 0 <= i < |s.log| ==> Plain(s.log[i].record.body)
    requires 1 in s.workers && s.workers[1].request == Q && s.workers[1].pc.Held? && s.workers[1].pc.stage == Calling
    requires 2 in s.workers && s.workers[2].request == Q && s.workers[2].pc.Held? && s.workers[2].pc.stage == Calling
    requires !Journal.HasKey(s.log, CommitKey(0)) && !Journal.HasKey(s.log, ReceiptKey(0))
    requires forall k :: 0 <= k < |acts| ==> Routed(acts[k], 0, 0)
    ensures Reached(t, all) && (exists i :: 0 <= i < |t.log| && !Matched(t.log, 0, 0, i))
    ensures forall k :: 0 <= k < |all| ==> Routed(all[k], 0, 0)
  {
    var u, a3 := FirstStores(s, acts, r1, r2);
    var v := StoreReceipt(u, a3, 2, r2);
    var a4 := a3 + [By(2, JournalReceipt(true))];
    t := StoreCommit(v, a4, 2, r2);
    all := a4 + [By(2, JournalCommit(true))];
    Journal.HasKeyAppend(s.log, RowFor(Q, Received(r1)), ReceiptKey(0));
    Journal.HasKeyAppend(s.log, RowFor(Q, Received(r1)), CommitKey(0));
    assert v.log == u.log && t.log == u.log + [RowFor(Q, StepCommit(r2))];
    assert t.log[..|u.log|] == u.log;
    assert RowFor(Q, Received(r2)) !in u.log;
    assert !Matched(t.log, 0, 0, |u.log|);
  }

  // ---------------------------------------------------------------------------
  // An intent after a commit
  // ---------------------------------------------------------------------------

  /** A second caller finds the workload leased and fails with a retryable error. */
  lemma SecondCallerRefused(s: State, acts: seq<Action>) returns (t: State, more: seq<Action>)
    requires Reached(s, acts) && 2 !in s.workers && Leased(s.leases, 0) && Unseen(s.log, Q)
    requires forall i :: 0 <= i < |s.log| ==> Plain(s.log[i].record.body)
    ensures Reached(t, acts + more) && t.workers == s.workers[2 := Worker(Q, Done(Err(Resource)))]
    ensures forall i :: 0 <= i < |t.log| ==> Plain(t.log[i].record.body)
    ensures forall k :: 0 <= k < |more| ==> Routed(more[k], 0, 0) && !more[k].Expire?
  {
    var u, drive := Drive(s, acts, 2, Q, 2);
    Extend(u, acts + drive, By(2, GrantRefused));
    t := DoBy(u, 2, GrantRefused);
    more := drive + [By(2, GrantRefused)];
    assert acts + drive + [By(2, GrantRefused)] == acts + more;
    forall i | 0 <= i < |t.log| ensures Plain(t.log[i].record.body) {
      assert i < |s.log| ==> t.log[i] == s.log[i];
    }
  }

  lemma FirstCallerCommits(s: State, acts: seq<Action>) returns (t: State, all: seq<Action>)
    requires Reached(s, acts) && 1 in s.workers && s.workers[1] == Worker(Q, Held(0, Calling))
    requires forall i :: 0 <= i < |s.log| ==> Plain(s.log[i].record.body)
    requires forall k :: 0 <= k < |acts| ==> Routed(acts[k], 0, 0) && !acts[k].Expire?
    ensures Reached(t, all) && (forall j :: j in s.workers && j != 1 ==> j in t.workers && t.workers[j] == s.workers[j])
    ensures Journal.HasKey(t.log, CommitKey(0)) && !Journal.HasKey(t.log, RebindKey(0, 0))
    ensures forall k :: 0 <= k < |all| ==> Routed(all[k], 0, 0) && !all[k].Expire?
  {
    var r := Receipt(0, 1);
    NoKeyYet(s, acts);
    var u, more := FirstReceives(s, acts, r);
    t := StoreCommit(u, acts + more, 1, r);
    all := acts + more + [By(1, JournalCommit(true))];
    Journal.HasKeyAppend(s.log, RowFor(Q, Received(r)), RebindKey(0, 0));
    AppendFacts(u.log, RowFor(Q, StepCommit(r)));
  }

  /**
   One workload, no lease overrun: a second caller is refused the lease, the
   first commits, and the second caller's failover rebinds the operation. The
   operation is committed and pending at once, and recovery leaves it so.
   */
  lemma IntentCanFollowCommit() returns (s: State, acts: seq<Action>)
    ensures Reached(s, acts) && Journal.HasKey(s.log, CommitKey(0)) && 0 in Pending(s.log) && !NoLateIntent(s.log)
    ensures 2 in s.workers && s.workers[2].pc == Done(Err(Resource)) && Retryable(Resource)
    ensures forall k :: 0 <= k < |acts| ==> Routed(acts[k], 0, 0) && !acts[k].Expire?
  {
    var s1, a1 := FirstCaller();
    assert 0 in s1.leases;
    var s2, more := SecondCallerRefused(s1, a1);
    var s3, a3 := FirstCallerCommits(s2, a1 + more);
    var row := RowFor(Q, Intent(Q, true));
    Extend(s3, a3, Note(row));
    s, acts := Do(s3, Note(row)), a3 + [Note(row)];
    assert s.log == s3.log + [row] && s.log[..|s3.log|] == s3.log;
    ReachedIsBase(s, acts);
    AppendFacts(s3.log, row);
    if NoLateIntent(s.log) {
      assert Final(s.log, 0);
      CommittedIsNotPending(s.log, 0);
    }
  }

  // ---------------------------------------------------------------------------
  // A retry that recovery does not see
  // ---------------------------------------------------------------------------

  /**
   Wherever an operation has an intent and is not pending, a request for it that
   gets its lease reaches the provider without becoming pending.
   */
  lemma RetryIsNotPending(s: State, acts: seq<Action>, id: WorkerId, request: Request) returns (t: State, more: seq<Action>)
    requires Reached(s, acts) && Journal.HasKey(s.log, IntentKey(request.operation)) && request.operation !in Pending(s.log)
    requires id !in s.workers && !Leased(s.leases, request.workload) && Unseen(s.log, request)
    ensures Reached(t, acts + more) && t.workers == s.workers[id := Worker(request, Held(s.nextLease, Calling))]
    ensures request.operation !in Pending(t.log) && forall k :: 0 <= k < |more| ==> more[k] == Spawn(id, request) || more[k].By?
  {
    t, more := Drive(s, acts, id, request, 9);
    ReachedIsBase(t, acts + more);
    PlainRowsDeclareNothing(s.log, t.log, request.operation);
  }

  /** Rows an execution writes before its provider answers leave a declared operation as it was. */
  lemma {:induction false} PlainRowsDeclareNothing(log: Log, log': Log, op: OperationId)
    requires log <= log' && Keyed(log') && Journal.UniqueKeys(log') && Journal.HasKey(log, IntentKey(op)) && op !in Pending(log)
    requires forall i :: |log| <= i < |log'| ==> Plain(log'[i].record.body)
    ensures op !in Pending(log')
  {
    PendingIsExact(log, op);
    PendingIsExact(log', op);
    var p :| 0 <= p < |log| && log[p].key == Some(IntentKey(op));
    assert log'[p] == log[p];
    forall i | |log| <= i < |log'| && log'[i].record.op == op ensures !log'[i].record.body.Intent? {
      assert KeyedRow(log'[i]) && log'[i].key != log'[p].key;
    }
    forall i: nat | Unsettled(log', op, i) ensures Unsettled(log, op, i) {
      assert forall j :: i <= j < |log| ==> log[j] == log'[j];
    }
  }

  /** A row that is neither intent nor effect; an abort that lands settles the operation. */
  lemma BookkeepingRow(log: Log, r: Request, body: Body)
    requires !IsEffect(body) && !body.Intent?
    ensures var log' := Journal.Appended(log, RowFor(r, body));
            && (forall k :: Journal.HasKey(log, k) ==> Journal.HasKey(log', k))
            && (forall k :: Journal.HasKey(log', k) ==> Journal.HasKey(log, k) || k == KeyOf(r.operation, body))
            && (Unseen(log, r) ==> Unseen(log', r))
            && (r.operation !in Pending(log) || (Settles(body) && !Journal.HasKey(log, KeyOf(r.operation, body))) ==> r.operation !in Pending(log'))
  {
    AppendFacts(log, RowFor(r, body));
    if Unseen(log, r) {
      AppendUnseen(log, RowFor(r, body), r);
    }
    RowPending(log, RowFor(r, body), r.operation);
  }

  /** Before the abort its key is free; after it the operation is not pending. */
  ghost predicate Aborting(log: Log, r: Request, n: nat) {
    Unseen(log, r) && if n < 2 then !Journal.HasKey(log, AbortKey(r.operation, r.revision)) else r.operation !in Pending(log)
  }

  /** The n-th bookkeeping row of a failed execution: the second one aborts the operation. */
  lemma ClosingRow(log: Log, r: Request, n: nat, e: Error)
    requires n < 4 && Aborting(log, r, n)
    ensures var log' := Journal.Appended(log, RowFor(r, ClosingBody(r.revision, n, Err(e))));
            (forall k :: Journal.HasKey(log, k) ==> Journal.HasKey(log', k)) && Aborting(log', r, n + 1)
  {
    BookkeepingRow(log, r, ClosingBody(r.revision, n, Err(e)));
  }

  lemma CloseOne(s: State, acts: seq<Action>, id: WorkerId, l: LeaseId, n: nat, e: Error) returns (t: State)
    requires Reached(s, acts) && id in s.workers && s.workers[id].pc == Held(l, Closing(n, Err(e), false)) && n < 4
    ensures Reached(t, acts + [By(id, Close(true))]) && t.leases == s.leases
    ensures t.workers == s.workers[id := s.workers[id].(pc := Held(l, Closing(n + 1, Err(e), false)))]
    ensures t.log == Journal.Appended(s.log, RowFor(s.workers[id].request, ClosingBody(s.workers[id].request.revision, n, Err(e))))
  {
    Extend(s, acts, By(id, Close(true)));
    t := DoBy(s, id, Close(true));
  }

  lemma {:induction false} CloseFrom(s: State, acts: seq<Action>, id: WorkerId, l: LeaseId, n: nat, e: Error) returns (t: State, more: seq<Action>)
    requires Reached(s, acts) && id in s.workers && s.workers[id].pc == Held(l, Closing(n, Err(e), false)) && n <= 4
    requires Aborting(s.log, s.workers[id].request, n)
    ensures Reached(t, acts + more) && (forall k :: 0 <= k < |more| ==> more[k].By?) && t.leases == s.leases
    ensures t.workers == s.workers[id := s.workers[id].(pc := Held(l, Closing(4, Err(e), false)))]
    ensures (forall k :: Journal.HasKey(s.log, k) ==> Journal.HasKey(t.log, k)) && Aborting(t.log, s.workers[id].request, 4)
    decreases 4 - n
  {
    if n == 4 {
      t, more := s, [];
      assert acts + [] == acts;
    } else {
      ClosingRow(s.log, s.workers[id].request, n, e);
      var u := CloseOne(s, acts, id, l, n, e);
      var rest;
      t, rest := CloseFrom(u, acts + [By(id, Close(true))], id, l, n + 1, e);
      more := [By(id, Close(true))] + rest;
      assert acts + [By(id, Close(true))] + rest == acts + more;
    }
  }

  /** The provider fails, and the execution records it, gives its lease back and ends. */
  lemma FailedCall(s: State, acts: seq<Action>, id: WorkerId, l: LeaseId, e: Error) returns (t: State, more: seq<Action>)
    requires Reached(s, acts) && id in s.workers && s.workers[id].pc == Held(l, Calling)
    requires var r := s.workers[id].request; Unseen(s.log, r) && !Journal.HasKey(s.log, AbortKey(r.operation, r.revision))
    ensures Reached(t, acts + more) && t.workers == s.workers[id := s.workers[id].(pc := Done(Err(e)))] && t.leases == s.leases - {l}
    ensures (forall k :: Journal.HasKey(s.log, k) ==> Journal.HasKey(t.log, k)) && forall k :: 0 <= k < |more| ==> more[k].By?
    ensures var r := s.workers[id].request; Unseen(t.log, r) && r.operation !in Pending(t.log)
  {
    Extend(s, acts, By(id, ProviderReturns(Err(e))));
    var u0, a0 := DoBy(s, id, ProviderReturns(Err(e))), acts + [By(id, ProviderReturns(Err(e)))];
    var u4, closing := CloseFrom(u0, a0, id, l, 0, e);
    var a4 := a0 + closing;
    t := GiveBack(u4, a4, id, l, e);
    more := [By(id, ProviderReturns(Err(e)))] + closing + [By(id, Release), By(id, JournalRelease(true))];
    assert a4 + [By(id, Release), By(id, JournalRelease(true))] == acts + more;
  }

  lemma ReleaseRow(log: Log, r: Request, l: LeaseId)
    ensures var log' := Journal.Appended(log, RowFor(r, LeaseReleased(l)));
            (forall k :: Journal.HasKey(log, k) ==> Journal.HasKey(log', k)) && (Aborting(log, r, 4) ==> Aborting(log', r, 4))
  {
    BookkeepingRow(log, r, LeaseReleased(l));
  }

  lemma LetGo(s: State, acts: seq<Action>, id: WorkerId, l: LeaseId, e: Error) returns (t: State)
    requires Reached(s, acts) && id in s.workers && s.workers[id].pc == Held(l, Closing(4, Err(e), false))
    ensures Reached(t, acts + [By(id, Release)]) && t.log == s.log && t.leases == s.leases - {l}
    ensures t.workers == s.workers[id := s.workers[id].(pc := Released(l, Err(e), false))]
  {
    Extend(s, acts, By(id, Release));
    t := DoBy(s, id, Release);
  }

  lemma GiveBack(s: State, acts: seq<Action>, id: WorkerId, l: LeaseId, e: Error) returns (t: State)
    requires Reached(s, acts) && id in s.workers && s.workers[id].pc == Held(l, Closing(4, Err(e), false))
    requires Aborting(s.log, s.workers[id].request, 4)
    ensures Reached(t, acts + [By(id, Release), By(id, JournalRelease(true))])
    ensures t.workers == s.workers[id := s.workers[id].(pc := Done(Err(e)))] && t.leases == s.leases - {l}
    ensures (forall k :: Journal.HasKey(s.log, k) ==> Journal.HasKey(t.log, k)) && Aborting(t.log, s.workers[id].request, 4)
  {
    ReleaseRow(s.log, s.workers[id].request, l);
    var u := LetGo(s, acts, id, l, e);
    Extend(u, acts + [By(id, Release)], By(id, JournalRelease(true)));
    t := DoBy(u, id, JournalRelease(true));
    assert acts + [By(id, Release)] + [By(id, JournalRelease(true))] == acts + [By(id, Release), By(id, JournalRelease(true))];
  }

  /**
   One workload, no lease overrun: an execution fails and is retried under the same
   request. A crash while the provider works on the retry leaves nothing pending.
   */
  lemma RetryCanBeLost() returns (s: State, acts: seq<Action>)
    ensures Reached(s, acts) && 2 in s.workers && s.workers[2].request == Q && s.workers[2].pc.Held? && s.workers[2].pc.stage == Calling
    ensures 0 !in Pending(Do(s, Crash).log)
    ensures forall k :: 0 <= k < |acts| ==> Routed(acts[k], 0, 0) && !acts[k].Expire?
  {
    var s1, a1 := FirstCaller();
    ReachedIsBase(s1, a1);
    assert WorkerBase(s1.log, s1.nextLease, s1.workers[1]);
    forall i | 0 <= i < |s1.log| ensures s1.log[i].key != Some(AbortKey(0, 0)) {
      assert KeyedRow(s1.log[i]) && Plain(s1.log[i].record.body);
    }
    var s2, failed := FailedCall(s1, a1, 1, 0, ProviderError);
    var retry;
    s, retry := RetryIsNotPending(s2, a1 + failed, 2, Q);
    acts := a1 + failed + retry;
  }

  /** A crash between the lease and the first intent leaves a lease that recovery can never close. */
  lemma CrashCanBlockRecovery() returns (s: State, acts: seq<Action>)
    ensures Reached(s, acts) && s.workers == map[]
    ensures forall k :: 0 <= k < |acts| ==> Routed(acts[k], 0, 0) && !acts[k].Expire?
    ensures exists l :: l in OpenLeases(s.log) && OpenLeases(s.log)[l] !in Requests(s.log)
  {
    Start();
    var t, d := Drive(Boot, [], 1, Q, 4);
    ReachedIsBase(t, [] + d);
    assert WorkerBase(t.log, t.nextLease, t.workers[1]);
    Extend(t, [] + d, Crash);
    s, acts := Do(t, Crash), [] + d + [Crash];
    assert OpenFor(s.log, 0, 0);
    OpenLeasesIsExact(s.log, 0);
    RequestsIsExact(s.log, 0);
  }
}
