/** Recovery at start-up: orphaned leases revoked, then the pending operations re-executed one by one. */
module KernelRevival {
  import opened Prelude
  import Journal
  import opened KernelSystem
  import opened KernelBase
  import opened KernelScript
  import opened KernelExactlyOnce
  import opened KernelRecovery
  import opened KernelRely

  /** No operation's standing changed: not its pending status, not its commit, not what was promised of it. */
  ghost predicate Harmless(s: State, t: State) {
    && s.log <= t.log && t.calls == s.calls
    && Pending(t.log) == Pending(s.log) && Requests(t.log) == Requests(s.log)
    && (forall op :: Journal.HasKey(t.log, CommitKey(op)) <==> Journal.HasKey(s.log, CommitKey(op)))
    && (forall p, y {:trigger Strong(t, p, y)} :: Strong(s, p, y) ==> Strong(t, p, y))
  }

  lemma HarmlessTransitive(s: State, t: State, u: State)
    requires Harmless(s, t) && Harmless(t, u)
    ensures Harmless(s, u)
  {
    forall p, y | Strong(s, p, y) ensures Strong(u, p, y) {
      assert Strong(t, p, y);
    }
  }

  /** The leases of `left` are still open; the others were closed and had a request. */
  ghost predicate Revoking(start: Log, log: Log, active: map<LeaseId, WorkloadId>, requests: map<WorkloadId, Request>, left: set<LeaseId>) {
    && Requests(log) == requests
    && left <= active.Keys && OpenLeases(log) == active - (active.Keys - left)
    && (left == active.Keys ==> log == start)
    && forall l :: l in active && l !in left ==> active[l] in requests
  }

  lemma RevokingOn(start: Log, log: Log, log': Log, active: map<LeaseId, WorkloadId>, requests: map<WorkloadId, Request>, left: set<LeaseId>, l: LeaseId)
    requires Revoking(start, log, active, requests, left) && l in left && active[l] in requests
    requires OpenLeases(log') == OpenLeases(log) - {l} && Requests(log') == Requests(log)
    ensures Revoking(start, log', active, requests, left - {l})
  {
    assert active - (active.Keys - left) - {l} == active - (active.Keys - (left - {l}));
  }

  /** The revocation row is new, so it really closes the lease and changes nothing else. */
  lemma RevocationLands(log: Log, r: Request, l: LeaseId)
    requires Keyed(log) && ActiveFirst(log) && l in OpenLeases(log)
    ensures var log' := Journal.Appended(log, RowFor(r, LeaseRevoked(l)));
            && OpenLeases(log') == OpenLeases(log) - {l}
            && Requests(log') == Requests(log) && Pending(log') == Pending(log)
  {
    var row := RowFor(r, LeaseRevoked(l));
    OpenLeasesIsExact(log, l);
    var op :| OpenLease(log, OpenLeases(log)[l], op, l);
    forall i | 0 <= i < |log| ensures log[i].key != row.key {
      assert KeyedRow(log[i]) && !Closes(log[i].record.body, l);
    }
    assert (log + [row])[..|log|] == log;
  }

  lemma RevokeIsHarmless(s: State, l: LeaseId, r: Request)
    requires Base(s) && Enabled(s, Revoke(l, r)) && l in OpenLeases(s.log)
    ensures Harmless(s, Do(s, Revoke(l, r)))
  {
    RevocationLands(s.log, r, l);
    AppendFacts(s.log, RowFor(r, LeaseRevoked(l)));
    forall p, y | Strong(s, p, y) ensures Strong(Do(s, Revoke(l, r)), p, y) {
      StepKeepsStrong(s, p, y, Revoke(l, r));
    }
  }

  /** A pending request names its operation. */
  lemma PendingNamesItself(log: Log, op: OperationId)
    requires Keyed(log) && op in Pending(log)
    ensures Pending(log)[op].operation == op
  {
    PendingIsExact(log, op);
    var i: nat :| Unsettled(log, op, i);
    assert KeyedRow(log[i]);
  }

  /** Deliveries that recovery may repeat. */
  predicate Recoverable(r: Request) {
    r.delivery in {Idempotent, Reconcilable}
  }

  ghost predicate AllRecoverable(requests: seq<Request>) {
    forall i :: 0 <= i < |requests| ==> Recoverable(requests[i])
  }

  ghost predicate AllMayRepeat(pending: map<OperationId, Request>) {
    forall op :: op in pending ==> Recoverable(pending[op])
  }

  /**
   The listed requests were executed in order, with these outcomes: up to the first
   that failed, to the first that may not be repeated, or to the end. Only the
   second of these is a refusal of recovery's own.
   */
  ghost predicate Recounts(requests: seq<Request>, done: seq<Outcome>, r: Result<seq<Receipt>, Error>) {
    && |done| <= |requests| && (forall i :: 0 <= i < |done| ==> Recoverable(requests[i]))
    && (forall i :: 0 <= i < |done| - 1 ==> done[i].Ok?)
    && if done != [] && done[|done| - 1].Err? then r == Err(done[|done| - 1].error)
       else if |done| == |requests| then r.Ok? && |r.value| == |done| && forall i :: 0 <= i < |done| ==> done[i] == Ok(r.value[i])
       else !Recoverable(requests[|done|]) && r == Err(UnsafeRecovery(requests[|done|].operation))
  }

  /** Where nothing goes wrong around the providers, recovery succeeds exactly when every listed request may be repeated. */
  lemma GoodRecoveryIff(s: State, requests: seq<Request>, done: seq<Outcome>, r: Result<seq<Receipt>, Error>, env: OperationId -> Answers)
    requires Recounts(requests, done, r) && (forall i :: 0 <= i < |requests| ==> Good(env(requests[i].operation)))
    requires s.leases == map[] && forall i :: 0 <= i < |done| ==> Executed(s, requests[i], env(requests[i].operation), done[i])
    ensures r.Ok? <==> AllRecoverable(requests)
    ensures r.Err? ==> exists i :: 0 <= i < |requests| && r == Err(UnsafeRecovery(requests[i].operation))
  {
    if done != [] {
      var n := |done| - 1;
      assert Executed(s, requests[n], env(requests[n].operation), done[n]);
      var f :| done[n] == Verdict(env(requests[n].operation), f) && f.leased == Leased(s.leases, requests[n].workload);
      GoodSucceeds(env(requests[n].operation), f);
    }
  }

  /** One listed request has been re-executed successfully; where the promise held at the start, with its committed receipt. */
  ghost predicate Repeated(s: State, log: Log, request: Request, a: Answers, outcome: Outcome, r: Receipt) {
    && Recoverable(request) && outcome == Ok(r) && (exists f :: outcome == Verdict(a, f) && f.leased == Leased(s.leases, request.workload))
    && Journal.HasKey(log, CommitKey(request.operation))
    && (Strong(s, request.operation, request.workload) ==> CommittedWith(log, request.workload, request.operation, r))
  }

  /** Recovery has come to the i-th listed request: the ones before it have been re-executed. */
  ghost predicate RecoveringAt(s: State, t: State, requests: seq<Request>, i: nat, env: OperationId -> Answers, done: seq<Outcome>, receipts: seq<Receipt>)
  {
    && i == |done| == |receipts| <= |requests| && t.leases == s.leases && Recovering(s, t, requests[i..])
    && forall k :: 0 <= k < i ==> Repeated(s, t.log, requests[k], env(requests[k].operation), done[k], receipts[k])
  }

  lemma RecoveringAtOn(s: State, t: State, u: State, requests: seq<Request>, i: nat, env: OperationId -> Answers, done: seq<Outcome>, receipts: seq<Receipt>, f: Findings, r: Receipt)
    requires RecoveringAt(s, t, requests, i, env, done, receipts) && i < |requests| && Recoverable(requests[i])
    requires Recovered(t, u, requests[i]) && Keyed(u.log) && u.leases == t.leases
    requires Ok(r) == Verdict(env(requests[i].operation), f) && f.leased == Leased(t.leases, requests[i].workload)
    requires Strong(t, requests[i].operation, requests[i].workload) ==> CommittedWith(u.log, requests[i].workload, requests[i].operation, r)
    ensures RecoveringAt(s, u, requests, i + 1, env, done + [Ok(r)], receipts + [r])
  {
    var rest := requests[i..];
    assert rest[0] == requests[i] && rest[1..] == requests[i + 1..] && Untouched(s, t, rest[0]);
    RecoveringOn(s, t, u, rest);
    RepeatedStays(s, t.log, u.log, requests, env, done, receipts);
    assert Repeated(s, u.log, requests[i], env(requests[i].operation), Ok(r), r);
  }

  lemma ToRecover(s: State, t: State, requests: seq<Request>, i: nat, env: OperationId -> Answers, done: seq<Outcome>, receipts: seq<Receipt>)
    requires RecoveringAt(s, t, requests, i, env, done, receipts) && i < |requests|
    ensures requests[i].operation in Pending(t.log)
  {
    assert Untouched(s, t, requests[i..][0]);
  }

  /** What re-executing the listed requests came to. */
  ghost predicate Outcomes(s: State, t: State, requests: seq<Request>, env: OperationId -> Answers, done: seq<Outcome>, r: Result<seq<Receipt>, Error>) {
    && s.log <= t.log && s.calls <= t.calls && (forall i :: |s.calls| <= i < |t.calls| ==> Recoverable(t.calls[i].request))
    && Recounts(requests, done, r) && (forall i :: 0 <= i < |done| ==> Executed(s, requests[i], env(requests[i].operation), done[i]))
    && SuccessesCommitted(t.log, requests, done)
    && (r.Ok? ==> Recovering(s, t, []) && ReceiptsHold(s, t.log, requests, r.value))
  }

  /** Every re-execution that succeeded has its commit. */
  ghost predicate SuccessesCommitted(log: Log, requests: seq<Request>, done: seq<Outcome>) {
    |done| <= |requests| && forall i :: 0 <= i < |done| && done[i].Ok? ==> Journal.HasKey(log, CommitKey(requests[i].operation))
  }

  /** The outcome of a scripted execution that found a lease in its way only if there was one at the start. */
  ghost predicate Executed(s: State, request: Request, a: Answers, outcome: Outcome) {
    exists f :: outcome == Verdict(a, f) && f.leased == Leased(s.leases, request.workload)
  }

  /** One receipt per request; the committed one where the promise to the operation held at the start. */
  ghost predicate ReceiptsHold(s: State, log: Log, requests: seq<Request>, receipts: seq<Receipt>) {
    && |receipts| == |requests|
    && forall k :: 0 <= k < |requests| && Strong(s, requests[k].operation, requests[k].workload) ==>
         CommittedWith(log, requests[k].workload, requests[k].operation, receipts[k])
  }

  lemma SoFar(s: State, t: State, requests: seq<Request>, i: nat, env: OperationId -> Answers, done: seq<Outcome>, receipts: seq<Receipt>)
    requires RecoveringAt(s, t, requests, i, env, done, receipts)
    ensures forall k :: 0 <= k < i ==> Recoverable(requests[k]) && done[k] == Ok(receipts[k]) && Executed(s, requests[k], env(requests[k].operation), done[k])
    ensures SuccessesCommitted(t.log, requests, done)
    ensures i == |requests| ==> ReceiptsHold(s, t.log, requests, receipts)
  {
    forall k | 0 <= k < i ensures Recoverable(requests[k]) && done[k] == Ok(receipts[k]) && Executed(s, requests[k], env(requests[k].operation), done[k])
      && (Strong(s, requests[k].operation, requests[k].workload) ==> CommittedWith(t.log, requests[k].workload, requests[k].operation, receipts[k]))
    {
      assert Repeated(s, t.log, requests[k], env(requests[k].operation), done[k], receipts[k]);
    }
  }

  lemma RefusedHere(s: State, t: State, requests: seq<Request>, i: nat, env: OperationId -> Answers, done: seq<Outcome>, receipts: seq<Receipt>)
    requires RecoveringAt(s, t, requests, i, env, done, receipts) && i < |requests| && !Recoverable(requests[i])
    ensures Outcomes(s, t, requests, env, done, Err(UnsafeRecovery(requests[i].operation)))
  {
    SoFar(s, t, requests, i, env, done, receipts);
  }

  lemma FailedHere(s: State, t: State, u: State, requests: seq<Request>, i: nat, env: OperationId -> Answers, done: seq<Outcome>, receipts: seq<Receipt>, f: Findings, e: Error)
    requires RecoveringAt(s, t, requests, i, env, done, receipts) && i < |requests| && Recoverable(requests[i])
    requires t.log <= u.log && t.calls <= u.calls && forall k :: |t.calls| <= k < |u.calls| ==> u.calls[k].request == requests[i]
    requires Err(e) == Verdict(env(requests[i].operation), f) && f.leased == Leased(t.leases, requests[i].workload)
    ensures Outcomes(s, u, requests, env, done + [Err(e)], Err(e))
  {
    SoFar(s, t, requests, i, env, done, receipts);
    FailureRecounts(requests, done, e);
    assert Executed(s, requests[i], env(requests[i].operation), Err(e));
    CallsRecoverable(s.calls, t.calls, u.calls, requests[i]);
    CommittedStays(t.log, u.log);
  }

  lemma FailureRecounts(requests: seq<Request>, done: seq<Outcome>, e: Error)
    requires |done| < |requests| && forall k :: 0 <= k <= |done| ==> Recoverable(requests[k])
    requires forall k :: 0 <= k < |done| ==> done[k].Ok?
    ensures Recounts(requests, done + [Err(e)], Err(e))
  {
  }

  lemma CallsRecoverable(s: seq<Call>, t: seq<Call>, u: seq<Call>, request: Request)
    requires s <= t <= u && Recoverable(request)
    requires (forall k :: |s| <= k < |t| ==> Recoverable(t[k].request)) && forall k :: |t| <= k < |u| ==> u[k].request == request
    ensures forall k :: |s| <= k < |u| ==> Recoverable(u[k].request)
  {
    forall k | |s| <= k < |u| ensures Recoverable(u[k].request) {
      assert k < |t| ==> u[k] == t[k];
    }
  }

  lemma FinishedHere(s: State, t: State, requests: seq<Request>, env: OperationId -> Answers, done: seq<Outcome>, receipts: seq<Receipt>)
    requires RecoveringAt(s, t, requests, |requests|, env, done, receipts)
    ensures Outcomes(s, t, requests, env, done, Ok(receipts))
  {
    SoFar(s, t, requests, |requests|, env, done, receipts);
    assert requests[|requests|..] == [];
  }

  lemma RepeatedStays(s: State, log: Log, log': Log, requests: seq<Request>, env: OperationId -> Answers, done: seq<Outcome>, receipts: seq<Receipt>)
    requires log <= log' && |receipts| <= |done| && |receipts| <= |requests|
    requires forall k :: 0 <= k < |receipts| ==> Repeated(s, log, requests[k], env(requests[k].operation), done[k], receipts[k])
    ensures forall k :: 0 <= k < |receipts| ==> Repeated(s, log', requests[k], env(requests[k].operation), done[k], receipts[k])
  {
    CommittedStays(log, log');
    forall k | 0 <= k < |receipts| ensures Repeated(s, log', requests[k], env(requests[k].operation), done[k], receipts[k]) {
      assert Repeated(s, log, requests[k], env(requests[k].operation), done[k], receipts[k]);
    }
  }

  lemma ListedIffPending(requests: seq<Request>, pending: map<OperationId, Request>)
    requires Lists(requests, pending)
    ensures AllRecoverable(requests) <==> AllMayRepeat(pending)
  {
    if AllRecoverable(requests) {
      forall op | op in pending ensures Recoverable(pending[op]) {
        assert Listed(requests, op);
      }
    }
  }

  /** Every open lease's workload has declared an intent that survived. */
  ghost predicate EveryLeaseHasIntent(log: Log) {
    forall l :: l in OpenLeases(log) ==> OpenLeases(log)[l] in Requests(log)
  }

  /** A list of exactly the pending requests, one per operation, in any order. */
  ghost predicate Lists(requests: seq<Request>, pending: map<OperationId, Request>) {
    && (forall i :: 0 <= i < |requests| ==> requests[i].operation in pending && pending[requests[i].operation] == requests[i])
    && (forall i, j :: 0 <= i < j < |requests| ==> requests[i].operation != requests[j].operation)
    && (forall op :: op in pending ==> Listed(requests, op))
  }

  ghost predicate Listed(requests: seq<Request>, op: OperationId) {
    exists i :: 0 <= i < |requests| && requests[i].operation == op
  }

  /** The pending operations that were committed already: an intent stands after their commit. */
  ghost function CommittedPending(log: Log): map<OperationId, Request> {
    map op | op in Pending(log) && Journal.HasKey(log, CommitKey(op)) :: Pending(log)[op]
  }

  lemma FinalCommitsLeaveNothing(log: Log)
    requires Keyed(log) && NoLateIntent(log)
    ensures CommittedPending(log) == map[]
  {
    forall op | op in Pending(log) ensures !Journal.HasKey(log, CommitKey(op)) {
      if Journal.HasKey(log, CommitKey(op)) {
        assert Final(log, op);
        CommittedIsNotPending(log, op);
      }
    }
  }

  /** What re-executing one pending operation did, when it succeeded. */
  ghost predicate Recovered(s: State, t: State, request: Request) {
    var op := request.operation;
    && s.log <= t.log && s.calls <= t.calls
    && (forall i :: |s.calls| <= i < |t.calls| ==> t.calls[i].request == request)
    && (forall i :: |s.log| <= i < |t.log| ==> t.log[i].record.op == op)
    && Journal.HasKey(t.log, CommitKey(op))
    && Pending(t.log) == (if Journal.HasKey(s.log, CommitKey(op)) then Pending(s.log) else Pending(s.log) - {op})
    && (forall p, y {:trigger Strong(t, p, y)} :: (p == op ==> y == request.workload) && Strong(s, p, y) ==> Strong(t, p, y))
  }

  lemma OnlyItsOwnPending(s: Log, t: Log, op: OperationId)
    requires s <= t && Keyed(t) && (forall i :: |s| <= i < |t| ==> t[i].record.op == op)
    requires op in Pending(s) && Settling(s, t, op) && Journal.HasKey(t, CommitKey(op))
    ensures Pending(t) == if Journal.HasKey(s, CommitKey(op)) then Pending(s) else Pending(s) - {op}
  {
    forall p | p != op ensures SamePending(s, t, p) {
      PendingOthers(s, t, p);
    }
    var expected := if Journal.HasKey(s, CommitKey(op)) then Pending(s) else Pending(s) - {op};
    forall p ensures p in Pending(t) <==> p in expected {
      assert p != op ==> SamePending(s, t, p);
    }
    forall p | p in expected ensures Pending(t)[p] == expected[p] {
      assert p != op ==> SamePending(s, t, p);
    }
  }

  /** Still to do: pending as at the start, and committed exactly if it was then. */
  ghost predicate Untouched(s: State, t: State, r: Request) {
    && r.operation in Pending(s.log) && Pending(s.log)[r.operation] == r
    && r.operation in Pending(t.log) && Pending(t.log)[r.operation] == r
    && (Journal.HasKey(t.log, CommitKey(r.operation)) <==> Journal.HasKey(s.log, CommitKey(r.operation)))
  }

  /** Done: committed now, and still pending only if it was committed at the start. */
  ghost predicate Handled(s: State, t: State, op: OperationId) {
    && op in Pending(s.log) && Journal.HasKey(t.log, CommitKey(op))
    && (if Journal.HasKey(s.log, CommitKey(op)) then op in Pending(t.log) && Pending(t.log)[op] == Pending(s.log)[op] else op !in Pending(t.log))
  }

  /** What was promised of an operation still holds, where its pending request is for the same workload. */
  ghost predicate KeepsPromises(s: State, t: State) {
    forall p, y {:trigger Strong(t, p, y)} :: (p in Pending(s.log) ==> Pending(s.log)[p].workload == y) && Strong(s, p, y) ==> Strong(t, p, y)
  }

  /** Recovery has come from `s` to `t`, with `rest` still to do. */
  ghost predicate Recovering(s: State, t: State, rest: seq<Request>) {
    && s.log <= t.log && s.calls <= t.calls
    && (forall i :: |s.calls| <= i < |t.calls| ==> Recoverable(t.calls[i].request))
    && (forall i :: 0 <= i < |rest| ==> Untouched(s, t, rest[i]))
    && (forall i, j :: 0 <= i < j < |rest| ==> rest[i].operation != rest[j].operation)
    && (forall op :: op in Pending(s.log) ==> Listed(rest, op) || Handled(s, t, op))
    && (forall op :: op in Pending(t.log) ==> op in Pending(s.log))
    && KeepsPromises(s, t)
  }

  lemma RecoveryBegins(s: State, requests: seq<Request>)
    requires Lists(requests, Pending(s.log))
    ensures Recovering(s, s, requests)
  {
  }

  lemma RestStaysUntouched(s: State, t: State, u: State, r: Request, q: Request)
    requires Recovered(t, u, r) && Untouched(s, t, q) && q.operation != r.operation && Keyed(u.log)
    ensures Untouched(s, u, q)
  {
    if Journal.HasKey(t.log, CommitKey(q.operation)) {
      KeyStays(t.log, u.log, CommitKey(q.operation));
    } else {
      StaysUncommitted(t.log, u.log, q.operation);
    }
  }

  lemma HandledStays(s: State, t: State, u: State, r: Request, op: OperationId)
    requires Recovered(t, u, r) && Handled(s, t, op) && op != r.operation
    ensures Handled(s, u, op)
  {
    KeyStays(t.log, u.log, CommitKey(op));
  }

  lemma RecoveringOn(s: State, t: State, u: State, rest: seq<Request>)
    requires Recovering(s, t, rest) && rest != [] && Recoverable(rest[0]) && Recovered(t, u, rest[0]) && Keyed(u.log)
    ensures Recovering(s, u, rest[1..])
  {
    var r, tail := rest[0], rest[1..];
    assert Untouched(s, t, r);
    forall i | 0 <= i < |tail| ensures Untouched(s, u, tail[i]) {
      assert tail[i] == rest[i + 1];
      RestStaysUntouched(s, t, u, r, rest[i + 1]);
    }
    forall op | op in Pending(s.log) ensures Listed(tail, op) || Handled(s, u, op) {
      if op != r.operation {
        if Listed(rest, op) {
          var i :| 0 <= i < |rest| && rest[i].operation == op;
          assert tail[i - 1].operation == op;
        } else {
          HandledStays(s, t, u, r, op);
        }
      }
    }
    forall p, y | (p in Pending(s.log) ==> Pending(s.log)[p].workload == y) && Strong(s, p, y) ensures Strong(u, p, y) {
      assert Strong(t, p, y);
    }
  }

  /** When nothing is left to do, what is pending was committed before recovery began. */
  lemma RecoveryEnds(s: State, t: State)
    requires Recovering(s, t, [])
    ensures Pending(t.log) == CommittedPending(s.log)
    ensures forall op :: op in Pending(s.log) ==> Journal.HasKey(t.log, CommitKey(op))
  {
    forall op | op in Pending(s.log) ensures Handled(s, t, op) {
      assert !Listed([], op);
    }
    forall op ensures op in Pending(t.log) <==> op in CommittedPending(s.log) {
      assert op in Pending(s.log) ==> Handled(s, t, op);
    }
    forall op | op in Pending(t.log) ensures Pending(t.log)[op] == CommittedPending(s.log)[op] {
      assert Handled(s, t, op);
    }
  }

  /** Recovery as a whole: leases revoked, then every pending operation re-executed. */
  lemma RecoveryAsAWhole(s: State, t: State, u: State)
    requires Keyed(s.log) && Harmless(s, t) && Recovering(t, u, [])
    ensures Pending(u.log) == CommittedPending(s.log) && KeepsPromises(s, u)
    ensures forall op :: op in Pending(s.log) ==> Journal.HasKey(u.log, CommitKey(op))
    ensures NoLateIntent(s.log) ==> Pending(u.log) == map[]
  {
    RecoveryEnds(t, u);
    assert CommittedPending(t.log) == CommittedPending(s.log);
    if NoLateIntent(s.log) {
      FinalCommitsLeaveNothing(s.log);
    }
    forall p, y | (p in Pending(s.log) ==> Pending(s.log)[p].workload == y) && Strong(s, p, y) ensures Strong(u, p, y) {
      assert Strong(t, p, y);
    }
  }

  /** Revocation and re-execution together. */
  lemma RecoverConcludes(s: State, t: State, u: State, requests: seq<Request>, env: OperationId -> Answers, done: seq<Outcome>, r: Result<seq<Receipt>, Error>)
    requires Keyed(s.log) && Harmless(s, t) && t.leases == s.leases && Lists(requests, Pending(s.log)) && Outcomes(t, u, requests, env, done, r)
    ensures s.log <= u.log && s.calls <= u.calls && forall i :: |s.calls| <= i < |u.calls| ==> Recoverable(u.calls[i].request)
    ensures SuccessesCommitted(u.log, requests, done)
    ensures forall i :: 0 <= i < |done| ==> Executed(s, requests[i], env(requests[i].operation), done[i])
    ensures s.leases == map[] && (forall op :: Good(env(op))) ==> (r.Ok? <==> AllMayRepeat(Pending(s.log)))
    ensures r.Ok? ==> ReceiptsHold(s, u.log, requests, r.value) && Pending(u.log) == CommittedPending(s.log) && KeepsPromises(s, u)
    ensures r.Ok? ==> forall op :: op in Pending(s.log) ==> Journal.HasKey(u.log, CommitKey(op))
    ensures r.Ok? && NoLateIntent(s.log) ==> Pending(u.log) == map[]
  {
    forall i | 0 <= i < |done| ensures Executed(s, requests[i], env(requests[i].operation), done[i]) {
      assert Executed(t, requests[i], env(requests[i].operation), done[i]);
    }
    ListedIffPending(requests, Pending(s.log));
    if s.leases == map[] && forall op :: Good(env(op)) {
      GoodRecoveryIff(s, requests, done, r, env);
    }
    if r.Ok? {
      RecoveryAsAWhole(s, t, u);
      forall k | 0 <= k < |requests| && Strong(s, requests[k].operation, requests[k].workload)
        ensures CommittedWith(u.log, requests[k].workload, requests[k].operation, r.value[k])
      {
        assert Strong(t, requests[k].operation, requests[k].workload);
      }
    }
  }
}
