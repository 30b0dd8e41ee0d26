/**
 Transactional effects. Executing a transaction takes the lock twice, with the
 effector called in between and without the lock; other calls interleave, and a
 caller may vanish inside the effector.
 */
module Effects {
  import opened Prelude

  datatype Intent = Intent(target: nat, details: nat)

  datatype Receipt = Receipt(target: nat, success: bool, details: nat)

  datatype Phase = Planned | Authorized | Prepared | Verified | Committed | Failed

  datatype Transaction = Transaction(key: nat, intent: Intent, phase: Phase, receipt: Option<Receipt>, authorization: Option<nat>)

  /** One invocation of the effector. */
  datatype Call = Call(transaction: nat, intent: Intent, answer: Option<Receipt>)

  /** A thread inside `execute`: before or after its effector call. */
  datatype Running = Begun(transaction: nat) | Answered(transaction: nat, answer: Option<Receipt>)

  datatype State = State(
    transactions: map<nat, Transaction>,
    index: map<nat, nat>,
    next: nat,
    running: map<nat, Running>,
    calls: seq<Call>)

  datatype Action =
    | Plan(key: nat, intent: Intent)
    | Authorize(transaction: nat, reference: nat)
    | Begin(thread: nat, transaction: nat)
    | Invoke(thread: nat, answer: Option<Receipt>)
    | Finish(thread: nat)
    | Vanish(thread: nat)
    | Commit(transaction: nat)

  predicate InPhase(s: State, x: nat, p: Phase) {
    x in s.transactions && s.transactions[x].phase == p
  }

  predicate Matches(r: Receipt, intent: Intent) {
    r.success && r.target == intent.target
  }

  predicate Enabled(s: State, a: Action) {
    match a
    case Begin(t, _) => t !in s.running
    case Invoke(t, _) => t in s.running && s.running[t].Begun? && s.running[t].transaction in s.transactions
    case Finish(t) => t in s.running && s.running[t].Answered? && s.running[t].transaction in s.transactions
    case Vanish(t) => t in s.running
    case _ => true
  }

  function Settled(x: Transaction, answer: Option<Receipt>): Transaction {
    if answer.None? then x.(phase := Failed)
    else if !Matches(answer.value, x.intent) then x.(phase := Failed, receipt := answer)
    else x.(phase := Verified, receipt := answer)
  }

  function Do(s: State, a: Action): State
    requires Enabled(s, a)
  {
    match a
    case Plan(k, intent) =>
      if k in s.index then s
      else s.(transactions := s.transactions[s.next := Transaction(k, intent, Planned, None, None)],
              index := s.index[k := s.next], next := s.next + 1)
    case Authorize(x, reference) =>
      if !InPhase(s, x, Planned) then s
      else s.(transactions := s.transactions[x := s.transactions[x].(phase := Authorized, authorization := Some(reference))])
    case Begin(t, x) =>
      if !InPhase(s, x, Authorized) then s
      else s.(transactions := s.transactions[x := s.transactions[x].(phase := Prepared)], running := s.running[t := Begun(x)])
    case Invoke(t, answer) =>
      var x := s.running[t].transaction;
      s.(running := s.running[t := Answered(x, answer)], calls := s.calls + [Call(x, s.transactions[x].intent, answer)])
    case Finish(t) =>
      var x := s.running[t].transaction;
      s.(transactions := s.transactions[x := Settled(s.transactions[x], s.running[t].answer)], running := s.running - {t})
    case Vanish(t) => s.(running := s.running - {t})
    case Commit(x) =>
      if !InPhase(s, x, Verified) then s
      else s.(transactions := s.transactions[x := s.transactions[x].(phase := Committed)])
  }

  ghost predicate StepAt(run: seq<State>, acts: seq<Action>, i: nat)
    requires i + 1 < |run| && i < |acts|
  {
    Enabled(run[i], acts[i]) && run[i + 1] == Do(run[i], acts[i])
  }

  ghost predicate IsRun(run: seq<State>, acts: seq<Action>) {
    && |run| == |acts| + 1 && run[0] == State(map[], map[], 0, map[], [])
    && forall i :: 0 <= i < |acts| ==> StepAt(run, acts, i)
  }

  // ---------------------------------------------------------------------------
  // Invariants
  // ---------------------------------------------------------------------------

  /** The idempotency index and the transactions name each other. */
  ghost predicate Consistent(s: State) {
    && (forall k :: k in s.index ==> s.index[k] in s.transactions && s.transactions[s.index[k]].key == k)
    && (forall x :: x in s.transactions ==> x < s.next && s.transactions[x].key in s.index && s.index[s.transactions[x].key] == x)
  }

  ghost predicate Called(s: State, x: nat) {
    exists i :: 0 <= i < |s.calls| && s.calls[i].transaction == x
  }

  ghost predicate CalledWith(s: State, x: nat, answer: Option<Receipt>) {
    exists i :: 0 <= i < |s.calls| && s.calls[i].transaction == x && s.calls[i].answer == answer
  }

  /** One effector call per transaction, on its own intent, once it was authorized. */
  ghost predicate OneCall(s: State) {
    && (forall i, j :: 0 <= i < j < |s.calls| ==> s.calls[i].transaction != s.calls[j].transaction)
    && (forall i :: 0 <= i < |s.calls| ==>
          var c := s.calls[i];
          c.transaction in s.transactions && s.transactions[c.transaction].intent == c.intent)
  }

  ghost predicate PhaseFits(s: State, x: nat)
    requires x in s.transactions
  {
    var t := s.transactions[x];
    && (t.phase in {Planned, Authorized} ==> !Called(s, x))
    && (t.phase != Planned ==> t.authorization.Some?)
    && (t.phase in {Verified, Committed} ==> t.receipt.Some? && Matches(t.receipt.value, t.intent) && CalledWith(s, x, t.receipt))
  }

  ghost predicate Tracked(s: State) {
    && (forall t :: t in s.running ==> InPhase(s, s.running[t].transaction, Prepared))
    && (forall t, u :: t in s.running && u in s.running && s.running[t].transaction == s.running[u].transaction ==> t == u)
    && (forall t :: t in s.running && s.running[t].Begun? ==> !Called(s, s.running[t].transaction))
    && (forall t :: t in s.running && s.running[t].Answered? ==> CalledWith(s, s.running[t].transaction, s.running[t].answer))
  }

  ghost predicate Inv(s: State) {
    && Consistent(s) && OneCall(s) && Tracked(s)
    && (forall x :: x in s.transactions ==> PhaseFits(s, x))
  }

  lemma SameCalls(s: State, s': State)
    requires s'.calls == s.calls
    ensures forall x :: Called(s', x) <==> Called(s, x)
    ensures forall x, a :: CalledWith(s', x, a) <==> CalledWith(s, x, a)
  {}

  lemma MoreCalls(s: State, s': State, c: Call)
    requires s'.calls == s.calls + [c]
    ensures forall x :: Called(s', x) <==> Called(s, x) || x == c.transaction
    ensures forall x, a :: CalledWith(s', x, a) <==> CalledWith(s, x, a) || (x == c.transaction && a == c.answer)
  {
    assert s'.calls[|s.calls|] == c;
    forall x | Called(s, x) ensures Called(s', x) {
      var i :| 0 <= i < |s.calls| && s.calls[i].transaction == x;
      assert s'.calls[i] == s.calls[i];
    }
    forall x, a | CalledWith(s, x, a) ensures CalledWith(s', x, a) {
      var i :| 0 <= i < |s.calls| && s.calls[i].transaction == x && s.calls[i].answer == a;
      assert s'.calls[i] == s.calls[i];
    }
  }

  lemma InvokeKeepsInv(s: State, t: nat, answer: Option<Receipt>)
    requires Inv(s) && Enabled(s, Invoke(t, answer))
    ensures Inv(Do(s, Invoke(t, answer)))
  {
    var s' := Do(s, Invoke(t, answer));
    MoreCalls(s, s', s'.calls[|s.calls|]);
    forall x | x in s'.transactions ensures PhaseFits(s', x) {
      assert PhaseFits(s, x);
    }
    forall i, j | 0 <= i < j < |s'.calls| ensures s'.calls[i].transaction != s'.calls[j].transaction {
      if j == |s.calls| {
        assert !Called(s, s.running[t].transaction);
        assert s.calls[i] == s'.calls[i];
      }
    }
  }

  lemma UnknownIsUncalled(s: State, x: nat)
    requires OneCall(s) && x !in s.transactions
    ensures !Called(s, x)
  {}

  lemma QuietKeepsConsistent(s: State, a: Action)
    requires Consistent(s) && OneCall(s) && Enabled(s, a) && !a.Invoke?
    ensures Consistent(Do(s, a)) && OneCall(Do(s, a))
  {}

  lemma BeginKeepsTracked(s: State, t: nat, x: nat)
    requires Tracked(s) && t !in s.running && InPhase(s, x, Authorized) && !Called(s, x)
    ensures Tracked(Do(s, Begin(t, x)))
  {
    SameCalls(s, Do(s, Begin(t, x)));
  }

  lemma FinishKeepsTracked(s: State, t: nat)
    requires Tracked(s) && Enabled(s, Finish(t))
    ensures Tracked(Do(s, Finish(t)))
  {
    SameCalls(s, Do(s, Finish(t)));
  }

  lemma QuietKeepsTracked(s: State, a: Action)
    requires Consistent(s) && Tracked(s) && Enabled(s, a) && !a.Invoke?
    requires a.Begin? && InPhase(s, a.transaction, Authorized) ==> !Called(s, a.transaction)
    ensures Tracked(Do(s, a))
  {
    if a.Begin? {
      if InPhase(s, a.transaction, Authorized) {
        BeginKeepsTracked(s, a.thread, a.transaction);
      }
    } else if a.Finish? {
      FinishKeepsTracked(s, a.thread);
    } else {
      SameCalls(s, Do(s, a));
    }
  }

  lemma QuietKeepsPhase(s: State, a: Action, x: nat)
    requires Consistent(s) && Tracked(s) && Enabled(s, a) && !a.Invoke? && x in Do(s, a).transactions
    requires if x in s.transactions then PhaseFits(s, x) else !Called(s, x)
    ensures PhaseFits(Do(s, a), x)
  {
    SameCalls(s, Do(s, a));
  }

  /** A step that makes no effector call. */
  lemma QuietKeepsInv(s: State, a: Action)
    requires Inv(s) && Enabled(s, a) && !a.Invoke?
    ensures Inv(Do(s, a))
  {
    QuietKeepsConsistent(s, a);
    if a.Begin? && InPhase(s, a.transaction, Authorized) {
      assert PhaseFits(s, a.transaction);
    }
    QuietKeepsTracked(s, a);
    forall x | x in Do(s, a).transactions ensures PhaseFits(Do(s, a), x) {
      if x !in s.transactions {
        UnknownIsUncalled(s, x);
      }
      QuietKeepsPhase(s, a, x);
    }
  }

  lemma StepKeepsInv(s: State, a: Action)
    requires Inv(s) && Enabled(s, a)
    ensures Inv(Do(s, a))
  {
    if a.Invoke? {
      InvokeKeepsInv(s, a.thread, a.answer);
    } else {
      QuietKeepsInv(s, a);
    }
  }

  lemma {:induction false} EveryRunKeepsInv(run: seq<State>, acts: seq<Action>, i: nat)
    requires IsRun(run, acts) && i < |run|
    ensures Inv(run[i])
  {
    if i > 0 {
      EveryRunKeepsInv(run, acts, i - 1);
      assert StepAt(run, acts, i - 1);
      StepKeepsInv(run[i - 1], acts[i - 1]);
    }
  }

  // ---------------------------------------------------------------------------
  // Main results
  // ---------------------------------------------------------------------------

  /** In every run the effector is called at most once per transaction, on its intent, after its authorization. */
  lemma EffectorRunsAtMostOnce(run: seq<State>, acts: seq<Action>, n: nat, i: nat)
    requires IsRun(run, acts) && n < |run| && i < |run[n].calls|
    ensures forall j :: 0 <= j < |run[n].calls| && run[n].calls[j].transaction == run[n].calls[i].transaction ==> j == i
    ensures var c := run[n].calls[i];
            c.transaction in run[n].transactions && run[n].transactions[c.transaction].intent == c.intent && run[n].transactions[c.transaction].authorization.Some?
  {
    EveryRunKeepsInv(run, acts, n);
    var s := run[n];
    var x := s.calls[i].transaction;
    assert Called(s, x) && PhaseFits(s, x);
  }

  /** A verified or committed effect carries the receipt its one effector call answered, for the intended target. */
  lemma VerifiedMeansDone(run: seq<State>, acts: seq<Action>, n: nat, x: nat) returns (i: nat)
    requires IsRun(run, acts) && n < |run| && (InPhase(run[n], x, Verified) || InPhase(run[n], x, Committed))
    ensures i < |run[n].calls| && run[n].calls[i].transaction == x && run[n].calls[i].answer == run[n].transactions[x].receipt
    ensures run[n].transactions[x].receipt.Some? && run[n].transactions[x].receipt.value.success
    ensures run[n].transactions[x].receipt.value.target == run[n].transactions[x].intent.target
  {
    EveryRunKeepsInv(run, acts, n);
    var s := run[n];
    assert PhaseFits(s, x);
    i :| i < |s.calls| && s.calls[i].transaction == x && s.calls[i].answer == s.transactions[x].receipt;
  }

  /** Planning again under a used key finds the one transaction of that key. */
  lemma IndexAndTransactionsAgree(run: seq<State>, acts: seq<Action>, n: nat, k: nat, x: nat)
    requires IsRun(run, acts) && n < |run|
    ensures (k in run[n].index && run[n].index[k] == x) <==> (x in run[n].transactions && run[n].transactions[x].key == k)
  {
    EveryRunKeepsInv(run, acts, n);
  }

  /** Phases a transaction passes through, in order; failure ends it. */
  function Rank(p: Phase): nat {
    match p
    case Planned => 0
    case Authorized => 1
    case Prepared => 2
    case Verified => 3
    case Failed => 4
    case Committed => 4
  }

  lemma PhaseAdvances(s: State, a: Action, x: nat)
    requires Consistent(s) && Tracked(s) && Enabled(s, a) && x in s.transactions
    ensures x in Do(s, a).transactions && Rank(s.transactions[x].phase) <= Rank(Do(s, a).transactions[x].phase)
    ensures s.transactions[x].phase in {Failed, Committed} ==> Do(s, a).transactions[x] == s.transactions[x]
  {}

  lemma {:induction false} PhasesOnlyAdvance(run: seq<State>, acts: seq<Action>, i: nat, j: nat, x: nat)
    requires IsRun(run, acts) && i <= j < |run| && x in run[i].transactions
    ensures x in run[j].transactions && Rank(run[i].transactions[x].phase) <= Rank(run[j].transactions[x].phase)
    ensures run[i].transactions[x].phase in {Failed, Committed} ==> run[j].transactions[x] == run[i].transactions[x]
  {
    if i < j {
      PhasesOnlyAdvance(run, acts, i, j - 1, x);
      EveryRunKeepsInv(run, acts, j - 1);
      assert StepAt(run, acts, j - 1);
      PhaseAdvances(run[j - 1], acts[j - 1], x);
    }
  }

  // ---------------------------------------------------------------------------
  // The engine object
  // ---------------------------------------------------------------------------

  datatype Error = NotFound | FailedPrecondition | PermissionDenied | SecurityPolicy | EffectorError

  predicate Foreign(a: Action, t: nat) {
    match a
    case Begin(u, _) => u != t
    case Invoke(u, _) => u != t
    case Finish(u) => u != t
    case Vanish(u) => u != t
    case _ => true
  }

  /** What a thread inside `execute` may count on. */
  ghost predicate Spares(s: State, s': State, t: nat) {
    && (t in s.running <==> t in s'.running) && (t in s.running ==> s'.running[t] == s.running[t])
    && s.calls <= s'.calls
    && (forall x :: x in s.transactions ==> x in s'.transactions && s'.transactions[x].intent == s.transactions[x].intent)
    && (t in s.running && s.running[t].transaction in s.transactions ==>
          var x := s.running[t].transaction; x in s'.transactions && s'.transactions[x] == s.transactions[x])
  }

  lemma IntentsStay(s: State, a: Action, x: nat)
    requires Enabled(s, a) && x in s.transactions && x != s.next
    ensures x in Do(s, a).transactions && Do(s, a).transactions[x].intent == s.transactions[x].intent
  {}

  lemma ForeignStepsSpare(s: State, a: Action, t: nat)
    requires Consistent(s) && Tracked(s) && Enabled(s, a) && Foreign(a, t)
    ensures Spares(s, Do(s, a), t)
  {
    forall x | x in s.transactions ensures x in Do(s, a).transactions && Do(s, a).transactions[x].intent == s.transactions[x].intent {
      IntentsStay(s, a, x);
    }
  }

  class TransactionalEffectEngine {
    var transactions: map<nat, Transaction>
    var index: map<nat, nat>
    var next: nat
    var running: map<nat, Running>
    var calls: seq<Call>

    function View(): State
      reads this
    {
      State(transactions, index, next, running, calls)
    }

    ghost predicate Valid()
      reads this
    {
      Inv(View())
    }

    constructor ()
      ensures Valid() && View() == State(map[], map[], 0, map[], [])
    {
      transactions, index, next, running, calls := map[], map[], 0, map[], [];
    }

    /** One lock section, or one effector call. */
    method Perform(a: Action)
      requires Valid() && Enabled(View(), a)
      modifies this
      ensures Valid() && View() == Do(old(View()), a)
    {
      StepKeepsInv(View(), a);
      var s := Do(View(), a);
      transactions, index, next, running, calls := s.transactions, s.index, s.next, s.running, s.calls;
    }

    method Interfere(t: nat)
      requires Valid()
      modifies this
      ensures Valid() && Spares(old(View()), View(), t)
    {
      var steps: nat := *;
      while steps > 0
        invariant Valid() && Spares(old(View()), View(), t)
      {
        var a: Action := *;
        if Enabled(View(), a) && Foreign(a, t) {
          ForeignStepsSpare(View(), a, t);
          Perform(a);
        }
        steps := steps - 1;
      }
    }

    /** A used key answers with its transaction and changes nothing; a new key makes one. */
    method PlanEffect(key: nat, intent: Intent) returns (x: nat)
      requires Valid()
      modifies this
      ensures Valid() && x in transactions && transactions[x].key == key && key in index && index[key] == x
      ensures key in old(index) ==> View() == old(View())
      ensures key !in old(index) ==> x !in old(transactions)
      ensures key !in old(index) ==>
                View() == old(View()).(transactions := old(transactions)[x := Transaction(key, intent, Planned, None, None)], index := old(index)[key := x], next := x + 1)
    {
      Perform(Plan(key, intent));
      x := index[key];
    }

    method AuthorizeEffect(x: nat, reference: nat) returns (r: Result<(), Error>)
      requires Valid()
      modifies this
      ensures Valid() && (r.Ok? <==> InPhase(old(View()), x, Planned))
      ensures r.Ok? ==> View() == old(View()).(transactions := old(transactions)[x := old(transactions)[x].(phase := Authorized, authorization := Some(reference))])
      ensures r.Err? ==> View() == old(View()) && (r.error == NotFound <==> x !in transactions)
    {
      if x !in transactions {
        return Err(NotFound);
      }
      if transactions[x].phase != Planned {
        return Err(FailedPrecondition);
      }
      Perform(Authorize(x, reference));
      r := Ok(());
    }

    /**
     The effector is called by this call exactly when the transaction was
     authorized and not yet begun. Success means a receipt that matches the
     intent, from this call or from the one that verified it before.
     */
    method ExecuteEffect(t: nat, x: nat, answer: Option<Receipt>) returns (r: Result<Receipt, Error>)
      requires Valid() && t !in running
      modifies this
      ensures Valid() && t !in running
      ensures InPhase(old(View()), x, Authorized) ==> exists i :: |old(calls)| <= i < |calls| && calls[i] == Call(x, old(transactions)[x].intent, answer)
      ensures InPhase(old(View()), x, Authorized) ==>
                && r == (if answer.None? then Err(EffectorError)
                         else if answer.value.success && answer.value.target == old(transactions)[x].intent.target then Ok(answer.value)
                         else Err(SecurityPolicy))
                && x in transactions
                && transactions[x] == old(transactions)[x].(phase := if r.Ok? then Verified else Failed,
                                                            receipt := if answer.Some? then answer else old(transactions)[x].receipt)
      ensures !InPhase(old(View()), x, Authorized) ==> View() == old(View())
      ensures InPhase(old(View()), x, Verified) || InPhase(old(View()), x, Committed) ==>
                r.Ok? && Some(r.value) == old(transactions)[x].receipt && r.value.success && r.value.target == old(transactions)[x].intent.target
      ensures x !in old(transactions) ==> r == Err(NotFound)
      ensures x in old(transactions) && old(transactions)[x].phase in {Planned, Prepared, Failed} ==> r == Err(PermissionDenied)
    {
      if x !in transactions {
        return Err(NotFound);
      }
      var intent := transactions[x].intent;
      assert PhaseFits(View(), x);
      if transactions[x].phase == Verified || transactions[x].phase == Committed {
        return Ok(transactions[x].receipt.value);
      }
      if transactions[x].phase != Authorized {
        return Err(PermissionDenied);
      }
      Perform(Begin(t, x));
      Interfere(t);
      ghost var at := |calls|;
      Perform(Invoke(t, answer));
      assert calls[at] == Call(x, intent, answer);
      Interfere(t);
      assert calls[at] == Call(x, intent, answer);
      Perform(Finish(t));
      r := if answer.None? then Err(EffectorError) else if !Matches(answer.value, intent) then Err(SecurityPolicy) else Ok(answer.value);
    }

    method CommitEffect(x: nat) returns (r: Result<(), Error>)
      requires Valid()
      modifies this
      ensures Valid() && (r.Ok? <==> InPhase(old(View()), x, Verified))
      ensures r.Ok? ==> View() == old(View()).(transactions := old(transactions)[x := old(transactions)[x].(phase := Committed)])
      ensures r.Err? ==> View() == old(View()) && (r.error == NotFound <==> x !in transactions)
    {
      if x !in transactions {
        return Err(NotFound);
      }
      if transactions[x].phase != Verified {
        return Err(FailedPrecondition);
      }
      Perform(Commit(x));
      r := Ok(());
    }
  }
}
