/**
 `KernelRuntime` as an object. Its methods follow the source statement by
 statement; every atomic section is one action of `KernelSystem`, and between
 two sections `Interfere` lets every other caller take any steps at all.

 `mine` is the set of operations that others leave alone, possibly none; `alone`
 says that no other caller runs, as during recovery at start-up. What a method
 promises without an antecedent about `mine` holds whoever else is running, on
 the same operations too.
 */
module KernelRuntime {
  import opened Prelude
  import Journal
  import opened KernelSystem
  import opened KernelBase
  import opened KernelScript
  import opened KernelExactlyOnce
  import opened KernelRecovery
  import opened KernelRely
  import opened KernelPlan
  import opened KernelRevival

  class KernelRuntime {
    var log: Log
    var leases: map<LeaseId, Lease>
    var nextLease: LeaseId
    var workers: map<WorkerId, Worker>
    var nextWorker: WorkerId
    var calls: seq<Call>
    var returned: seq<Return>
    ghost var run: seq<State>
    ghost var acts: seq<Action>

    function View(): State
      reads this
    {
      State(log, leases, nextLease, workers, calls, returned)
    }

    ghost predicate Valid()
      reads this
    {
      Sane(View(), nextWorker, run, acts)
    }

    /** The caller is the only one on its operation, and stays so. */
    ghost predicate Exclusive(op: OperationId, mine: set<OperationId>)
      reads this
    {
      op in mine && Idle(View(), mine)
    }

    /** Opening any journal a run can leave behind: everything but the journal and the past is gone. */
    constructor Open(before: State)
      requires Base(before)
      ensures Valid() && View() == Do(before, Crash)
    {
      StepKeepsBase(before, Crash);
      log, leases, nextLease := before.log, map[], before.nextLease;
      workers, nextWorker := map[], 0;
      calls, returned := before.calls, before.returned;
      run, acts := [Do(before, Crash)], [];
    }

    /** One atomic section. */
    method Perform(a: Action)
      requires Valid() && Enabled(View(), a) && (a.Spawn? ==> a.id == nextWorker)
      modifies this
      ensures Valid() && View() == Do(old(View()), a)
      ensures nextWorker == if a.Spawn? then old(nextWorker) + 1 else old(nextWorker)
      ensures run == old(run) + [View()] && acts == old(acts) + [a]
    {
      SaneOn(View(), nextWorker, run, acts, a);
      run, acts := run + [Do(View(), a)], acts + [a];
      var s := Do(View(), a);
      log, leases, nextLease, workers := s.log, s.leases, s.nextLease, s.workers;
      calls, returned := s.calls, s.returned;
      if a.Spawn? {
        nextWorker := nextWorker + 1;
      }
    }

    /** Other callers than `me` run, any number of steps; leases expire, their own or anybody's. */
    method Interfere(mine: set<OperationId>, me: Option<WorkerId>, alone: bool)
      requires Valid()
      modifies this
      ensures Valid() && Meanwhile(old(View()), View(), old(run), run, old(acts), acts, mine, me)
      ensures alone ==> View() == old(View()) && nextWorker == old(nextWorker)
    {
      if alone {
        return;
      }
      var steps: nat := *;
      while steps > 0
        invariant Valid() && Meanwhile(old(View()), View(), old(run), run, old(acts), acts, mine, me)
      {
        var a: Action := *;
        if (a.Spawn? ==> a.id == nextWorker) && (a.By? ==> Some(a.id) != me) && (a.By? ==> a.id in workers && Ready(log, leases, workers[a.id], a.act)) &&
           (a.Note? ==> Noted(a.row)) && (a.Expire? ==> a.lease in leases) && Foreign(View(), a, mine)
        {
          MeanwhileOn(old(View()), View(), old(run), run, old(acts), acts, mine, me, a);
          Perform(a);
        }
        steps := steps - 1;
      }
    }

    /** Worker `me` takes one step, then others run. */
    method Advance(me: WorkerId, act: Act, ghost s: State, ghost request: Request, mine: set<OperationId>, alone: bool, ghost sole: bool)
      requires Valid() && Going(s, View(), request, me, mine, alone, sole) && Ready(log, leases, workers[me], act)
      modifies this
      ensures Valid() && Going(s, View(), request, me, mine, alone, sole)
      ensures Onward(old(View()), View(), old(run), run, old(acts), acts)
      ensures workers[me] == old(workers[me]).(pc := NextPc(old(log), old(leases), old(nextLease), old(workers[me]), act))
      ensures History(acts, |acts|, me) == old(History(acts, |acts|, me)) + [act]
      ensures Journaled(old(log), log, request, Appends(old(workers[me]), act), alone)
      ensures alone ==> View() == DoBy(old(View()), me, act)
    {
      ghost var t, wk := View(), workers[me];
      StepIsLasting(t, By(me, act));
      HistoryOn(acts, By(me, act), me);
      Perform(By(me, act));
      ghost var mid := log;
      Interfere(mine, Some(me), alone);
      GoingOn(s, t, me, act, View(), request, mine, alone, sole);
      WrittenIsJournaled(t.log, mid, log, request, wk, act, alone);
    }

    /** Worker `me` runs to its end. */
    method RunToEnd(me: WorkerId, request: Request, a: Answers, ghost s: State, mine: set<OperationId>, alone: bool, ghost sole: bool)
      returns (result: Outcome, ghost f: Findings, ghost l: LeaseId)
      requires Valid() && Going(s, View(), request, me, mine, alone, sole) && s.nextLease !in s.leases
      requires Following(s, View(), acts, request, me, a, FindingsAt(s, request), nextLease, [], [], alone)
      modifies this
      ensures Valid() && Onward(old(View()), View(), old(run), run, old(acts), acts) && Going(s, View(), request, me, mine, alone, sole)
      ensures workers[me].pc == Done(result)
      ensures exists done, rows :: Following(s, View(), acts, request, me, a, f, l, done, rows, alone)
    {
      f, l := FindingsAt(s, request), nextLease;
      ghost var done: seq<Act>, rows: seq<Body> := [], [];
      while !workers[me].pc.Done?
        invariant Valid() && Onward(old(View()), View(), old(run), run, old(acts), acts) && Going(s, View(), request, me, mine, alone, sole)
        invariant Following(s, View(), acts, request, me, a, f, l, done, rows, alone)
        decreases Rank(workers[me].pc)
      {
        ghost var t, before := View(), acts;
        var act := Chosen(a, log, leases, workers[me]);
        CourseOn(a, f, l, log, leases, nextLease, workers[me], done, rows);
        RankDecreases(log, leases, nextLease, workers[me], act);
        Advance(me, act, s, request, mine, alone, sole);
        FollowingOn(s, t, View(), before, acts, request, me, a, f, l, done, rows, alone, act);
        f, l := Finds(f, t.log, t.leases, t.workers[me]), if act.Grant? then t.nextLease else l;
        done, rows := done + [act], rows + Appends(t.workers[me], act);
      }
      result := workers[me].pc.result;
    }

    /** A request arrives. */
    method Arrive(request: Request, ghost a: Answers, mine: set<OperationId>, alone: bool) returns (id: WorkerId)
      requires Valid()
      modifies this
      ensures Valid() && Onward(old(View()), View(), old(run), run, old(acts), acts) && id !in old(workers)
      ensures Going(old(View()), View(), request, id, mine, alone, old(Exclusive(request.operation, mine)))
      ensures Following(old(View()), View(), acts, request, id, a, FindingsAt(old(View()), request), nextLease, [], [], alone)
      ensures old(nextLease) !in old(leases)
    {
      id := nextWorker;
      SpawnIsGoing(View(), id, request, mine, alone, Exclusive(request.operation, mine));
      HistoryOn(acts, Spawn(id, request), id);
      StepIsLasting(View(), Spawn(id, request));
      Perform(Spawn(id, request));
    }

    /**
     `execute_internal`, given the environment's answers. Whoever else runs, on this
     operation too: the execution takes the scripted steps, offers the scripted rows and
     returns the scripted result for what its lookups find; success means that the
     operation is committed, and it returns the committed receipt if the operation kept
     to its workload with one caller at a time between lookup and receipt. With nobody
     else running, the journal, the leases and the calls are exactly the scripted ones.

     For the only caller on its operation, a commit made by this execution settles
     it. Where the promise to the operation holds so far, it holds afterwards,
     success returns the committed receipt, and a retryable failure means that
     nothing is committed.
     */
    method Execute(request: Request, a: Answers, mine: set<OperationId>, alone: bool)
      returns (result: Outcome, ghost me: WorkerId, ghost f: Findings, ghost l: LeaseId)
      requires Valid()
      modifies this
      ensures Valid() && Onward(old(View()), View(), old(run), run, old(acts), acts)
      ensures me !in old(workers) && me in workers && workers[me] == Worker(request, Done(result))
      ensures result == Verdict(a, f) && History(acts, |acts|, me) == Script(a, f) && AllStored(log, request.operation, Rows(a, f, request, l))
      ensures f.first == old(Committed(log, request))
      ensures alone ==> f == FindingsAt(old(View()), request) && log == Offer(old(log), request, Rows(a, f, request, l))
      ensures alone ==> (f.leased <==> exists m :: m in old(leases) && old(leases)[m].workload == request.workload && !old(leases)[m].expired)
      ensures alone ==> leases == old(leases) && |calls| == |old(calls)| + if Calls(a, f) then 1 else 0
      ensures result.Ok? ==> Journal.HasKey(log, CommitKey(request.operation))
      ensures result.Ok? && Promised(run, acts, |old(acts)|, request.operation, request.workload) ==>
                CommittedWith(log, request.workload, request.operation, result.value)
      ensures old(Exclusive(request.operation, mine)) ==> Idle(View(), mine) && Progress(old(View()), View(), request, mine, alone)
      ensures old(Exclusive(request.operation, mine)) && result.Ok? ==> Settling(old(log), log, request.operation)
      ensures old(Exclusive(request.operation, mine) && Strong(View(), request.operation, request.workload)) && result.Ok? ==>
                CommittedWith(log, request.workload, request.operation, result.value)
      ensures old(Exclusive(request.operation, mine) && Strong(View(), request.operation, request.workload)) && result.Err? && Retryable(result.error) ==>
                !Journal.HasKey(log, CommitKey(request.operation))
    {
      ghost var s, sole := View(), Exclusive(request.operation, mine);
      var id := Arrive(request, a, mine, alone);
      me := id;
      result, f, l := RunToEnd(id, request, a, s, mine, alone, sole);
      ghost var done, rows :| Following(s, View(), acts, request, id, a, f, l, done, rows, alone);
      EndOfCourse(s, View(), acts, request, id, a, f, l, done, rows, alone);
      EndOfExecution(s, View(), request, id, mine, alone, sole);
      if Promised(run, acts, |old(acts)|, request.operation, request.workload) {
        PromiseHolds(run, acts, |old(acts)|, |acts|, request.operation, request.workload);
        assert WorkerStrong(log, request.workload, workers[id]);
      }
    }

    // -------------------------------------------------------------------------
    // Continuity plans
    // -------------------------------------------------------------------------

    /** An observation or rebinding intent outside any lease, unless the append fails. */
    method Record(request: Request, body: Body, stored: bool, mine: set<OperationId>, alone: bool)
      requires Valid() && Noted(RowFor(request, body))
      modifies this
      ensures Valid() && Quiet(old(View()), View(), mine) && Onward(old(View()), View(), old(run), run, old(acts), acts)
      ensures (body.Intent? ==> !old(Journal.HasKey(log, CommitKey(request.operation)))) ==> KeepsFinal(old(log), log, mine, false)
      ensures stored ==> Journal.HasKey(log, KeyOf(request.operation, body))
      ensures !stored ==> View() == old(View())
      ensures request.operation in mine && !body.Intent? ==> SamePending(old(log), log, request.operation)
      ensures request.operation in mine && body.Intent? && stored && !old(Journal.HasKey(log, KeyOf(request.operation, body))) ==>
                request.operation in Pending(log) && Pending(log)[request.operation] == body.request
    {
      ghost var s := View();
      if stored {
        var row := RowFor(request, body);
        StepIsLasting(s, Note(row));
        Journal.HasKeyAppend(log, row, KeyOf(request.operation, body));
        Perform(Note(row));
        ghost var mid := log;
        Interfere(mine, None, alone);
        KeyStays(mid, log, KeyOf(request.operation, body));
        NoteThenOthers(s, row, View(), mine);
        if request.operation in mine {
          NotePending(s, row, View(), mine);
        }
      }
    }

    /**
     `cancel`, `active` being the request its workload is executing. It records that
     cancellation was asked for, and settles nothing itself.
     */
    method Cancel(active: Option<Request>, stored: bool, mine: set<OperationId>, alone: bool) returns (r: Result<OperationId, Error>)
      requires Valid()
      modifies this
      ensures Valid() && Quiet(old(View()), View(), mine) && Onward(old(View()), View(), old(run), run, old(acts), acts)
      ensures KeepsFinal(old(log), log, mine, false)
      ensures r == if active.None? then Err(Cancelled) else if stored then Ok(active.value.operation) else Err(JournalError)
      ensures r.Err? ==> View() == old(View())
      ensures r.Ok? ==> Journal.HasKey(log, WorkloadKey(r.value, CancellationRequested)) && (r.value in mine ==> SamePending(old(log), log, r.value))
    {
      if active.None? {
        return Err(Cancelled);
      }
      Record(active.value, Workload(CancellationRequested), stored, mine, alone);
      r := if stored then Ok(active.value.operation) else Err(JournalError);
    }

    /**
     `record_rebind`: a new recoverable intent for the same operation, then the
     selection. Once both are recorded, recovery would use the new request, if the
     operation had not been rebound to this revision before.
     */
    method RecordRebind(request: Request, rebound: bool, selected: bool, mine: set<OperationId>, alone: bool) returns (stored: bool)
      requires Valid()
      modifies this
      ensures Valid() && Quiet(old(View()), View(), mine) && Onward(old(View()), View(), old(run), run, old(acts), acts)
      ensures !old(Journal.HasKey(log, CommitKey(request.operation))) ==> KeepsFinal(old(log), log, mine, false)
      ensures stored <==> rebound && selected
      ensures stored ==> Journal.HasKey(log, RebindKey(request.operation, request.revision)) && Journal.HasKey(log, ProviderRebindKey(request.operation, request.revision))
      ensures stored && request.operation in mine && !old(Journal.HasKey(log, RebindKey(request.operation, request.revision))) ==>
                request.operation in Pending(log) && Pending(log)[request.operation] == request
    {
      Record(request, Intent(request, true), rebound, mine, alone);
      if !rebound {
        return false;
      }
      ghost var s := View();
      Record(request, ProviderRebind(request.revision), selected, mine, alone);
      QuietTransitive(old(View()), s, View(), mine);
      KeyStays(s.log, log, RebindKey(request.operation, request.revision));
      stored := selected;
    }

    /** A candidate is set aside, with the reason on record. */
    method SetAside(c: FailoverCandidate, phase: nat, stored: bool, verdict: Judgement, mine: set<OperationId>, alone: bool) returns (r: Judgement)
      requires Valid()
      modifies this
      ensures Valid() && Quiet(old(View()), View(), mine) && KeepsFinal(old(log), log, mine, false)
      ensures Onward(old(View()), View(), old(run), run, old(acts), acts)
      ensures r == if stored then verdict else Stop(JournalError)
      ensures stored ==> Journal.HasKey(log, CandidateKey(c.request.operation, c.provider, phase))
      ensures old(Journal.HasKey(log, CandidateKey(c.request.operation, c.provider, EVALUATING))) ==>
                Journal.HasKey(log, CandidateKey(c.request.operation, c.provider, EVALUATING))
    {
      ghost var s := View();
      Record(c.request, Candidate(c.provider, phase), stored, mine, alone);
      if Journal.HasKey(s.log, CandidateKey(c.request.operation, c.provider, EVALUATING)) {
        KeyStays(s.log, log, CandidateKey(c.request.operation, c.provider, EVALUATING));
      }
      r := if stored then verdict else Stop(JournalError);
    }

    /** Evaluation of a candidate up to the compatibility gate. */
    method Consider(plan: Plan, step: PlanStep, op: OperationId, c: FailoverCandidate, a: CandidateAnswers, mine: set<OperationId>, alone: bool)
      returns (verdict: Judgement)
      requires Valid()
      modifies this
      ensures Valid() && Quiet(old(View()), View(), mine) && KeepsFinal(old(log), log, mine, false)
      ensures Onward(old(View()), View(), old(run), run, old(acts), acts)
      ensures verdict == Judged(plan, step, op, c, a) && (verdict.Go? || Borne(old(View()), View(), c, a, Trial(verdict, None), false))
      ensures a.evaluating ==> Journal.HasKey(log, CandidateKey(c.request.operation, c.provider, EVALUATING))
    {
      Record(c.request, Candidate(c.provider, EVALUATING), a.evaluating, mine, alone);
      ghost var s := View();
      if !a.evaluating {
        return Stop(JournalError);
      }
      if c.request.workload != plan.workload || c.request.step != step.step || c.request.operation != op || !c.matchesManifest {
        return Stop(Admission);
      }
      if !c.reference && a.probe.Some? {
        if !Retryable(a.probe.value) {
          return Stop(a.probe.value);
        }
        verdict := SetAside(c, UNAVAILABLE, a.unavailable, Judgement.Failed(a.probe.value), mine, alone);
        QuietTransitive(old(View()), s, View(), mine);
        return;
      }
      if a.fit.Incompatible? || (a.fit.Degraded? && !step.allowDegraded) {
        verdict := SetAside(c, INCOMPATIBLE, a.incompatible, Rejected, mine, alone);
        QuietTransitive(old(View()), s, View(), mine);
        return;
      }
      verdict := Go;
    }

    /** Rebind after an earlier failure, and execute. */
    method Attempt(c: FailoverCandidate, a: CandidateAnswers, rebind: bool, mine: set<OperationId>, alone: bool)
      returns (result: Outcome, ghost ran: Option<Outcome>)
      requires Valid()
      modifies this
      ensures Valid() && Onward(old(View()), View(), old(run), run, old(acts), acts)
      ensures if rebind && !(a.rebound && a.selected) then ran.None? && result == Err(JournalError) else ran == Some(result)
      ensures ran.Some? ==> Performed(old(View()), View(), c.request, result) && Scripted(a.execution, result)
      ensures ran.Some? && rebind ==>
                && Journal.HasKey(log, RebindKey(c.request.operation, c.request.revision))
                && Journal.HasKey(log, ProviderRebindKey(c.request.operation, c.request.revision))
      ensures result.Ok? ==> Journal.HasKey(log, CommitKey(c.request.operation))
      ensures result.Ok? && Promised(run, acts, |old(acts)|, c.request.operation, c.request.workload) ==>
                CommittedWith(log, c.request.workload, c.request.operation, result.value)
      ensures Tried(old(View()), View(), c.request, mine, result)
    {
      ghost var s := View();
      if rebind {
        var stored := RecordRebind(c.request, a.rebound, a.selected, mine, alone);
        if !stored {
          RebindFailed(s, View(), c.request, mine);
          return Err(JournalError), None;
        }
      }
      ghost var t, m := View(), |acts|;
      ghost var me, f, l;
      result, me, f, l := Execute(c.request, a.execution, mine, alone);
      ran := Some(result);
      CommittedStays(t.log, log);
      StillNew(s, t, View(), me, c.request, result);
      ExecutedIsTried(t, View(), c.request, mine, alone, result);
      if rebind {
        RebindThenTried(s, t, View(), c.request, mine, result);
      }
      if Promised(run, acts, |old(acts)|, c.request.operation, c.request.workload) {
        PromiseHolds(run, acts, |old(acts)|, m, c.request.operation, c.request.workload);
      }
    }

    /** Rebind after an earlier failure, execute, and record a retryable failure. */
    method TryCandidate(c: FailoverCandidate, a: CandidateAnswers, rebind: bool, mine: set<OperationId>, alone: bool)
      returns (result: Outcome, ghost ran: Option<Outcome>)
      requires Valid()
      modifies this
      ensures Valid() && Onward(old(View()), View(), old(run), run, old(acts), acts)
      ensures Attempted(rebind, a, ran, result) && (ran.Some? ==> Scripted(a.execution, ran.value))
      ensures ran.Some? ==> Performed(old(View()), View(), c.request, ran.value)
      ensures ran.Some? && rebind ==>
                && Journal.HasKey(log, RebindKey(c.request.operation, c.request.revision))
                && Journal.HasKey(log, ProviderRebindKey(c.request.operation, c.request.revision))
      ensures GoesOn(Trial(Go, ran), a) ==> Journal.HasKey(log, CandidateKey(c.request.operation, c.provider, EXECUTION_FAILED))
      ensures result.Ok? ==> Journal.HasKey(log, CommitKey(c.request.operation))
      ensures result.Ok? && Promised(run, acts, |old(acts)|, c.request.operation, c.request.workload) ==>
                CommittedWith(log, c.request.workload, c.request.operation, result.value)
      ensures Tried(old(View()), View(), c.request, mine, result)
    {
      result, ran := Attempt(c, a, rebind, mine, alone);
      if result.Err? && Retryable(result.error) {
        ghost var u := View();
        Record(c.request, Candidate(c.provider, EXECUTION_FAILED), a.executionFailed, mine, alone);
        TriedThenNoted(old(View()), u, View(), c.request, mine, result);
        CommittedStays(u.log, log);
        PerformedStays(old(View()), u, View(), c.request, result);
        if !a.executionFailed {
          return Err(JournalError), ran;
        }
      }
    }

    /** One candidate: evaluated and, if it may go ahead, tried. */
    method RunCandidate(plan: Plan, step: PlanStep, op: OperationId, j: nat, a: CandidateAnswers, rebind: bool, mine: set<OperationId>, alone: bool,
                        ghost start: State, ghost addressed: bool)
      returns (verdict: Judgement, result: Outcome, ghost trial: Trial)
      requires Valid() && j < |step.candidates| && Trying(start, View(), plan.workload, op, mine, addressed)
      requires addressed == (step.candidates[0].request.workload == plan.workload) && (j > 0 ==> addressed)
      modifies this
      ensures Valid() && Onward(old(View()), View(), old(run), run, old(acts), acts)
      ensures verdict == Judged(plan, step, op, step.candidates[j], a) == trial.judgement && (!verdict.Go? ==> trial.ran.None?)
      ensures verdict.Go? ==> Attempted(rebind, a, trial.ran, result) && (trial.ran.Some? ==> Scripted(a.execution, trial.ran.value))
      ensures Borne(old(View()), View(), step.candidates[j], a, trial, rebind)
      ensures verdict.Go? && result.Ok? ==> Journal.HasKey(log, CommitKey(op))
      ensures verdict.Go? && result.Ok? && Promised(run, acts, |old(acts)|, op, plan.workload) ==> CommittedWith(log, plan.workload, op, result.value)
      ensures verdict.Go? ==> StepTried(start, View(), plan.workload, op, mine, addressed, result)
      ensures !verdict.Go? || (result.Err? && Transient(result.error)) ==> Trying(start, View(), plan.workload, op, mine, addressed)
    {
      var c := step.candidates[j];
      ghost var s := View();
      verdict := Consider(plan, step, op, c, a, mine, alone);
      ghost var t, m := View(), |acts|;
      TryingNoted(start, s, t, plan.workload, op, mine, addressed);
      result, trial := Err(Scheduling), Trial(verdict, None);
      if verdict.Go? {
        ghost var ran;
        result, ran := TryCandidate(c, a, rebind, mine, alone);
        trial := Trial(verdict, ran);
        TryingTried(start, t, View(), c.request, mine, result);
        CommittedStays(t.log, log);
        if ran.Some? {
          PerformedEarlier(s, t, View(), c.request, ran.value);
        }
        if Promised(run, acts, |old(acts)|, op, plan.workload) {
          PromiseHolds(run, acts, |old(acts)|, m, op, plan.workload);
        }
      }
    }

    /** The next candidate of a step; `settled` says that it commits the step or ends it for good. */
    method NextTrial(plan: Plan, step: PlanStep, op: OperationId, env: nat -> CandidateAnswers, j: nat, lastFailure: Option<Error>, rejectedLast: bool,
                     mine: set<OperationId>, alone: bool, ghost s: State, ghost n: nat, ghost trials: seq<Trial>)
      returns (settled: bool, result: Outcome, failure: Option<Error>, rejected: bool, ghost trials': seq<Trial>)
      requires Valid() && j == |trials| < |step.candidates| && Lasting(s, View()) && n <= |acts|
      requires TryingOn(plan, step, op, env, s, View(), trials, lastFailure, rejectedLast)
      requires Trying(s, View(), plan.workload, op, mine, step.candidates[0].request.workload == plan.workload)
      modifies this
      ensures Valid() && Onward(old(View()), View(), old(run), run, old(acts), acts) && |trials'| == j + 1
      ensures settled ==> StepTold(plan, step, op, env, trials', result) && AllBorne(s, View(), step, env, trials') && (result.Ok? || !Transient(result.error))
      ensures settled && result.Ok? ==> step.candidates[0].request.workload == plan.workload && Journal.HasKey(log, CommitKey(op))
      ensures settled && result.Ok? && Promised(run, acts, n, op, plan.workload) ==> CommittedWith(log, plan.workload, op, result.value)
      ensures settled ==> StepTried(s, View(), plan.workload, op, mine, step.candidates[0].request.workload == plan.workload, result)
      ensures !settled ==> TryingOn(plan, step, op, env, s, View(), trials', failure, rejected)
      ensures !settled ==> Trying(s, View(), plan.workload, op, mine, step.candidates[0].request.workload == plan.workload)
    {
      ghost var t, m := View(), |acts|;
      var verdict;
      ghost var trial;
      verdict, result, trial := RunCandidate(plan, step, op, j, env(j), lastFailure.Some?, mine, alone, s, step.candidates[0].request.workload == plan.workload);
      trials', failure, rejected := trials + [trial], lastFailure, verdict.Rejected?;
      match verdict
      case Stop(e) =>
        settled, result := true, Err(e);
        TrialEnds(plan, step, op, env, s, t, View(), trials, lastFailure, rejectedLast, trial, result);
        StopsForGood(plan, step, op, step.candidates[j], env(j));
      case Failed(e) =>
        settled, failure := false, Some(e);
        TrialGoesOn(plan, step, op, env, s, t, View(), trials, lastFailure, rejectedLast, trial, result);
      case Rejected =>
        settled := false;
        TrialGoesOn(plan, step, op, env, s, t, View(), trials, lastFailure, rejectedLast, trial, result);
      case Go =>
        settled := result.Ok? || !Retryable(result.error);
        if settled {
          TrialEnds(plan, step, op, env, s, t, View(), trials, lastFailure, rejectedLast, trial, result);
          if Promised(run, acts, n, op, plan.workload) {
            PromiseHolds(run, acts, n, m, op, plan.workload);
          }
        } else {
          failure := Some(result.error);
          TrialGoesOn(plan, step, op, env, s, t, View(), trials, lastFailure, rejectedLast, trial, result);
        }
    }

    /**
     All candidates of one step, in order, until one commits or fails for good: each
     is judged on its merits, and executed if it may go ahead. A passing failure is
     the answer only when every candidate has been evaluated.
     */
    method RunStep(plan: Plan, step: PlanStep, op: OperationId, env: nat -> CandidateAnswers, mine: set<OperationId>, alone: bool)
      returns (result: Outcome, ghost trials: seq<Trial>)
      requires Valid() && step.candidates != []
      modifies this
      ensures Valid() && Onward(old(View()), View(), old(run), run, old(acts), acts)
      ensures StepTold(plan, step, op, env, trials, result) && AllBorne(old(View()), View(), step, env, trials)
      ensures result.Err? && Retryable(result.error) ==>
                forall j :: 0 <= j < |step.candidates| ==> Journal.HasKey(log, CandidateKey(op, step.candidates[j].provider, EVALUATING))
      ensures result.Ok? ==> step.candidates[0].request.workload == plan.workload && Journal.HasKey(log, CommitKey(op))
      ensures result.Ok? && Promised(run, acts, |old(acts)|, op, plan.workload) ==> CommittedWith(log, plan.workload, op, result.value)
      ensures StepTried(old(View()), View(), plan.workload, op, mine, step.candidates[0].request.workload == plan.workload, result)
    {
      var lastFailure: Option<Error> := None;
      var rejectedLast := false;
      ghost var s, n := View(), |acts|;
      trials := [];
      for j := 0 to |step.candidates|
        invariant Valid() && Onward(s, View(), old(run), run, old(acts), acts)
        invariant |trials| == j && TryingOn(plan, step, op, env, s, View(), trials, lastFailure, rejectedLast)
        invariant Trying(s, View(), plan.workload, op, mine, step.candidates[0].request.workload == plan.workload)
      {
        var settled;
        settled, result, lastFailure, rejectedLast, trials := NextTrial(plan, step, op, env, j, lastFailure, rejectedLast, mine, alone, s, n, trials);
        if settled {
          return;
        }
      }
      result := Err(if lastFailure.None? || rejectedLast then Scheduling else lastFailure.value);
      if Transient(result.error) {
        FailureEvaluatesAll(s, View(), plan, step, op, env, trials, result);
      }
    }

    /** One step of a plan: replay its committed receipt, or run its candidates. */
    method CompleteStep(plan: Plan, i: nat, env: PlanAnswers, mine: set<OperationId>, alone: bool) returns (result: Outcome, ghost tale: StepTale)
      requires Valid() && i < |plan.steps|
      modifies this
      ensures Valid() && Onward(old(View()), View(), old(run), run, old(acts), acts)
      ensures StepAccount(plan, i, env, tale) && tale.result == result && AllBorne(old(View()), View(), plan.steps[i], env.candidate(i), tale.trials)
      ensures alone ==> tale.known == old(Known(plan, log, i))
      ensures StepOutcome(plan, i, old(View()), |old(acts)|, View(), run, acts, mine, result)
    {
      ghost var s := View();
      Interfere(mine, None, alone);
      ghost var t, m := View(), |acts|;
      tale := StepTale(Known(plan, log, i), [], Err(Scheduling));
      if plan.steps[i].candidates == [] {
        StoppedStep(plan, i, s, |old(acts)|, t, run, acts, mine, Scheduling);
        return Err(Scheduling), tale;
      }
      if !env.readable(i) {
        StoppedStep(plan, i, s, |old(acts)|, t, run, acts, mine, JournalError);
        tale := tale.(result := Err(JournalError));
        return Err(JournalError), tale;
      }
      var first := plan.steps[i].candidates[0].request;
      var known := Committed(log, first);
      if known.Some? {
        FoundStep(plan, i, s, |old(acts)|, t, run, acts, mine);
        tale := tale.(result := Ok(known.value));
        return Ok(known.value), tale;
      }
      ghost var trials;
      result, trials := RunStep(plan, plan.steps[i], first.operation, env.candidate(i), mine, alone);
      tale := StepTale(None, trials, result);
      LastingSelf(View());
      AllBorneLater(s, t, View(), View(), plan.steps[i], env.candidate(i), trials);
      RanStep(plan, i, s, |old(acts)|, t, m, View(), run, acts, mine, result);
    }

    /** The steps of a plan in turn, until one fails. */
    method CompleteSteps(plan: Plan, env: PlanAnswers, mine: set<OperationId>, alone: bool) returns (r: Result<seq<Receipt>, Error>, ghost tales: seq<StepTale>)
      requires Valid()
      modifies this
      ensures Valid() && Onward(old(View()), View(), old(run), run, old(acts), acts)
      ensures PlanAccount(plan, env, tales, r) && TalesBorne(old(View()), View(), plan, env, tales)
      ensures r.Ok? ==> |r.value| == |plan.steps| && StepsCommitted(plan, log, |plan.steps|)
      ensures r.Ok? && PlanPromised(plan, run, acts, |old(acts)|) ==> Completes(plan, log, r.value)
      ensures old(Answerable(plan, log)) ==>
                Rely(old(View()), View(), mine) && (if r.Ok? then Replies(plan, old(log), r.value) else r.error == JournalError)
      ensures PlanOperations(plan) <= mine && old(AloneOn(View(), mine, plan.workload)) ==>
                AloneOn(View(), mine, plan.workload) && KeepsFinal(old(log), log, mine, false) && (r.Ok? ==> Completes(plan, log, r.value))
    {
      var receipts: seq<Receipt> := [];
      ghost var s, n := View(), |acts|;
      tales := [];
      for i := 0 to |plan.steps|
        invariant Valid() && Onward(s, View(), old(run), run, old(acts), acts)
        invariant |receipts| == i && PlanUnderway(plan, env, s, n, View(), run, acts, mine, receipts, tales)
      {
        ghost var s1, run1, acts1 := View(), run, acts;
        var result;
        ghost var tale;
        result, tale := CompleteStep(plan, i, env, mine, alone);
        PlanGoesOn(plan, env, s, n, s1, run1, acts1, View(), run, acts, mine, receipts, tales, tale);
        tales := tales + [tale];
        if result.Err? {
          return Err(result.error), tales;
        }
        receipts := receipts + [result.value];
      }
      r := Ok(receipts);
    }

    /**
     `execute_continuously`. Whoever else runs, on the plan's operations too: the
     steps are completed in order, each from the journal or by the first of its
     candidates that commits it, and the plan stops at the first step that fails. Ok
     means that every step has its commit, one per operation; and a plan whose
     commits the journal shows is answered from it, nothing is executed and nothing
     is written. The receipts returned are the committed ones if the plan's
     operations kept to its workload with one caller at a time between lookup and
     receipt. For the only caller on the plan's operations they are, and no
     committed operation of the plan is rebound.
     */
    method ExecuteContinuously(plan: Plan, env: PlanAnswers, mine: set<OperationId>, alone: bool)
      returns (r: Result<seq<Receipt>, Error>, ghost tales: seq<StepTale>)
      requires Valid()
      modifies this
      ensures Valid() && Onward(old(View()), View(), old(run), run, old(acts), acts)
      ensures !plan.identified ==> r == Err(Admission) && View() == old(View())
      ensures plan.identified ==> PlanAccount(plan, env, tales, r) && TalesBorne(old(View()), View(), plan, env, tales)
      ensures r.Err? && Retryable(r.error) ==>
                exists i :: 0 <= i < |plan.steps| && plan.steps[i].candidates != [] && EvaluatedAll(log, StepOperation(plan, i), plan.steps[i])
      ensures r.Ok? ==> plan.identified && |r.value| == |plan.steps| && StepsCommitted(plan, log, |plan.steps|) && OncePerOperation(log)
      ensures r.Ok? && PlanPromised(plan, run, acts, |old(acts)|) ==> Completes(plan, log, r.value)
      ensures old(Answerable(plan, log) || (PlanOperations(plan) <= mine && AloneOn(View(), mine, plan.workload) && PlanCommitted(plan, log))) ==>
                && Rely(old(View()), View(), mine) && (r.Ok? ==> Replies(plan, old(log), r.value))
                && (r.Err? ==> r.error == JournalError || (r.error == Admission && !plan.identified))
      ensures PlanOperations(plan) <= mine && old(AloneOn(View(), mine, plan.workload)) ==>
                AloneOn(View(), mine, plan.workload) && KeepsFinal(old(log), log, mine, false) && (r.Ok? ==> Completes(plan, log, r.value))
    {
      if !plan.identified {
        return Err(Admission), [];
      }
      if PlanOperations(plan) <= mine && AloneOn(View(), mine, plan.workload) && PlanCommitted(plan, log) {
        CommittedIsAnswerable(plan, View(), mine);
      }
      r, tales := CompleteSteps(plan, env, mine, alone);
      KeysGiveOncePerOperation(log);
      if r.Err? && Transient(r.error) {
        var i := PlanFailureEvaluatesAll(old(View()), View(), plan, env, tales, r);
      }
    }

    /**
     Running a completed plan again invokes no provider and returns the same
     receipts, whoever else runs; `ExecuteContinuously` says when Ok is complete.
     */
    method ExecuteTwice(plan: Plan, env: PlanAnswers, again: PlanAnswers, mine: set<OperationId>, alone: bool)
      returns (first: Result<seq<Receipt>, Error>, second: Result<seq<Receipt>, Error>, ghost between: State)
      requires Valid()
      modifies this
      ensures Valid() && old(run) <= run && old(acts) <= acts
      ensures PlanPromised(plan, run, acts, |old(acts)|) && first.Ok? ==> Completes(plan, between.log, first.value)
      ensures PlanOperations(plan) <= mine && old(AloneOn(View(), mine, plan.workload)) && first.Ok? ==> Completes(plan, between.log, first.value)
      ensures first.Ok? && Completes(plan, between.log, first.value) ==>
                Rely(between, View(), mine) && (if second.Ok? then second == first else second.error == JournalError)
    {
      ghost var n, tales := |acts|, [];
      first, tales := ExecuteContinuously(plan, env, mine, alone);
      between := View();
      second := first;
      if first.Ok? {
        ghost var run1, acts1 := run, acts;
        if Completes(plan, log, first.value) {
          CompletedIsAnswerable(plan, log, first.value);
        }
        second, tales := ExecuteContinuously(plan, again, mine, alone);
        if PlanPromised(plan, run, acts, n) {
          WholePlanPromisedBefore(plan, run1, acts1, run, acts, n);
        }
        if second.Ok? && Completes(plan, between.log, first.value) {
          SameAnswers(plan, between.log, first.value, second.value);
        }
      }
    }

    // -------------------------------------------------------------------------
    // Recovery
    // -------------------------------------------------------------------------

    /** `pending_operations`: one scan, collected in arbitrary order. */
    method PendingOperations() returns (requests: seq<Request>)
      requires Valid()
      ensures Lists(requests, Pending(log))
    {
      var pending: map<OperationId, Request> := map[];
      for i := 0 to |log|
        invariant pending == Pending(log[..i])
      {
        assert log[..i + 1][..i] == log[..i];
        pending := PendingStep(pending, log[i]);
      }
      assert log[..|log|] == log;
      requests := [];
      var left := pending.Keys;
      while left != {}
        invariant left <= pending.Keys
        invariant forall i :: 0 <= i < |requests| ==> requests[i].operation in pending && pending[requests[i].operation] == requests[i]
        invariant forall i :: 0 <= i < |requests| ==> requests[i].operation !in left
        invariant forall i, j :: 0 <= i < j < |requests| ==> requests[i].operation != requests[j].operation
        invariant forall op :: op in pending && op !in left ==> Listed(requests, op)
      {
        var op :| op in left;
        PendingNamesItself(log, op);
        ghost var was := requests;
        requests := requests + [pending[op]];
        left := left - {op};
        assert requests[|was|].operation == op;
        assert forall i :: 0 <= i < |was| ==> requests[i] == was[i];
      }
    }

    method ScanLeases() returns (active: map<LeaseId, WorkloadId>, requests: map<WorkloadId, Request>)
      ensures active == OpenLeases(log) && requests == Requests(log)
    {
      active, requests := map[], map[];
      for i := 0 to |log|
        invariant active == OpenLeases(log[..i]) && requests == Requests(log[..i])
      {
        assert log[..i + 1][..i] == log[..i];
        active, requests := OpenStep(active, log[i]), RequestStep(requests, log[i]);
      }
      assert log[..|log|] == log;
    }

    /** Closes one open lease under the workload's latest request. */
    method RevokeOne(l: LeaseId)
      requires Valid() && workers == map[] && l in OpenLeases(log) && OpenLeases(log)[l] in Requests(log)
      modifies this
      ensures Valid() && workers == map[] && leases == old(leases) && Harmless(old(View()), View())
      ensures OpenLeases(log) == old(OpenLeases(log)) - {l}
    {
      var request := Requests(log)[OpenLeases(log)[l]];
      OpenLeasesIsExact(log, l);
      RememberedIsDurable(log, OpenLeases(log)[l]);
      RevocationLands(log, request, l);
      RevokeIsHarmless(View(), l, request);
      Perform(Revoke(l, request));
    }

    /**
     `revoke_orphaned_leases`, at start-up, on any journal. It succeeds exactly when
     every open lease's workload has a durable intent and every revocation is stored;
     then no lease is open any more. With no open lease it writes nothing.
     */
    method RevokeOrphanedLeases(stored: LeaseId -> bool) returns (r: Result<(), Error>)
      requires Valid() && workers == map[]
      modifies this
      ensures Valid() && workers == map[] && leases == old(leases) && Harmless(old(View()), View())
      ensures r.Ok? ==> OpenLeases(log) == map[]
      ensures old(OpenLeases(log)) == map[] ==> log == old(log)
      ensures r.Ok? <==> old(EveryLeaseHasIntent(log)) && forall l :: l in old(OpenLeases(log)) ==> stored(l)
      ensures r.Err? ==> r.error == JournalError
    {
      var active, requests := ScanLeases();
      var left := active.Keys;
      while left != {}
        invariant Valid() && workers == map[] && leases == old(leases) && Harmless(old(View()), View())
        invariant Revoking(old(log), log, active, requests, left) && forall l :: l in active && l !in left ==> stored(l)
      {
        var l :| l in left;
        if active[l] !in requests || !stored(l) {
          return Err(JournalError);
        }
        ghost var before := View();
        RevokeOne(l);
        RevokingOn(old(log), before.log, log, active, requests, left, l);
        HarmlessTransitive(old(View()), before, View());
        left := left - {l};
      }
      r := Ok(());
    }

    /** Re-executes one pending operation; nothing else becomes or stops being pending. */
    method RecoverOne(request: Request, a: Answers) returns (result: Outcome, ghost f: Findings)
      requires Valid() && (forall id :: id in workers ==> workers[id].pc.Done?)
      requires request.operation in Pending(log)
      modifies this
      ensures Valid() && (forall id :: id in workers ==> workers[id].pc.Done?) && old(log) <= log && leases == old(leases)
      ensures old(calls) <= calls && forall i :: |old(calls)| <= i < |calls| ==> calls[i].request == request
      ensures result == Verdict(a, f) && f == FindingsAt(old(View()), request) && |calls| == |old(calls)| + if Calls(a, f) then 1 else 0
      ensures result.Ok? ==> Recovered(old(View()), View(), request)
      ensures result.Ok? && old(Strong(View(), request.operation, request.workload)) ==> CommittedWith(log, request.workload, request.operation, result.value)
    {
      ghost var before, me, l := View(), 0, 0;
      result, me, f, l := Execute(request, a, {request.operation}, true);
      if result.Ok? {
        OnlyItsOwnPending(before.log, log, request.operation);
      }
    }

    /** Re-executes the listed operations in turn, refusing those that may not be repeated. */
    method RecoverAll(requests: seq<Request>, env: OperationId -> Answers) returns (r: Result<seq<Receipt>, Error>, ghost done: seq<Outcome>)
      requires Valid() && (forall id :: id in workers ==> workers[id].pc.Done?) && Lists(requests, Pending(log))
      modifies this
      ensures Valid() && Outcomes(old(View()), View(), requests, env, done, r)
    {
      var receipts: seq<Receipt> := [];
      ghost var s := View();
      done := [];
      RecoveryBegins(s, requests);
      assert requests[0..] == requests;
      for i := 0 to |requests|
        invariant Valid() && (forall id :: id in workers ==> workers[id].pc.Done?)
        invariant RecoveringAt(s, View(), requests, i, env, done, receipts)
      {
        var request := requests[i];
        if request.delivery != Idempotent && request.delivery != Reconcilable {
          RefusedHere(s, View(), requests, i, env, done, receipts);
          return Err(UnsafeRecovery(request.operation)), done;
        }
        ToRecover(s, View(), requests, i, env, done, receipts);
        ghost var t, f := View(), FindingsAt(View(), request);
        var result;
        result, f := RecoverOne(request, env(request.operation));
        if result.Err? {
          FailedHere(s, t, View(), requests, i, env, done, receipts, f, result.error);
          return Err(result.error), done + [result];
        }
        RecoveringAtOn(s, t, View(), requests, i, env, done, receipts, f, result.value);
        done, receipts := done + [result], receipts + [result.value];
      }
      FinishedHere(s, View(), requests, env, done, receipts);
      r := Ok(receipts);
    }

    /**
     `recover`, on any journal. The provider is invoked for idempotent and
     reconcilable operations only. Recovery itself refuses exactly at a pending
     operation of another delivery; where nothing goes wrong around the journal and
     the providers, it succeeds exactly when there is none and no lease blocks it. On
     success every operation that was pending is committed, one receipt each, and
     those still pending are exactly the ones that were committed already when
     recovery began: none, if no commit was followed by an intent. Promises kept so
     far are kept.
     */
    method Recover(stored: LeaseId -> bool, env: OperationId -> Answers)
      returns (r: Result<seq<Receipt>, Error>, ghost requests: seq<Request>, ghost done: seq<Outcome>)
      requires Valid() && workers == map[]
      modifies this
      ensures Valid() && old(log) <= log && old(calls) <= calls
      ensures forall i :: |old(calls)| <= i < |calls| ==> Recoverable(calls[i].request)
      ensures Lists(requests, old(Pending(log)))
      ensures if old(EveryLeaseHasIntent(log)) && (forall l :: l in old(OpenLeases(log)) ==> stored(l))
              then Recounts(requests, done, r) && SuccessesCommitted(log, requests, done) && forall i :: 0 <= i < |done| ==> Executed(old(View()), requests[i], env(requests[i].operation), done[i])
              else r == Err(JournalError) && done == []
      ensures old(leases) == map[] && (forall l :: stored(l)) && (forall op :: Good(env(op))) ==>
                (r.Ok? <==> old(EveryLeaseHasIntent(log) && AllMayRepeat(Pending(log))))
      ensures r.Ok? ==> ReceiptsHold(old(View()), log, requests, r.value)
      ensures r.Ok? ==> Pending(log) == old(CommittedPending(log))
      ensures r.Ok? ==> forall op :: op in old(Pending(log)) ==> Journal.HasKey(log, CommitKey(op))
      ensures r.Ok? && old(NoLateIntent(log)) ==> Pending(log) == map[]
      ensures r.Ok? ==> KeepsPromises(old(View()), View())
    {
      ghost var s := View();
      var revoked := RevokeOrphanedLeases(stored);
      ghost var t := View();
      var listed := PendingOperations();
      requests, done := listed, [];
      if revoked.Err? {
        return Err(revoked.error), requests, done;
      }
      r, done := RecoverAll(listed, env);
      RecoverConcludes(s, t, View(), listed, env, done, r);
    }
  }
}
