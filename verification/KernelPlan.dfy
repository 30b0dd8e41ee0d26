/** Continuity plans: steps with failover candidates, and what running them step by step amounts to. */
module KernelPlan {
  import opened Prelude
  import Journal
  import opened KernelSystem
  import opened KernelBase
  import opened KernelScript
  import opened KernelExactlyOnce
  import opened KernelRecovery
  import opened KernelRely

  datatype FailoverCandidate = FailoverCandidate(
    request: Request, provider: nat,
    reference: bool,            // declared capabilities are taken at face value
    matchesManifest: bool)      // backend and model agree with the capability manifest

  datatype PlanStep = PlanStep(step: nat, allowDegraded: bool, candidates: seq<FailoverCandidate>)

  /** `identified` is false when the workload or process identity is empty. */
  datatype Plan = Plan(workload: WorkloadId, identified: bool, steps: seq<PlanStep>)

  /** What the compatibility pipeline says about a candidate. */
  datatype Judgement = Stop(error: Error) | Failed(error: Error) | Rejected | Go

  datatype Compatibility = Compatible | Rebindable | Degraded | Incompatible

  const EVALUATING := 0
  const UNAVAILABLE := 1
  const INCOMPATIBLE := 2
  const EXECUTION_FAILED := 3

  /** What the environment answers while a candidate is evaluated and tried. */
  datatype CandidateAnswers = CandidateAnswers(
    evaluating: bool,             // the evaluation is recorded
    probe: Option<Error>,         // the probe's failure, if it fails
    unavailable: bool,            // that failure is recorded
    fit: Compatibility,
    incompatible: bool,           // the rejection is recorded
    rebound: bool,                // the rebinding intent is recorded
    selected: bool,               // the selection is recorded
    execution: Answers,
    executionFailed: bool)        // the failed execution is recorded

  datatype PlanAnswers = PlanAnswers(readable: nat -> bool, candidate: nat -> nat -> CandidateAnswers)

  /** Errors after which the next candidate is tried. */
  predicate Transient(e: Error) {
    e in {ProviderError, Resource, DeadlineExceeded}
  }

  // ---------------------------------------------------------------------------
  // How the candidates of a step are tried
  // ---------------------------------------------------------------------------

  /** What evaluation makes of a candidate. */
  function Judged(plan: Plan, step: PlanStep, op: OperationId, c: FailoverCandidate, a: CandidateAnswers): Judgement {
    if !a.evaluating then Stop(JournalError)
    else if c.request.workload != plan.workload || c.request.step != step.step || c.request.operation != op || !c.matchesManifest then Stop(Admission)
    else if !c.reference && a.probe.Some? && !Transient(a.probe.value) then Stop(a.probe.value)
    else if !c.reference && a.probe.Some? then (if a.unavailable then Judgement.Failed(a.probe.value) else Stop(JournalError))
    else if a.fit.Incompatible? || (a.fit.Degraded? && !step.allowDegraded) then (if a.incompatible then Rejected else Stop(JournalError))
    else Go
  }

  /** One candidate: its evaluation, and the outcome if it was executed. */
  datatype Trial = Trial(judgement: Judgement, ran: Option<Outcome>)

  /** The next candidate is tried after this one. */
  predicate GoesOn(t: Trial, a: CandidateAnswers) {
    match t.judgement
    case Stop(_) => false
    case Failed(_) => true
    case Rejected => true
    case Go => t.ran.Some? && t.ran.value.Err? && Transient(t.ran.value.error) && a.executionFailed
  }

  /** The failure that the next candidate takes over from. */
  function LastFailure(trials: seq<Trial>): Option<Error> {
    if trials == [] then None
    else
      var t := trials[|trials| - 1];
      if t.judgement.Failed? then Some(t.judgement.error)
      else if t.judgement.Go? && t.ran.Some? && t.ran.value.Err? then Some(t.ran.value.error)
      else LastFailure(trials[..|trials| - 1])
  }

  /** A candidate that may go ahead: after an earlier failure it is rebound first; then it is executed, and a passing failure is recorded. */
  predicate Attempted(rebind: bool, a: CandidateAnswers, ran: Option<Outcome>, result: Outcome) {
    if rebind && !(a.rebound && a.selected) then ran.None? && result == Err(JournalError)
    else ran.Some? && result == if ran.value.Err? && Transient(ran.value.error) && !a.executionFailed then Err(JournalError) else ran.value
  }

  /** Every candidate so far was judged on its merits and executed if it might go ahead, and none of them settled the step. */
  ghost predicate Passed(plan: Plan, step: PlanStep, op: OperationId, env: nat -> CandidateAnswers, trials: seq<Trial>) {
    && |trials| <= |step.candidates|
    && forall j :: 0 <= j < |trials| ==> PassedAt(plan, step, op, env, trials, j)
  }

  ghost predicate PassedAt(plan: Plan, step: PlanStep, op: OperationId, env: nat -> CandidateAnswers, trials: seq<Trial>, j: nat)
    requires j < |trials| <= |step.candidates|
  {
    && trials[j].judgement == Judged(plan, step, op, step.candidates[j], env(j)) && GoesOn(trials[j], env(j))
    && (trials[j].judgement.Go? ==>
          && (LastFailure(trials[..j]).Some? ==> env(j).rebound && env(j).selected)
          && Scripted(env(j).execution, trials[j].ran.value))
  }

  /** What the last candidate tried, after these, did to end the step. */
  ghost predicate EndedBy(plan: Plan, step: PlanStep, op: OperationId, env: nat -> CandidateAnswers, trials: seq<Trial>, t: Trial, result: Outcome) {
    var j := |trials|;
    && j < |step.candidates| && t.judgement == Judged(plan, step, op, step.candidates[j], env(j))
    && match t.judgement
       case Stop(e) => t.ran.None? && result == Err(e)
       case Go =>
         && Attempted(LastFailure(trials).Some?, env(j), t.ran, result) && (result.Ok? || !Transient(result.error))
         && (t.ran.Some? ==> Scripted(env(j).execution, t.ran.value))
       case _ => false
  }

  /** The answer when no candidate settled the step. */
  function Exhausted(trials: seq<Trial>): Error {
    if LastFailure(trials).None? || (trials != [] && trials[|trials| - 1].judgement.Rejected?) then Scheduling else LastFailure(trials).value
  }

  /** The candidates were tried in order, until one settled the step or none was left. */
  ghost predicate StepTold(plan: Plan, step: PlanStep, op: OperationId, env: nat -> CandidateAnswers, trials: seq<Trial>, result: Outcome) {
    || (|trials| == |step.candidates| && Passed(plan, step, op, env, trials) && result == Err(Exhausted(trials)))
    || (trials != [] && Passed(plan, step, op, env, trials[..|trials| - 1])
        && EndedBy(plan, step, op, env, trials[..|trials| - 1], trials[|trials| - 1], result))
  }

  /** The request was executed to this outcome, between s and t. */
  ghost predicate Performed(s: State, t: State, request: Request, outcome: Outcome) {
    exists id :: id !in s.workers && id in t.workers && t.workers[id] == Worker(request, Done(outcome))
  }

  /** The journal and the finished executions bear out a trial. */
  ghost predicate Borne(s: State, t: State, c: FailoverCandidate, a: CandidateAnswers, trial: Trial, rebind: bool) {
    var op := c.request.operation;
    && (a.evaluating ==> Journal.HasKey(t.log, CandidateKey(op, c.provider, EVALUATING)))
    && (trial.judgement.Failed? ==> Journal.HasKey(t.log, CandidateKey(op, c.provider, UNAVAILABLE)))
    && (trial.judgement.Rejected? ==> Journal.HasKey(t.log, CandidateKey(op, c.provider, INCOMPATIBLE)))
    && (trial.judgement.Go? && GoesOn(trial, a) ==> Journal.HasKey(t.log, CandidateKey(op, c.provider, EXECUTION_FAILED)))
    && (trial.ran.Some? ==> Performed(s, t, c.request, trial.ran.value))
    && (trial.ran.Some? && rebind ==>
          Journal.HasKey(t.log, RebindKey(op, c.request.revision)) && Journal.HasKey(t.log, ProviderRebindKey(op, c.request.revision)))
  }

  ghost predicate AllBorne(s: State, t: State, step: PlanStep, env: nat -> CandidateAnswers, trials: seq<Trial>) {
    |trials| <= |step.candidates| && forall j {:trigger BorneAt(s, t, step, env, trials, j)} :: 0 <= j < |trials| ==> BorneAt(s, t, step, env, trials, j)
  }

  ghost predicate BorneAt(s: State, t: State, step: PlanStep, env: nat -> CandidateAnswers, trials: seq<Trial>, j: nat)
    requires j < |trials| <= |step.candidates|
  {
    Borne(s, t, step.candidates[j], env(j), trials[j], LastFailure(trials[..j]).Some?)
  }

  lemma PerformedStays(s: State, t: State, u: State, request: Request, outcome: Outcome)
    requires Lasting(t, u)
    ensures Performed(s, t, request, outcome) ==> Performed(s, u, request, outcome)
  {
    if Performed(s, t, request, outcome) {
      var id :| id !in s.workers && id in t.workers && t.workers[id] == Worker(request, Done(outcome));
      assert id in u.workers;
    }
  }

  lemma PerformedEarlier(s: State, t: State, u: State, request: Request, outcome: Outcome)
    requires Lasting(s, t) && Performed(t, u, request, outcome)
    ensures Performed(s, u, request, outcome)
  {
    var id :| id !in t.workers && id in u.workers && u.workers[id] == Worker(request, Done(outcome));
    assert id !in s.workers;
  }

  lemma StillNew(s: State, t: State, u: State, me: WorkerId, request: Request, outcome: Outcome)
    requires Lasting(s, t) && me !in t.workers && me in u.workers && u.workers[me] == Worker(request, Done(outcome))
    ensures Performed(s, u, request, outcome)
  {
    assert me !in s.workers;
  }

  /** From an earlier start to a later state. */
  lemma BorneLater(s: State, s': State, t: State, t': State, c: FailoverCandidate, a: CandidateAnswers, trial: Trial, rebind: bool)
    requires Borne(s', t, c, a, trial, rebind) && t.log <= t'.log && Lasting(t, t') && Lasting(s, s')
    ensures Borne(s, t', c, a, trial, rebind)
  {
    CommittedStays(t.log, t'.log);
    if trial.ran.Some? {
      PerformedStays(s', t, t', c.request, trial.ran.value);
      PerformedEarlier(s, s', t', c.request, trial.ran.value);
    }
  }

  lemma AllBorneLater(s: State, s': State, t: State, t': State, step: PlanStep, env: nat -> CandidateAnswers, trials: seq<Trial>)
    requires AllBorne(s', t, step, env, trials) && t.log <= t'.log && Lasting(t, t') && Lasting(s, s')
    ensures AllBorne(s, t', step, env, trials)
  {
    forall j | 0 <= j < |trials| ensures BorneAt(s, t', step, env, trials, j) {
      assert BorneAt(s', t, step, env, trials, j);
      BorneLater(s, s', t, t', step.candidates[j], env(j), trials[j], LastFailure(trials[..j]).Some?);
    }
  }

  lemma LastingSelf(s: State)
    ensures Lasting(s, s)
  {
  }

  /** One more trial. */
  lemma AllBorneOn(s: State, t: State, u: State, step: PlanStep, env: nat -> CandidateAnswers, trials: seq<Trial>, trial: Trial)
    requires AllBorne(s, t, step, env, trials) && t.log <= u.log && Lasting(s, t) && Lasting(t, u) && |trials| < |step.candidates|
    requires Borne(t, u, step.candidates[|trials|], env(|trials|), trial, LastFailure(trials).Some?)
    ensures AllBorne(s, u, step, env, trials + [trial])
  {
    LastingSelf(s);
    LastingSelf(u);
    AllBorneLater(s, s, t, u, step, env, trials);
    BorneLater(s, t, u, u, step.candidates[|trials|], env(|trials|), trial, LastFailure(trials).Some?);
    var all := trials + [trial];
    forall j | 0 <= j < |all| ensures BorneAt(s, u, step, env, all, j) {
      assert all[..j] == trials[..j];
      if j < |trials| {
        assert BorneAt(s, u, step, env, trials, j);
      } else {
        assert trials[..j] == trials;
      }
    }
  }

  lemma PassedOn(plan: Plan, step: PlanStep, op: OperationId, env: nat -> CandidateAnswers, trials: seq<Trial>, trial: Trial)
    requires Passed(plan, step, op, env, trials) && |trials| < |step.candidates|
    requires trial.judgement == Judged(plan, step, op, step.candidates[|trials|], env(|trials|)) && GoesOn(trial, env(|trials|))
    requires trial.judgement.Go? ==>
               && (LastFailure(trials).Some? ==> env(|trials|).rebound && env(|trials|).selected)
               && Scripted(env(|trials|).execution, trial.ran.value)
    ensures Passed(plan, step, op, env, trials + [trial])
    ensures LastFailure(trials + [trial]) == if trial.judgement.Failed? then Some(trial.judgement.error)
                                             else if trial.judgement.Go? then Some(trial.ran.value.error) else LastFailure(trials)
  {
    var all := trials + [trial];
    assert all[..|trials|] == trials;
    forall j | 0 <= j < |all| ensures PassedAt(plan, step, op, env, all, j) {
      if j < |trials| {
        assert all[..j] == trials[..j] && PassedAt(plan, step, op, env, trials, j);
      }
    }
  }

  /** Where the trials of a step stand when the next candidate is due. */
  ghost predicate TryingOn(plan: Plan, step: PlanStep, op: OperationId, env: nat -> CandidateAnswers, s: State, t: State, trials: seq<Trial>,
                           lastFailure: Option<Error>, rejectedLast: bool) {
    && Passed(plan, step, op, env, trials) && AllBorne(s, t, step, env, trials) && lastFailure == LastFailure(trials)
    && rejectedLast == (trials != [] && trials[|trials| - 1].judgement.Rejected?)
    && (trials != [] ==> step.candidates[0].request.workload == plan.workload)
  }

  /** What is known of the trial just made, from t to u. */
  ghost predicate Made(plan: Plan, step: PlanStep, op: OperationId, env: nat -> CandidateAnswers, s: State, t: State, u: State, trials: seq<Trial>, trial: Trial, result: Outcome) {
    var j := |trials|;
    && j < |step.candidates| && Lasting(s, t) && t.log <= u.log && Lasting(t, u)
    && trial.judgement == Judged(plan, step, op, step.candidates[j], env(j)) && (!trial.judgement.Go? ==> trial.ran.None?)
    && (trial.judgement.Go? ==> Attempted(LastFailure(trials).Some?, env(j), trial.ran, result) && (trial.ran.Some? ==> Scripted(env(j).execution, trial.ran.value)))
    && Borne(t, u, step.candidates[j], env(j), trial, LastFailure(trials).Some?)
  }

  /** The trial did not settle the step. */
  lemma TrialGoesOn(plan: Plan, step: PlanStep, op: OperationId, env: nat -> CandidateAnswers, s: State, t: State, u: State, trials: seq<Trial>,
                    lastFailure: Option<Error>, rejectedLast: bool, trial: Trial, result: Outcome)
    requires TryingOn(plan, step, op, env, s, t, trials, lastFailure, rejectedLast) && Made(plan, step, op, env, s, t, u, trials, trial, result)
    requires !trial.judgement.Stop? && (trial.judgement.Go? ==> result.Err? && Transient(result.error))
    ensures TryingOn(plan, step, op, env, s, u, trials + [trial],
                     if trial.judgement.Failed? then Some(trial.judgement.error) else if trial.judgement.Go? then Some(result.error) else lastFailure,
                     trial.judgement.Rejected?)
  {
    AllBorneOn(s, t, u, step, env, trials, trial);
    PassedOn(plan, step, op, env, trials, trial);
    if trials == [] {
      assert trial.judgement == Judged(plan, step, op, step.candidates[0], env(0));
    }
  }

  /** The trial settled the step. */
  lemma TrialEnds(plan: Plan, step: PlanStep, op: OperationId, env: nat -> CandidateAnswers, s: State, t: State, u: State, trials: seq<Trial>,
                  lastFailure: Option<Error>, rejectedLast: bool, trial: Trial, result: Outcome)
    requires TryingOn(plan, step, op, env, s, t, trials, lastFailure, rejectedLast) && Made(plan, step, op, env, s, t, u, trials, trial, result)
    requires if trial.judgement.Stop? then result == Err(trial.judgement.error) else trial.judgement.Go? && (result.Ok? || !Transient(result.error))
    ensures StepTold(plan, step, op, env, trials + [trial], result) && AllBorne(s, u, step, env, trials + [trial])
    ensures result.Ok? ==> step.candidates[0].request.workload == plan.workload
  {
    AllBorneOn(s, t, u, step, env, trials, trial);
    assert (trials + [trial])[..|trials|] == trials;
    assert EndedBy(plan, step, op, env, trials, trial, result);
    if trials == [] {
      assert trial.judgement == Judged(plan, step, op, step.candidates[0], env(0));
    }
  }

  /** A stop is never a passing failure. */
  lemma StopsForGood(plan: Plan, step: PlanStep, op: OperationId, c: FailoverCandidate, a: CandidateAnswers)
    ensures var v := Judged(plan, step, op, c, a); v.Stop? ==> !Transient(v.error)
  {
  }

  /** A step that ends in a passing failure has evaluated every candidate. */
  lemma FailureEvaluatesAll(s: State, t: State, plan: Plan, step: PlanStep, op: OperationId, env: nat -> CandidateAnswers, trials: seq<Trial>, result: Outcome)
    requires StepTold(plan, step, op, env, trials, result) && AllBorne(s, t, step, env, trials) && result.Err? && Transient(result.error)
    ensures forall j :: 0 <= j < |step.candidates| ==> Journal.HasKey(t.log, CandidateKey(op, step.candidates[j].provider, EVALUATING))
  {
    forall j | 0 <= j < |step.candidates| ensures Journal.HasKey(t.log, CandidateKey(op, step.candidates[j].provider, EVALUATING)) {
      assert Passed(plan, step, op, env, trials) && PassedAt(plan, step, op, env, trials, j);
      assert BorneAt(s, t, step, env, trials, j);
    }
  }

  // ---------------------------------------------------------------------------
  // Plans
  // ---------------------------------------------------------------------------

  /** How one step went: the commit found at the start, the trials and the result. */
  datatype StepTale = StepTale(known: Option<Receipt>, trials: seq<Trial>, result: Outcome)

  ghost predicate StepAccount(plan: Plan, i: nat, env: PlanAnswers, tale: StepTale)
    requires i < |plan.steps|
  {
    var step := plan.steps[i];
    if step.candidates == [] then tale.trials == [] && tale.result == Err(Scheduling)
    else if !env.readable(i) then tale.trials == [] && tale.result == Err(JournalError)
    else if tale.known.Some? then tale.trials == [] && tale.result == Ok(tale.known.value)
    else StepTold(plan, step, step.candidates[0].request.operation, env.candidate(i), tale.trials, tale.result)
  }

  /** The steps were completed in order, up to the first that failed. */
  ghost predicate PlanAccount(plan: Plan, env: PlanAnswers, tales: seq<StepTale>, r: Result<seq<Receipt>, Error>) {
    && |tales| <= |plan.steps| && (forall i :: 0 <= i < |tales| ==> StepAccount(plan, i, env, tales[i]))
    && match r
       case Ok(receipts) =>
         |tales| == |plan.steps| == |receipts| && forall i :: 0 <= i < |tales| ==> tales[i].result == Ok(receipts[i])
       case Err(e) =>
         && tales != [] && tales[|tales| - 1].result == Err(e)
         && forall i :: 0 <= i < |tales| - 1 ==> tales[i].result.Ok?
  }

  /** Every step so far was completed, with these receipts. */
  ghost predicate StepsTold(plan: Plan, env: PlanAnswers, tales: seq<StepTale>, receipts: seq<Receipt>) {
    && |tales| == |receipts| <= |plan.steps|
    && forall i :: 0 <= i < |tales| ==> StepAccount(plan, i, env, tales[i]) && tales[i].result == Ok(receipts[i])
  }

  ghost predicate EvaluatedAll(log: Log, op: OperationId, step: PlanStep) {
    forall j :: 0 <= j < |step.candidates| ==> Journal.HasKey(log, CandidateKey(op, step.candidates[j].provider, EVALUATING))
  }

  ghost predicate TalesBorne(s: State, t: State, plan: Plan, env: PlanAnswers, tales: seq<StepTale>) {
    && |tales| <= |plan.steps|
    && forall i :: 0 <= i < |tales| ==> AllBorne(s, t, plan.steps[i], env.candidate(i), tales[i].trials)
  }

  lemma TalesBorneOn(s: State, s': State, t: State, plan: Plan, env: PlanAnswers, tales: seq<StepTale>, tale: StepTale)
    requires TalesBorne(s, s', plan, env, tales) && |tales| < |plan.steps| && s'.log <= t.log && Lasting(s, s') && Lasting(s', t)
    requires AllBorne(s', t, plan.steps[|tales|], env.candidate(|tales|), tale.trials)
    ensures TalesBorne(s, t, plan, env, tales + [tale])
  {
    LastingSelf(s);
    LastingSelf(t);
    var all := tales + [tale];
    forall i | 0 <= i < |all| ensures AllBorne(s, t, plan.steps[i], env.candidate(i), all[i].trials) {
      if i < |tales| {
        AllBorneLater(s, s, s', t, plan.steps[i], env.candidate(i), tales[i].trials);
      } else {
        AllBorneLater(s, s', t, t, plan.steps[i], env.candidate(i), tale.trials);
      }
    }
  }

  /** A plan that ends in a passing failure has evaluated every candidate of the step it stopped at. */
  lemma PlanFailureEvaluatesAll(s: State, t: State, plan: Plan, env: PlanAnswers, tales: seq<StepTale>, r: Result<seq<Receipt>, Error>) returns (i: nat)
    requires PlanAccount(plan, env, tales, r) && TalesBorne(s, t, plan, env, tales) && r.Err? && Transient(r.error)
    ensures i < |plan.steps| && plan.steps[i].candidates != []
    ensures EvaluatedAll(t.log, StepOperation(plan, i), plan.steps[i])
  {
    i := |tales| - 1;
    assert StepAccount(plan, i, env, tales[i]);
    FailureEvaluatesAll(s, t, plan, plan.steps[i], StepOperation(plan, i), env.candidate(i), tales[i].trials, tales[i].result);
  }

  function PlanOperations(plan: Plan): set<OperationId> {
    set i, j | 0 <= i < |plan.steps| && 0 <= j < |plan.steps[i].candidates| :: plan.steps[i].candidates[j].request.operation
  }

  /** The operation that all candidates of step i must share. */
  function StepOperation(plan: Plan, i: nat): OperationId
    requires i < |plan.steps| && plan.steps[i].candidates != []
  {
    plan.steps[i].candidates[0].request.operation
  }

  /** The step's first candidate, where its commit is looked up, belongs to the plan's workload. */
  predicate Addressed(plan: Plan, i: nat)
    requires i < |plan.steps|
  {
    plan.steps[i].candidates != [] && plan.steps[i].candidates[0].request.workload == plan.workload
  }

  ghost predicate PlanCommitted(plan: Plan, log: Log) {
    forall i :: 0 <= i < |plan.steps| ==> Addressed(plan, i) && Journal.HasKey(log, CommitKey(StepOperation(plan, i)))
  }

  ghost predicate Completes(plan: Plan, log: Log, receipts: seq<Receipt>) {
    && |receipts| <= |plan.steps|
    && forall i :: 0 <= i < |receipts| ==> Addressed(plan, i) && CommittedWith(log, plan.workload, StepOperation(plan, i), receipts[i])
  }

  /** Every step has its commit, whichever receipt and workload it carries. */
  ghost predicate StepsCommitted(plan: Plan, log: Log, n: nat) {
    n <= |plan.steps| && forall i :: 0 <= i < n ==> StepCommitted(plan, log, i)
  }

  ghost predicate StepCommitted(plan: Plan, log: Log, i: nat)
    requires i < |plan.steps|
  {
    plan.steps[i].candidates != [] && Journal.HasKey(log, CommitKey(StepOperation(plan, i)))
  }

  /** The receipt that the journal answers step i with, without executing anything. */
  function Known(plan: Plan, log: Log, i: nat): Option<Receipt>
    requires i < |plan.steps|
  {
    if plan.steps[i].candidates == [] then None else Committed(log, plan.steps[i].candidates[0].request)
  }

  ghost predicate Answerable(plan: Plan, log: Log) {
    forall i :: 0 <= i < |plan.steps| ==> Known(plan, log, i).Some?
  }

  ghost predicate Replies(plan: Plan, log: Log, receipts: seq<Receipt>) {
    |receipts| <= |plan.steps| && forall i :: 0 <= i < |receipts| ==> Known(plan, log, i) == Some(receipts[i])
  }

  /** A commit found once is found in every longer journal. */
  lemma FoundStays(log: Log, log': Log, request: Request)
    requires log <= log' && Journal.UniqueKeys(log') && Keyed(log') && Committed(log, request).Some?
    ensures Committed(log', request) == Committed(log, request)
  {
    var r := Committed(log, request).value;
    var i :| 0 <= i < |log| && log[i].workload == request.workload && log[i].record == Record(request.operation, StepCommit(r));
    assert log'[i] == log[i];
    var q := Committed(log', request).value;
    var j :| 0 <= j < |log'| && log'[j].workload == request.workload && log'[j].record == Record(request.operation, StepCommit(q));
    assert KeyedRow(log'[i]) && KeyedRow(log'[j]);
    assert log'[i].key == log'[j].key;
  }

  lemma KnownStays(plan: Plan, log: Log, log': Log)
    requires log <= log' && Journal.UniqueKeys(log') && Keyed(log')
    ensures forall i :: 0 <= i < |plan.steps| && Known(plan, log, i).Some? ==> Known(plan, log', i) == Known(plan, log, i)
  {
    forall i | 0 <= i < |plan.steps| && Known(plan, log, i).Some? ensures Known(plan, log', i) == Known(plan, log, i) {
      FoundStays(log, log', plan.steps[i].candidates[0].request);
    }
  }

  /** A completed plan is answered from the journal, with the receipts it completed with. */
  lemma CompletedIsAnswerable(plan: Plan, log: Log, receipts: seq<Receipt>)
    requires Completes(plan, log, receipts) && |receipts| == |plan.steps| && Journal.UniqueKeys(log) && Keyed(log)
    ensures Answerable(plan, log) && Replies(plan, log, receipts)
  {
    forall i | 0 <= i < |plan.steps| ensures Known(plan, log, i) == Some(receipts[i]) {
      assert Addressed(plan, i) && CommittedWith(log, plan.workload, StepOperation(plan, i), receipts[i]);
      var k :| 0 <= k < |log| && log[k] == MakeRow(plan.workload, StepOperation(plan, i), StepCommit(receipts[i]));
      assert log[k].workload == plan.workload && log[k].record.op == StepOperation(plan, i);
      var q := Known(plan, log, i).value;
      var j :| 0 <= j < |log| && log[j].workload == plan.workload && log[j].record == Record(StepOperation(plan, i), StepCommit(q));
      assert KeyedRow(log[j]);
      assert log[j].key == log[k].key;
    }
  }

  /** The journal answers the committed plan of a caller who is alone on it. */
  lemma CommittedIsAnswerable(plan: Plan, s: State, mine: set<OperationId>)
    requires PlanCommitted(plan, s.log) && Keyed(s.log) && PlanOperations(plan) <= mine && Sound(s, mine, plan.workload)
    ensures Answerable(plan, s.log)
  {
    forall i | 0 <= i < |plan.steps| ensures Known(plan, s.log, i).Some? {
      assert Addressed(plan, i) && Journal.HasKey(s.log, CommitKey(StepOperation(plan, i)));
      assert StepOperation(plan, i) in PlanOperations(plan) && Strong(s, StepOperation(plan, i), plan.workload);
      KnownIsAddressed(s.log, plan.steps[i].candidates[0].request, plan.workload);
    }
  }

  /** What completing step i did, from state s at the m-th step of the trace to state t. */
  ghost predicate StepOutcome(plan: Plan, i: nat, s: State, m: nat, t: State, run: seq<State>, acts: seq<Action>, mine: set<OperationId>, result: Outcome)
    requires i < |plan.steps|
  {
    && (result.Ok? ==> StepCommitted(plan, t.log, i))
    && (result.Ok? && Promised(run, acts, m, StepOperation(plan, i), plan.workload) ==>
          Addressed(plan, i) && CommittedWith(t.log, plan.workload, StepOperation(plan, i), result.value))
    && (Known(plan, s.log, i).Some? ==>
          Rely(s, t, mine) && (if result.Ok? then Some(result.value) == Known(plan, s.log, i) else result.error == JournalError))
    && (PlanOperations(plan) <= mine && AloneOn(s, mine, plan.workload) ==>
          && AloneOn(t, mine, plan.workload) && KeepsFinal(s.log, t.log, mine, false)
          && (result.Ok? ==> Addressed(plan, i) && CommittedWith(t.log, plan.workload, StepOperation(plan, i), result.value)))
  }

  /** The step could not be looked at. */
  lemma StoppedStep(plan: Plan, i: nat, s: State, m: nat, t: State, run: seq<State>, acts: seq<Action>, mine: set<OperationId>, e: Error)
    requires i < |plan.steps| && Rely(s, t, mine) && Keyed(t.log) && (e == JournalError || plan.steps[i].candidates == [])
    ensures StepOutcome(plan, i, s, m, t, run, acts, mine, Err(e))
  {
    if PlanOperations(plan) <= mine && AloneOn(s, mine, plan.workload) {
      RelyKeepsSound(s, t, mine, plan.workload);
      RelyKeepsIdle(s, t, mine);
    }
  }

  /** The step was answered from the journal. */
  lemma FoundStep(plan: Plan, i: nat, s: State, m: nat, t: State, run: seq<State>, acts: seq<Action>, mine: set<OperationId>)
    requires i < |plan.steps| && Rely(s, t, mine) && Keyed(t.log) && Journal.UniqueKeys(t.log) && Known(plan, t.log, i).Some?
    requires Trace(run, acts) && run[|acts|] == t && m <= |acts|
    ensures StepOutcome(plan, i, s, m, t, run, acts, mine, Ok(Known(plan, t.log, i).value))
  {
    var first := plan.steps[i].candidates[0].request;
    KnownStays(plan, s.log, t.log);
    FoundCommitHasKey(t.log, first);
    if Promised(run, acts, m, first.operation, plan.workload) {
      PromiseHolds(run, acts, m, |acts|, first.operation, plan.workload);
    }
    if PlanOperations(plan) <= mine && AloneOn(s, mine, plan.workload) {
      RelyKeepsSound(s, t, mine, plan.workload);
      RelyKeepsIdle(s, t, mine);
      assert first.operation in mine && Strong(t, first.operation, plan.workload);
    }
    if Strong(t, first.operation, plan.workload) {
      KnownIsAddressed(t.log, first, plan.workload);
    }
  }

  /** The step's candidates were run, from t to u. */
  lemma RanStep(plan: Plan, i: nat, s: State, m: nat, t: State, k: nat, u: State, run: seq<State>, acts: seq<Action>, mine: set<OperationId>, result: Outcome)
    requires i < |plan.steps| && plan.steps[i].candidates != [] && Rely(s, t, mine) && t.log <= u.log && Keyed(t.log) && Journal.UniqueKeys(t.log)
    requires Known(plan, t.log, i).None? && Trace(run, acts) && m <= k <= |acts| && run[k] == t
    requires var op := StepOperation(plan, i);
             && (result.Ok? ==> Addressed(plan, i) && Journal.HasKey(u.log, CommitKey(op)))
             && (result.Ok? && Promised(run, acts, k, op, plan.workload) ==> CommittedWith(u.log, plan.workload, op, result.value))
             && StepTried(t, u, plan.workload, op, mine, Addressed(plan, i), result)
    ensures StepOutcome(plan, i, s, m, u, run, acts, mine, result)
  {
    var first := plan.steps[i].candidates[0].request;
    KnownStays(plan, s.log, t.log);
    if Promised(run, acts, m, first.operation, plan.workload) {
      PromiseHolds(run, acts, m, k, first.operation, plan.workload);
    }
    if PlanOperations(plan) <= mine && AloneOn(s, mine, plan.workload) {
      RelyKeepsSound(s, t, mine, plan.workload);
      RelyKeepsIdle(s, t, mine);
      assert first.operation in mine && Strong(t, first.operation, plan.workload);
      KnownIsAddressed(t.log, first, plan.workload);
    }
  }

  /** What the plan has come to, from state s at the n-th step of the trace to state t. */
  ghost predicate PlanProgress(plan: Plan, s: State, n: nat, t: State, run: seq<State>, acts: seq<Action>, mine: set<OperationId>, receipts: seq<Receipt>) {
    && StepsCommitted(plan, t.log, |receipts|)
    && (PlanPromised(plan, run, acts, n) ==> Completes(plan, t.log, receipts))
    && (Answerable(plan, s.log) ==> Rely(s, t, mine) && Replies(plan, s.log, receipts))
    && (PlanOperations(plan) <= mine && AloneOn(s, mine, plan.workload) ==>
          AloneOn(t, mine, plan.workload) && KeepsFinal(s.log, t.log, mine, false) && Completes(plan, t.log, receipts))
  }

  lemma PlanProgressOn(plan: Plan, s: State, n: nat, s1: State, run1: seq<State>, acts1: seq<Action>, t: State, run: seq<State>, acts: seq<Action>,
                       mine: set<OperationId>, receipts: seq<Receipt>, result: Outcome)
    requires PlanProgress(plan, s, n, s1, run1, acts1, mine, receipts) && |receipts| < |plan.steps|
    requires StepOutcome(plan, |receipts|, s1, |acts1|, t, run, acts, mine, result)
    requires s.log <= s1.log <= t.log && Journal.UniqueKeys(s1.log) && Keyed(s1.log) && Trace(run, acts)
    requires run1 <= run && acts1 <= acts && |run1| == |acts1| + 1 && n <= |acts1|
    ensures result.Ok? ==> PlanProgress(plan, s, n, t, run, acts, mine, receipts + [result.value])
    ensures Answerable(plan, s.log) ==> Rely(s, t, mine) && (result.Err? ==> result.error == JournalError)
    ensures PlanOperations(plan) <= mine && AloneOn(s, mine, plan.workload) ==> AloneOn(t, mine, plan.workload) && KeepsFinal(s.log, t.log, mine, false)
  {
    if Answerable(plan, s.log) {
      AnsweredOn(plan, s, s1, t, mine, receipts, result);
    }
    if PlanPromised(plan, run, acts, n) {
      PlanPromisedBefore(plan, run1, acts1, run, acts, n, |receipts|);
    }
    if result.Ok? {
      CompletedOn(plan, s1.log, t.log, receipts, result.value);
    }
  }

  /** Where a plan stands: what it has come to, and how its steps went. */
  ghost predicate PlanUnderway(plan: Plan, env: PlanAnswers, s: State, n: nat, t: State, run: seq<State>, acts: seq<Action>, mine: set<OperationId>,
                               receipts: seq<Receipt>, tales: seq<StepTale>) {
    && PlanProgress(plan, s, n, t, run, acts, mine, receipts) && StepsTold(plan, env, tales, receipts) && TalesBorne(s, t, plan, env, tales)
  }

  /** One more step of the plan, which may have failed. */
  lemma PlanGoesOn(plan: Plan, env: PlanAnswers, s: State, n: nat, s1: State, run1: seq<State>, acts1: seq<Action>, t: State, run: seq<State>, acts: seq<Action>,
                   mine: set<OperationId>, receipts: seq<Receipt>, tales: seq<StepTale>, tale: StepTale)
    requires PlanUnderway(plan, env, s, n, s1, run1, acts1, mine, receipts, tales) && |receipts| < |plan.steps|
    requires StepOutcome(plan, |receipts|, s1, |acts1|, t, run, acts, mine, tale.result) && StepAccount(plan, |receipts|, env, tale)
    requires AllBorne(s1, t, plan.steps[|receipts|], env.candidate(|receipts|), tale.trials)
    requires s.log <= s1.log <= t.log && Lasting(s, s1) && Lasting(s1, t) && Journal.UniqueKeys(s1.log) && Keyed(s1.log) && Trace(run, acts)
    requires run1 <= run && acts1 <= acts && |run1| == |acts1| + 1 && n <= |acts1|
    ensures tale.result.Ok? ==> PlanUnderway(plan, env, s, n, t, run, acts, mine, receipts + [tale.result.value], tales + [tale])
    ensures tale.result.Err? ==> PlanAccount(plan, env, tales + [tale], Err(tale.result.error)) && TalesBorne(s, t, plan, env, tales + [tale])
    ensures Answerable(plan, s.log) ==> Rely(s, t, mine) && (tale.result.Err? ==> tale.result.error == JournalError)
    ensures PlanOperations(plan) <= mine && AloneOn(s, mine, plan.workload) ==> AloneOn(t, mine, plan.workload) && KeepsFinal(s.log, t.log, mine, false)
  {
    PlanProgressOn(plan, s, n, s1, run1, acts1, t, run, acts, mine, receipts, tale.result);
    TalesBorneOn(s, s1, t, plan, env, tales, tale);
  }

  /** One more step answered from the journal. */
  lemma AnsweredOn(plan: Plan, s: State, t: State, u: State, mine: set<OperationId>, receipts: seq<Receipt>, result: Outcome)
    requires Answerable(plan, s.log) && |receipts| < |plan.steps| && Replies(plan, s.log, receipts)
    requires s.log <= t.log && Journal.UniqueKeys(t.log) && Keyed(t.log) && Rely(s, t, mine)
    requires Known(plan, t.log, |receipts|).Some? ==>
               Rely(t, u, mine) && (if result.Ok? then Some(result.value) == Known(plan, t.log, |receipts|) else result.error == JournalError)
    ensures Rely(s, u, mine) && (if result.Ok? then Replies(plan, s.log, receipts + [result.value]) else result.error == JournalError)
  {
    assert Known(plan, s.log, |receipts|).Some?;
    KnownStays(plan, s.log, t.log);
    RelyTransitive(s, t, u, mine);
  }

  /** One more step committed. */
  lemma CompletedOn(plan: Plan, log: Log, log': Log, receipts: seq<Receipt>, r: Receipt)
    requires log <= log' && |receipts| < |plan.steps| && StepsCommitted(plan, log, |receipts|) && StepCommitted(plan, log', |receipts|)
    ensures StepsCommitted(plan, log', |receipts| + 1)
    ensures Completes(plan, log, receipts) && Addressed(plan, |receipts|) && CommittedWith(log', plan.workload, StepOperation(plan, |receipts|), r) ==>
              Completes(plan, log', receipts + [r])
  {
    CommittedStays(log, log');
    forall i | 0 <= i < |receipts| ensures StepCommitted(plan, log', i) {
      assert StepCommitted(plan, log, i);
    }
  }

  /** The promise to every operation of the plan, over the stretch from i. */
  ghost predicate PlanPromised(plan: Plan, run: seq<State>, acts: seq<Action>, i: nat) {
    forall j :: 0 <= j < |plan.steps| && plan.steps[j].candidates != [] ==> Promised(run, acts, i, StepOperation(plan, j), plan.workload)
  }

  /** The promise holds so far for every operation of `mine`, under workload x. */
  ghost predicate Sound(s: State, mine: set<OperationId>, x: WorkloadId) {
    forall p {:trigger Strong(s, p, x)} :: p in mine ==> Strong(s, p, x)
  }

  lemma RelyKeepsSound(s: State, t: State, mine: set<OperationId>, x: WorkloadId)
    requires Rely(s, t, mine) && Keyed(t.log) && Sound(s, mine, x)
    ensures Sound(t, mine, x) && KeepsFinal(s.log, t.log, mine, false)
  {
    forall p | p in mine ensures Strong(t, p, x) && (Final(s.log, p) ==> Final(t.log, p)) {
      assert Strong(s, p, x) && Apart(s, t, p) && Silent(s.log, t.log, p);
      ApartKeepsStrong(s, t, p, x);
      if Final(s.log, p) {
        SilentKeepsFinal(s.log, t.log, p);
      }
    }
  }

  lemma RelyKeepsIdle(s: State, t: State, mine: set<OperationId>)
    requires Rely(s, t, mine) && Idle(s, mine)
    ensures Idle(t, mine)
  {
    forall id | id in t.workers && t.workers[id].request.operation in mine ensures t.workers[id].pc.Done? {
      assert Apart(s, t, t.workers[id].request.operation);
    }
  }

  lemma ProgressKeepsSound(s: State, t: State, request: Request, mine: set<OperationId>, alone: bool)
    requires Progress(s, t, request, mine, alone) && Sound(s, mine, request.workload)
    ensures Sound(t, mine, request.workload) && KeepsFinal(s.log, t.log, mine, false)
  {
    forall p | p in mine ensures Strong(t, p, request.workload) {
      assert Strong(s, p, request.workload);
    }
    forall p | p in mine && Final(s.log, p) ensures Final(t.log, p) {}
  }

  /** A commit found for the step's first candidate is the plan's own; none found means none exists, for an addressed step. */
  lemma KnownIsAddressed(log: Log, first: Request, x: WorkloadId)
    requires Keyed(log) && RoutedRows(log, first.operation, x)
    ensures Committed(log, first).Some? ==> first.workload == x && CommittedWith(log, x, first.operation, Committed(log, first).value)
    ensures first.workload == x ==> (Committed(log, first).Some? <==> Journal.HasKey(log, CommitKey(first.operation)))
  {
    LookupsAreComplete(log, first.operation, x);
    if Committed(log, first).Some? {
      var r := Committed(log, first).value;
      var i :| 0 <= i < |log| && log[i].workload == first.workload && log[i].record == Record(first.operation, StepCommit(r));
      assert KeyedRow(log[i]);
    }
  }

  lemma QuietKeepsSound(s: State, t: State, mine: set<OperationId>, x: WorkloadId)
    requires Quiet(s, t, mine) && Keyed(t.log) && Sound(s, mine, x)
    ensures Sound(t, mine, x)
  {
    forall p | p in mine ensures Strong(t, p, x) {
      assert Strong(s, p, x) && Apart(s, t, p);
      ApartKeepsStrong(s, t, p, x);
    }
  }

  lemma QuietKeeps(s: State, t: State, mine: set<OperationId>, op: OperationId)
    requires Quiet(s, t, mine) && Idle(s, mine) && Keyed(t.log) && op in mine
    ensures Idle(t, mine)
    ensures !Journal.HasKey(s.log, CommitKey(op)) ==> !Journal.HasKey(t.log, CommitKey(op))
  {
    forall id | id in t.workers && t.workers[id].request.operation in mine ensures t.workers[id].pc.Done? {
      assert Apart(s, t, t.workers[id].request.operation);
    }
    if !Journal.HasKey(s.log, CommitKey(op)) {
      StaysUncommitted(s.log, t.log, op);
    }
  }

  /** The only caller on `mine`, all of it promised to workload x so far. */
  ghost predicate AloneOn(s: State, mine: set<OperationId>, x: WorkloadId) {
    Idle(s, mine) && Sound(s, mine, x)
  }

  lemma QuietKeepsAlone(s: State, t: State, mine: set<OperationId>, x: WorkloadId, op: OperationId)
    requires Quiet(s, t, mine) && AloneOn(s, mine, x) && Keyed(t.log) && op in mine
    ensures AloneOn(t, mine, x)
    ensures !Journal.HasKey(s.log, CommitKey(op)) ==> !Journal.HasKey(t.log, CommitKey(op))
  {
    QuietKeeps(s, t, mine, op);
    QuietKeepsSound(s, t, mine, x);
  }

  /** What an attempt at an uncommitted operation gives the only caller on it. */
  ghost predicate Tried(s: State, t: State, request: Request, mine: set<OperationId>, result: Outcome) {
    var op, x := request.operation, request.workload;
    op in mine && AloneOn(s, mine, x) && !Journal.HasKey(s.log, CommitKey(op)) ==>
      && AloneOn(t, mine, x) && KeepsFinal(s.log, t.log, mine, false)
      && (result.Ok? ==> CommittedWith(t.log, x, op, result.value))
      && (result.Err? && Retryable(result.error) ==> !Journal.HasKey(t.log, CommitKey(op)))
  }

  lemma ExecutedIsTried(s: State, t: State, request: Request, mine: set<OperationId>, alone: bool, result: Outcome)
    requires request.operation in mine && Idle(s, mine) ==> Idle(t, mine) && Progress(s, t, request, mine, alone)
    requires request.operation in mine && Idle(s, mine) && Strong(s, request.operation, request.workload) ==>
               && (result.Ok? ==> CommittedWith(t.log, request.workload, request.operation, result.value))
               && (result.Err? && Retryable(result.error) ==> !Journal.HasKey(t.log, CommitKey(request.operation)))
    ensures Tried(s, t, request, mine, result)
  {
    if request.operation in mine && AloneOn(s, mine, request.workload) {
      assert Strong(s, request.operation, request.workload);
      ProgressKeepsSound(s, t, request, mine, alone);
    }
  }

  /** Rebinding an uncommitted operation first. */
  lemma RebindThenTried(s: State, t: State, u: State, request: Request, mine: set<OperationId>, result: Outcome)
    requires Quiet(s, t, mine) && Keyed(t.log) && Tried(t, u, request, mine, result)
    requires !Journal.HasKey(s.log, CommitKey(request.operation)) ==> KeepsFinal(s.log, t.log, mine, false)
    ensures Tried(s, u, request, mine, result)
  {
    if request.operation in mine && AloneOn(s, mine, request.workload) && !Journal.HasKey(s.log, CommitKey(request.operation)) {
      QuietKeepsAlone(s, t, mine, request.workload, request.operation);
    }
  }

  /** Recording the failure afterwards; failing to record it ends the attempt. */
  lemma TriedThenNoted(s: State, t: State, u: State, request: Request, mine: set<OperationId>, result: Outcome)
    requires Tried(s, t, request, mine, result) && result.Err? && Retryable(result.error)
    requires Quiet(t, u, mine) && Keyed(u.log) && KeepsFinal(t.log, u.log, mine, false)
    ensures Tried(s, u, request, mine, result) && Tried(s, u, request, mine, Err(JournalError))
  {
    if request.operation in mine && AloneOn(s, mine, request.workload) && !Journal.HasKey(s.log, CommitKey(request.operation)) {
      QuietKeepsAlone(t, u, mine, request.workload, request.operation);
    }
  }

  /** What trying the candidates of a step keeps for the only caller on it, until one commits. */
  ghost predicate Trying(s: State, t: State, x: WorkloadId, op: OperationId, mine: set<OperationId>, addressed: bool) {
    op in mine && AloneOn(s, mine, x) && (addressed ==> !Journal.HasKey(s.log, CommitKey(op))) ==>
      AloneOn(t, mine, x) && KeepsFinal(s.log, t.log, mine, false) && (addressed ==> !Journal.HasKey(t.log, CommitKey(op)))
  }

  lemma TryingNoted(s: State, t: State, u: State, x: WorkloadId, op: OperationId, mine: set<OperationId>, addressed: bool)
    requires Trying(s, t, x, op, mine, addressed) && Quiet(t, u, mine) && Keyed(u.log) && KeepsFinal(t.log, u.log, mine, false)
    ensures Trying(s, u, x, op, mine, addressed)
  {
    if op in mine && AloneOn(t, mine, x) {
      QuietKeepsAlone(t, u, mine, x, op);
    }
  }

  /** What the candidates of a step come to. */
  ghost predicate StepTried(s: State, t: State, x: WorkloadId, op: OperationId, mine: set<OperationId>, addressed: bool, result: Outcome) {
    op in mine && AloneOn(s, mine, x) && (addressed ==> !Journal.HasKey(s.log, CommitKey(op))) ==>
      AloneOn(t, mine, x) && KeepsFinal(s.log, t.log, mine, false) && (result.Ok? ==> CommittedWith(t.log, x, op, result.value))
  }

  lemma TryingTried(s: State, t: State, u: State, request: Request, mine: set<OperationId>, result: Outcome)
    requires Trying(s, t, request.workload, request.operation, mine, true) && Tried(t, u, request, mine, result)
    ensures StepTried(s, u, request.workload, request.operation, mine, true, result)
    ensures result.Err? && Retryable(result.error) ==> Trying(s, u, request.workload, request.operation, mine, true)
  {
  }

  lemma RebindFailed(s: State, t: State, request: Request, mine: set<OperationId>)
    requires Quiet(s, t, mine) && Keyed(t.log)
    requires !Journal.HasKey(s.log, CommitKey(request.operation)) ==> KeepsFinal(s.log, t.log, mine, false)
    ensures Tried(s, t, request, mine, Err(JournalError))
  {
    if request.operation in mine && AloneOn(s, mine, request.workload) && !Journal.HasKey(s.log, CommitKey(request.operation)) {
      QuietKeepsAlone(s, t, mine, request.workload, request.operation);
    }
  }

  /** What a note and others' steps leave of the operation's pending status. */
  lemma NotePending(s: State, row: Row, t: State, mine: set<OperationId>)
    requires Noted(row) && Keyed(t.log) && Rely(s.(log := Journal.Appended(s.log, row)), t, mine) && row.record.op in mine
    ensures var op := row.record.op;
            if row.record.body.Intent? && !Journal.HasKey(s.log, row.key.value)
            then op in Pending(t.log) && Pending(t.log)[op] == row.record.body.request
            else SamePending(s.log, t.log, op)
  {
    var op, mid := row.record.op, Journal.Appended(s.log, row);
    assert Silent(mid, t.log, op);
    PendingOthers(mid, t.log, op);
    if row.record.body.Intent? && !Journal.HasKey(s.log, row.key.value) {
      assert (s.log + [row])[..|s.log|] == s.log;
    } else {
      AppendKeepsPending(s.log, row, op);
    }
  }

  lemma NoteThenOthers(s: State, row: Row, t: State, mine: set<OperationId>)
    requires Noted(row) && Keyed(s.log) && Rely(s.(log := Journal.Appended(s.log, row)), t, mine)
    ensures Quiet(s, t, mine)
    ensures (row.record.body.Intent? ==> !Journal.HasKey(s.log, CommitKey(row.record.op))) ==> KeepsFinal(s.log, t.log, mine, false)
  {
    var mid := s.(log := Journal.Appended(s.log, row));
    AppendFacts(s.log, row);
    var orderly := row.record.body.Intent? ==> !Journal.HasKey(s.log, CommitKey(row.record.op));
    forall p | p in mine ensures Apart(s, t, p) && (orderly && Final(s.log, p) ==> Final(t.log, p)) {
      assert Apart(mid, t, p) && Silent(mid.log, t.log, p);
      if orderly && Final(s.log, p) {
        AppendKeepsFinal(s.log, row, p);
        SilentKeepsFinal(mid.log, t.log, p);
      }
    }
    forall i | |s.log| <= i < |t.log| && t.log[i].record.op in mine ensures !IsEffect(t.log[i].record.body) {
      assert Silent(mid.log, t.log, t.log[i].record.op);
      assert t.log[i] == mid.log[i];
    }
  }

  lemma WholePlanPromisedBefore(plan: Plan, run: seq<State>, acts: seq<Action>, run': seq<State>, acts': seq<Action>, n: nat)
    requires run <= run' && acts <= acts' && |run| == |acts| + 1 && n <= |acts| && PlanPromised(plan, run', acts', n)
    ensures PlanPromised(plan, run, acts, n)
  {
    forall j | 0 <= j < |plan.steps| && plan.steps[j].candidates != [] ensures Promised(run, acts, n, StepOperation(plan, j), plan.workload) {
      PromisedBefore(run, acts, run', acts', n, StepOperation(plan, j), plan.workload);
    }
  }

  /** The stretch up to step i of the plan, and the stretch of step i itself. */
  lemma PlanPromisedBefore(plan: Plan, run: seq<State>, acts: seq<Action>, run': seq<State>, acts': seq<Action>, n: nat, i: nat)
    requires run <= run' && acts <= acts' && |run| == |acts| + 1 && n <= |acts| && Trace(run', acts')
    requires PlanPromised(plan, run', acts', n) && i < |plan.steps|
    ensures PlanPromised(plan, run, acts, n)
    ensures plan.steps[i].candidates != [] ==> Promised(run', acts', |acts|, StepOperation(plan, i), plan.workload)
  {
    WholePlanPromisedBefore(plan, run, acts, run', acts', n);
    if plan.steps[i].candidates != [] {
      PromiseHolds(run', acts', n, |acts|, StepOperation(plan, i), plan.workload);
    }
  }

  /** The journal answers a plan in one way. */
  lemma SameAnswers(plan: Plan, log: Log, first: seq<Receipt>, second: seq<Receipt>)
    requires Replies(plan, log, first) && Replies(plan, log, second) && |first| == |second|
    ensures first == second
  {
    forall i | 0 <= i < |first| ensures first[i] == second[i] {
      assert Known(plan, log, i) == Some(first[i]) && Known(plan, log, i) == Some(second[i]);
    }
  }
}
