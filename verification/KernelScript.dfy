/**
 One execution as the straight-line program it is: given what the environment
 answers and what the lookups find, which steps it takes, which rows it offers to
 the journal and what it returns. `KernelSystem` cuts the same program into
 atomic steps; `KernelRuntime.Execute` is proved to follow the script.
 */
module KernelScript {
  import opened Prelude
  import Journal
  import opened KernelSystem
  import opened KernelBase

  type Refusal = e: Error | EarlyError(e) witness Admission

  /** What the environment answers: refusals, which appends are stored, fencing, cancellation and the provider. */
  datatype Answers = Answers(
    refusal: Option<Refusal>,     // invalid references, shutdown, unreadable journal
    placement: Option<Refusal>,   // rejected by admission or by the scheduler
    decision: bool, grant: bool, fenced: bool,
    commitReadable: bool, intent: bool, cancelled: bool, receiptReadable: bool,
    provider: Outcome, receipt: bool, commit: bool,
    profile: bool, abort: bool, failure: bool, phase: bool, release: bool)

  /** What the execution finds: a commit at the start, a live lease, a commit under the lease, a durable receipt. */
  datatype Findings = Findings(first: Option<Receipt>, leased: bool, second: Option<Receipt>, received: Option<Receipt>)

  /** Nothing goes wrong around the provider and the provider succeeds. */
  predicate Good(a: Answers) {
    && a.refusal.None? && a.placement.None? && a.decision && a.grant && a.fenced
    && a.commitReadable && a.intent && !a.cancelled && a.receiptReadable
    && a.provider.Ok? && a.receipt && a.commit
    && a.profile && a.abort && a.failure && a.phase && a.release
  }

  // ---------------------------------------------------------------------------
  // Under the lease
  // ---------------------------------------------------------------------------

  function Stored(yes: bool, body: Body): seq<Body> {
    if yes then [body] else []
  }

  function Committing(a: Answers, r: Receipt): Outcome {
    if a.commit then Ok(r) else Err(JournalError)
  }

  /** The provider is asked: no commit found, not cancelled, no receipt found. */
  predicate Asks(a: Answers, f: Findings) {
    a.commitReadable && f.second.None? && a.intent && !a.cancelled && a.receiptReadable && f.received.None?
  }

  function AskedActs(a: Answers): seq<Act> {
    [CallProvider, ProviderReturns(a.provider)] +
    if a.provider.Err? then [] else [JournalReceipt(a.receipt)] + if a.receipt then [JournalCommit(a.commit)] else []
  }

  function AskedRows(a: Answers): seq<Body> {
    if a.provider.Err? then []
    else Stored(a.receipt, Received(a.provider.value)) + if a.receipt then Stored(a.commit, StepCommit(a.provider.value)) else []
  }

  function Asked(a: Answers): Outcome {
    if a.provider.Err? then a.provider else if !a.receipt then Err(JournalError) else Committing(a, a.provider.value)
  }

  function IntendedVerdict(a: Answers, received: Option<Receipt>): Outcome {
    if a.cancelled then Err(Cancelled)
    else if !a.receiptReadable then Err(JournalError)
    else if received.Some? then Committing(a, received.value)
    else Asked(a)
  }

  function IntendedActs(a: Answers, received: Option<Receipt>): seq<Act> {
    [CheckReceived(a.cancelled, a.receiptReadable)] +
    if a.cancelled || !a.receiptReadable then [] else if received.Some? then [JournalCommit(a.commit)] else AskedActs(a)
  }

  function IntendedRows(a: Answers, received: Option<Receipt>): seq<Body> {
    if a.cancelled || !a.receiptReadable then []
    else if received.Some? then Stored(a.commit, StepCommit(received.value)) else AskedRows(a)
  }

  /** What `execute_cancellable` returns. */
  function Inner(a: Answers, f: Findings): Outcome {
    if !a.commitReadable then Err(JournalError)
    else if f.second.Some? then Ok(f.second.value)
    else if !a.intent then Err(JournalError)
    else IntendedVerdict(a, f.received)
  }

  function InnerActs(a: Answers, f: Findings): seq<Act> {
    [CheckCommitted(a.commitReadable)] +
    if !a.commitReadable || f.second.Some? then []
    else [JournalIntent(a.intent)] + if a.intent then IntendedActs(a, f.received) else []
  }

  function InnerRows(a: Answers, f: Findings, request: Request): seq<Body> {
    if !a.commitReadable || f.second.Some? then []
    else Stored(a.intent, Intent(request, false)) + if a.intent then IntendedRows(a, f.received) else []
  }

  // ---------------------------------------------------------------------------
  // Bookkeeping
  // ---------------------------------------------------------------------------

  /** The workload phase an execution ends in. */
  function EndPhase(outcome: Outcome): WorkloadPhase {
    if outcome.Ok? then Completed else if outcome.error.Cancelled? then WorkloadCancelled else Failed
  }

  function FirstClosingActs(a: Answers, outcome: Outcome): seq<Act> {
    [Close(a.profile)] + if outcome.Err? then [Close(a.abort), Close(a.failure)] else []
  }

  function FirstClosingRows(a: Answers, request: Request, outcome: Outcome): seq<Body> {
    Stored(a.profile, Profile(request.revision, outcome.Err?)) +
    if outcome.Err? then Stored(a.abort, OperationAbort(request.revision)) + Stored(a.failure, OperationFailure) else []
  }

  function LastClosingActs(a: Answers): seq<Act> {
    [Close(a.phase), Release, JournalRelease(a.release)]
  }

  function LastClosingRows(a: Answers, outcome: Outcome, l: LeaseId): seq<Body> {
    Stored(a.phase, Workload(EndPhase(outcome))) + Stored(a.release, LeaseReleased(l))
  }

  function ClosingActs(a: Answers, outcome: Outcome): seq<Act> {
    FirstClosingActs(a, outcome) + LastClosingActs(a)
  }

  function ClosingRows(a: Answers, request: Request, l: LeaseId, outcome: Outcome): seq<Body> {
    FirstClosingRows(a, request, outcome) + LastClosingRows(a, outcome, l)
  }

  /** A failed bookkeeping append outranks the outcome. */
  function Closed(a: Answers, outcome: Outcome): Outcome {
    if a.profile && (outcome.Err? ==> a.abort && a.failure) && a.phase && a.release then outcome else Err(JournalError)
  }

  // ---------------------------------------------------------------------------
  // The whole execution
  // ---------------------------------------------------------------------------

  function GrantedVerdict(a: Answers, f: Findings): Outcome {
    if !a.grant then Err(JournalError) else if !a.fenced then Err(Resource) else Closed(a, Inner(a, f))
  }

  function GrantedActs(a: Answers, f: Findings): seq<Act> {
    [JournalGrant(a.grant)] +
    if !a.grant then [] else [Authorize(a.fenced)] + if a.fenced then InnerActs(a, f) + ClosingActs(a, Inner(a, f)) else []
  }

  function GrantedRows(a: Answers, f: Findings, request: Request, l: LeaseId): seq<Body> {
    Stored(a.grant, LeaseActive(l)) +
    if a.grant && a.fenced then InnerRows(a, f, request) + ClosingRows(a, request, l, Inner(a, f)) else []
  }

  function AdmittedVerdict(a: Answers, f: Findings): Outcome {
    if a.placement.Some? then Err(a.placement.value)
    else if !a.decision then Err(JournalError)
    else if f.leased then Err(Resource)
    else GrantedVerdict(a, f)
  }

  function AdmittedActs(a: Answers, f: Findings): seq<Act> {
    if a.placement.Some? then [Refuse(a.placement.value)]
    else [JournalDecision(a.decision)] +
         if !a.decision then [] else if f.leased then [GrantRefused] else [Grant] + GrantedActs(a, f)
  }

  function AdmittedRows(a: Answers, f: Findings, request: Request, l: LeaseId): seq<Body> {
    if a.placement.Some? then []
    else Stored(a.decision, SchedulerDecision) + if a.decision && !f.leased then GrantedRows(a, f, request, l) else []
  }

  /** What `execute_internal` returns. */
  function Verdict(a: Answers, f: Findings): Outcome {
    if a.refusal.Some? then Err(a.refusal.value)
    else if f.first.Some? then Ok(f.first.value)
    else AdmittedVerdict(a, f)
  }

  /** The steps it takes. */
  function Script(a: Answers, f: Findings): seq<Act> {
    if a.refusal.Some? then [Refuse(a.refusal.value)]
    else if f.first.Some? then [Replay]
    else [Admit] + AdmittedActs(a, f)
  }

  /** The rows it offers to the journal, l being the lease it is granted. */
  function Rows(a: Answers, f: Findings, request: Request, l: LeaseId): seq<Body> {
    if a.refusal.Some? || f.first.Some? then [] else AdmittedRows(a, f, request, l)
  }

  /** The outcome of a scripted execution. */
  ghost predicate Scripted(a: Answers, outcome: Outcome) {
    exists f :: outcome == Verdict(a, f)
  }

  /** It asks the provider. */
  predicate Calls(a: Answers, f: Findings) {
    && a.refusal.None? && f.first.None? && a.placement.None? && a.decision && !f.leased && a.grant && a.fenced
    && Asks(a, f)
  }

  lemma CallsAreScripted(a: Answers, f: Findings)
    ensures CallProvider in Script(a, f) <==> Calls(a, f)
  {
    assert CallProvider in InnerActs(a, f) <==> Asks(a, f) by {
      assert CallProvider in AskedActs(a);
      assert CallProvider in IntendedActs(a, f.received) <==> !a.cancelled && a.receiptReadable && f.received.None?;
    }
    assert CallProvider !in ClosingActs(a, Inner(a, f));
    assert CallProvider in GrantedActs(a, f) <==> a.grant && a.fenced && Asks(a, f);
  }

  /** With good answers and no lease in the way, an execution succeeds whatever it finds. */
  lemma GoodSucceeds(a: Answers, f: Findings)
    requires Good(a) && !f.leased
    ensures Verdict(a, f).Ok?
  {
  }

  // ---------------------------------------------------------------------------
  // Step by step
  // ---------------------------------------------------------------------------

  /** The next step of an execution, given the environment's answers. */
  function Chosen(a: Answers, log: Log, leases: map<LeaseId, Lease>, wk: Worker): Act
    requires !wk.pc.Done?
  {
    match wk.pc
    case Begin => if a.refusal.Some? then Refuse(a.refusal.value) else if Committed(log, wk.request).Some? then Replay else Admit
    case Admitted => if a.placement.Some? then Refuse(a.placement.value) else JournalDecision(a.decision)
    case Scheduled => if Leased(leases, wk.request.workload) then GrantRefused else Grant
    case Held(_, stage) => ChosenHeld(a, stage)
    case Released(_, _, _) => JournalRelease(a.release)
  }

  function ChosenHeld(a: Answers, stage: Stage): Act {
    match stage
    case Granted => JournalGrant(a.grant)
    case Active => Authorize(a.fenced)
    case Authorized => CheckCommitted(a.commitReadable)
    case Intending => JournalIntent(a.intent)
    case Intended => CheckReceived(a.cancelled, a.receiptReadable)
    case Unreceived => CallProvider
    case Calling => ProviderReturns(a.provider)
    case Answered(_) => JournalReceipt(a.receipt)
    case Durable(_) => JournalCommit(a.commit)
    case Closing(n, _, _) =>
      if n == 0 then Close(a.profile) else if n == 1 then Close(a.abort) else if n == 2 then Close(a.failure)
      else if n == 3 then Close(a.phase) else Release
  }

  /** The same answer to everything. */
  function Always(yes: bool, cancelled: bool, provider: Outcome): Answers {
    Answers(None, None, yes, yes, yes, yes, yes, cancelled, yes, provider, yes, yes, yes, yes, yes, yes, yes)
  }

  /** A worker takes no step that is not the script's for some answers. */
  lemma EveryStepIsScripted(log: Log, leases: map<LeaseId, Lease>, wk: Worker, act: Act) returns (a: Answers)
    requires Ready(log, leases, wk, act)
    ensures !wk.pc.Done? && Chosen(a, log, leases, wk) == act
  {
    match act
    case Refuse(e) => a := Always(true, false, Err(e)).(refusal := Some(e), placement := Some(e));
    case JournalDecision(b) => a := Always(b, false, Err(Resource));
    case JournalGrant(b) => a := Always(b, false, Err(Resource));
    case Authorize(b) => a := Always(b, false, Err(Resource));
    case CheckCommitted(b) => a := Always(b, false, Err(Resource));
    case JournalIntent(b) => a := Always(b, false, Err(Resource));
    case CheckReceived(cancelled, b) => a := Always(b, cancelled, Err(Resource));
    case ProviderReturns(outcome) => a := Always(true, false, outcome);
    case JournalReceipt(b) => a := Always(b, false, Err(Resource));
    case JournalCommit(b) => a := Always(b, false, Err(Resource));
    case Close(b) => a := Always(b, false, Err(Resource));
    case JournalRelease(b) => a := Always(b, false, Err(Resource));
    case _ => a := Always(true, false, Err(Resource));
  }

  const Entering: seq<Act> := [Admit, JournalDecision(true), Grant, JournalGrant(true), Authorize(true)]

  const Asking: seq<Act> := [CheckCommitted(true), JournalIntent(true), CheckReceived(false, true)]

  /** Nothing kept the execution from its lease. */
  predicate Entered(a: Answers, f: Findings) {
    a.refusal.None? && f.first.None? && a.placement.None? && a.decision && !f.leased && a.grant && a.fenced
  }

  predicate Unanswered(a: Answers, f: Findings) {
    Entered(a, f) && a.commitReadable && f.second.None? && a.intent
  }

  /** The bookkeeping steps before the n-th row. */
  function ClosedActs(a: Answers, outcome: Outcome, n: nat): seq<Act> {
    (if n > 0 then [Close(a.profile)] else [])
    + (if outcome.Err? && n > 1 then [Close(a.abort)] else []) + (if outcome.Err? && n > 2 then [Close(a.failure)] else [])
    + if n > 3 then [Close(a.phase)] else []
  }

  function ClosedRows(a: Answers, request: Request, outcome: Outcome, n: nat): seq<Body> {
    (if n > 0 then Stored(a.profile, Profile(request.revision, outcome.Err?)) else [])
    + (if outcome.Err? && n > 1 then Stored(a.abort, OperationAbort(request.revision)) else [])
    + (if outcome.Err? && n > 2 then Stored(a.failure, OperationFailure) else [])
    + if n > 3 then Stored(a.phase, Workload(EndPhase(outcome))) else []
  }

  predicate Missed(a: Answers, outcome: Outcome, n: nat) {
    || (n > 0 && !a.profile) || (n > 3 && !a.phase)
    || (outcome.Err? && ((n > 1 && !a.abort) || (n > 2 && !a.failure)))
  }

  function EnteringRows(l: LeaseId): seq<Body> {
    [SchedulerDecision, LeaseActive(l)]
  }

  /** What an execution has done and offered when it stands at a stage under lease l. */
  predicate AtStage(a: Answers, f: Findings, request: Request, l: LeaseId, stage: Stage, done: seq<Act>, rows: seq<Body>) {
    match stage
    case Granted => Granting(a, f) && done == Entering[..3] && rows == [SchedulerDecision]
    case Active => Granting(a, f) && a.grant && done == Entering[..4] && rows == EnteringRows(l)
    case Authorized => Entered(a, f) && done == Entering && rows == EnteringRows(l)
    case Intending => Entered(a, f) && a.commitReadable && f.second.None? && done == Entering + Asking[..1] && rows == EnteringRows(l)
    case Intended => Unanswered(a, f) && done == Entering + Asking[..2] && rows == EnteringRows(l) + [Intent(request, false)]
    case Unreceived => Unhelped(a, f) && done == Entering + Asking && rows == EnteringRows(l) + [Intent(request, false)]
    case Calling => Unhelped(a, f) && done == Entering + Asking + [CallProvider] && rows == EnteringRows(l) + [Intent(request, false)]
    case Answered(r) =>
      && Unhelped(a, f) && a.provider == Ok(r) && done == Entering + Asking + [CallProvider, ProviderReturns(a.provider)]
      && rows == EnteringRows(l) + [Intent(request, false)]
    case Durable(r) =>
      || (Unanswered(a, f) && !a.cancelled && a.receiptReadable && f.received == Some(r)
          && done == Entering + Asking && rows == EnteringRows(l) + [Intent(request, false)])
      || (Unhelped(a, f) && a.provider == Ok(r) && a.receipt
          && done == Entering + Asking + [CallProvider, ProviderReturns(a.provider), JournalReceipt(true)]
          && rows == EnteringRows(l) + [Intent(request, false), Received(r)])
    case Closing(n, outcome, failed) => AtClosing(a, f, request, l, n, outcome, failed, done, rows)
  }

  predicate AtClosing(a: Answers, f: Findings, request: Request, l: LeaseId, n: nat, outcome: Outcome, failed: bool, done: seq<Act>, rows: seq<Body>) {
    && Entered(a, f) && outcome == Inner(a, f)
    && ClosingAfter(Entering + InnerActs(a, f), EnteringRows(l) + InnerRows(a, f, request), a, request, n, outcome, failed, done, rows)
  }

  predicate ClosingAfter(acts: seq<Act>, bodies: seq<Body>, a: Answers, request: Request, n: nat, outcome: Outcome, failed: bool, done: seq<Act>, rows: seq<Body>) {
    && n <= 4 && (outcome.Ok? ==> n in {0, 3, 4}) && failed == Missed(a, outcome, n)
    && done == acts + ClosedActs(a, outcome, n) && rows == bodies + ClosedRows(a, request, outcome, n)
  }

  predicate Granting(a: Answers, f: Findings) {
    a.refusal.None? && f.first.None? && a.placement.None? && a.decision && !f.leased
  }

  /** Neither a commit nor a cancellation nor a receipt spares the provider. */
  predicate Unhelped(a: Answers, f: Findings) {
    Unanswered(a, f) && !a.cancelled && a.receiptReadable && f.received.None?
  }

  /** What an execution has done and offered where it stands. */
  predicate OnCourse(a: Answers, f: Findings, l: LeaseId, wk: Worker, done: seq<Act>, rows: seq<Body>) {
    match wk.pc
    case Begin => done == [] && rows == []
    case Admitted => a.refusal.None? && f.first.None? && done == Entering[..1] && rows == []
    case Scheduled => a.refusal.None? && f.first.None? && a.placement.None? && a.decision && done == Entering[..2] && rows == [SchedulerDecision]
    case Held(m, stage) => m == l && AtStage(a, f, wk.request, l, stage, done, rows)
    case Released(m, outcome, failed) =>
      && m == l && Entered(a, f) && outcome == Inner(a, f) && failed == Missed(a, outcome, 4)
      && done == Entering + InnerActs(a, f) + ClosedActs(a, outcome, 4) + [Release]
      && rows == EnteringRows(l) + InnerRows(a, f, wk.request) + ClosedRows(a, wk.request, outcome, 4)
    case Done(result) => done == Script(a, f) && rows == Rows(a, f, wk.request, l) && result == Verdict(a, f)
  }

  /** The findings after a step: what it looked up. */
  function Finds(f: Findings, log: Log, leases: map<LeaseId, Lease>, wk: Worker): Findings {
    match wk.pc
    case Begin => f.(first := Committed(log, wk.request))
    case Scheduled => f.(leased := Leased(leases, wk.request.workload))
    case Held(_, Authorized) => f.(second := Committed(log, wk.request))
    case Held(_, Intended) => f.(received := ReceivedReceipt(log, wk.request.workload, wk.request.operation))
    case _ => f
  }

  function Appends(wk: Worker, act: Act): seq<Body> {
    if Written(wk, act).Some? then [Written(wk, act).value] else []
  }

  lemma CourseBeforeLease(a: Answers, f: Findings, l: LeaseId, log: Log, leases: map<LeaseId, Lease>, next: LeaseId, wk: Worker, done: seq<Act>, rows: seq<Body>)
    requires OnCourse(a, f, l, wk, done, rows) && (wk.pc.Begin? || wk.pc.Admitted? || wk.pc.Scheduled?)
    ensures var act, f' := Chosen(a, log, leases, wk), Finds(f, log, leases, wk);
            && Ready(log, leases, wk, act)
            && OnCourse(a, f', if act.Grant? then next else l, wk.(pc := NextPc(log, leases, next, wk, act)), done + [act], rows + Appends(wk, act))
  {
  }

  lemma CourseEntering(a: Answers, f: Findings, l: LeaseId, log: Log, leases: map<LeaseId, Lease>, next: LeaseId, wk: Worker, done: seq<Act>, rows: seq<Body>)
    requires OnCourse(a, f, l, wk, done, rows) && wk.pc.Held? && (wk.pc.stage.Granted? || wk.pc.stage.Active?)
    ensures var act := Chosen(a, log, leases, wk);
            && Ready(log, leases, wk, act)
            && OnCourse(a, f, l, wk.(pc := NextPc(log, leases, next, wk, act)), done + [act], rows + Appends(wk, act))
  {
  }

  lemma CourseLooking(a: Answers, f: Findings, l: LeaseId, log: Log, leases: map<LeaseId, Lease>, next: LeaseId, wk: Worker, done: seq<Act>, rows: seq<Body>)
    requires OnCourse(a, f, l, wk, done, rows) && wk.pc.Held? && (wk.pc.stage.Authorized? || wk.pc.stage.Intending? || wk.pc.stage.Intended?)
    ensures var act, f' := Chosen(a, log, leases, wk), Finds(f, log, leases, wk);
            && Ready(log, leases, wk, act)
            && OnCourse(a, f', l, wk.(pc := NextPc(log, leases, next, wk, act)), done + [act], rows + Appends(wk, act))
  {
  }

  lemma CourseCalling(a: Answers, f: Findings, l: LeaseId, log: Log, leases: map<LeaseId, Lease>, next: LeaseId, wk: Worker, done: seq<Act>, rows: seq<Body>)
    requires OnCourse(a, f, l, wk, done, rows) && wk.pc.Held? && wk.pc.stage.Unreceived?
    ensures var act := Chosen(a, log, leases, wk);
            && Ready(log, leases, wk, act)
            && OnCourse(a, f, l, wk.(pc := NextPc(log, leases, next, wk, act)), done + [act], rows + Appends(wk, act))
  {
  }

  lemma CourseReturning(a: Answers, f: Findings, l: LeaseId, log: Log, leases: map<LeaseId, Lease>, next: LeaseId, wk: Worker, done: seq<Act>, rows: seq<Body>)
    requires OnCourse(a, f, l, wk, done, rows) && wk.pc.Held? && wk.pc.stage.Calling?
    ensures var act := Chosen(a, log, leases, wk);
            && Ready(log, leases, wk, act)
            && OnCourse(a, f, l, wk.(pc := NextPc(log, leases, next, wk, act)), done + [act], rows + Appends(wk, act))
  {
    if a.provider.Err? {
      assert InnerActs(a, f) == Asking + [CallProvider, ProviderReturns(a.provider)];
      assert InnerRows(a, f, wk.request) == [Intent(wk.request, false)];
    }
  }

  lemma CourseAnswered(a: Answers, f: Findings, l: LeaseId, log: Log, leases: map<LeaseId, Lease>, next: LeaseId, wk: Worker, done: seq<Act>, rows: seq<Body>)
    requires OnCourse(a, f, l, wk, done, rows) && wk.pc.Held? && wk.pc.stage.Answered?
    ensures var act := Chosen(a, log, leases, wk);
            && Ready(log, leases, wk, act)
            && OnCourse(a, f, l, wk.(pc := NextPc(log, leases, next, wk, act)), done + [act], rows + Appends(wk, act))
  {
    if !a.receipt {
      assert InnerActs(a, f) == Asking + [CallProvider, ProviderReturns(a.provider), JournalReceipt(false)];
      assert InnerRows(a, f, wk.request) == [Intent(wk.request, false)];
    }
  }

  lemma FoundScript(a: Answers, f: Findings, request: Request, r: Receipt)
    requires Unanswered(a, f) && !a.cancelled && a.receiptReadable && f.received == Some(r)
    ensures Entering + Asking + [JournalCommit(a.commit)] == Entering + InnerActs(a, f)
    ensures InnerRows(a, f, request) == [Intent(request, false)] + Stored(a.commit, StepCommit(r)) && Inner(a, f) == Committing(a, r)
  {
  }

  lemma AskedScript(a: Answers, f: Findings, request: Request, r: Receipt)
    requires Unhelped(a, f) && a.provider == Ok(r) && a.receipt
    ensures Entering + Asking + [CallProvider, ProviderReturns(a.provider), JournalReceipt(true)] + [JournalCommit(a.commit)] == Entering + InnerActs(a, f)
    ensures InnerRows(a, f, request) == [Intent(request, false), Received(r)] + Stored(a.commit, StepCommit(r)) && Inner(a, f) == Committing(a, r)
  {
  }

  lemma CourseDurable(a: Answers, f: Findings, l: LeaseId, log: Log, leases: map<LeaseId, Lease>, next: LeaseId, wk: Worker, done: seq<Act>, rows: seq<Body>)
    requires OnCourse(a, f, l, wk, done, rows) && wk.pc.Held? && wk.pc.stage.Durable?
    ensures var act := Chosen(a, log, leases, wk);
            && Ready(log, leases, wk, act)
            && OnCourse(a, f, l, wk.(pc := NextPc(log, leases, next, wk, act)), done + [act], rows + Appends(wk, act))
  {
    if f.received.Some? {
      FoundScript(a, f, wk.request, wk.pc.stage.receipt);
    } else {
      AskedScript(a, f, wk.request, wk.pc.stage.receipt);
    }
  }

  /** One more bookkeeping row. */
  lemma ClosedOn(a: Answers, request: Request, outcome: Outcome, n: nat)
    requires n < 4 && (outcome.Ok? ==> n in {0, 3})
    ensures ClosedActs(a, outcome, NextClosing(n, outcome)) == ClosedActs(a, outcome, n) + [ChosenHeld(a, Closing(n, outcome, false))]
    ensures ClosedRows(a, request, outcome, NextClosing(n, outcome)) ==
              ClosedRows(a, request, outcome, n) + Appends(Worker(request, Held(0, Closing(n, outcome, false))), ChosenHeld(a, Closing(n, outcome, false)))
    ensures Missed(a, outcome, NextClosing(n, outcome)) == (Missed(a, outcome, n) || ChosenHeld(a, Closing(n, outcome, false)) == Close(false))
  {
  }

  lemma ClosingGoesOn(acts: seq<Act>, bodies: seq<Body>, a: Answers, n: nat, outcome: Outcome, failed: bool, done: seq<Act>, rows: seq<Body>,
                      log: Log, leases: map<LeaseId, Lease>, next: LeaseId, wk: Worker)
    requires wk.pc.Held? && wk.pc.stage == Closing(n, outcome, failed) && n < 4 && ClosingAfter(acts, bodies, a, wk.request, n, outcome, failed, done, rows)
    ensures var act := ChosenHeld(a, wk.pc.stage);
            && Ready(log, leases, wk, act)
            && NextPc(log, leases, next, wk, act) == Held(wk.pc.lease, Closing(NextClosing(n, outcome), outcome, failed || act == Close(false)))
            && ClosingAfter(acts, bodies, a, wk.request, NextClosing(n, outcome), outcome, failed || act == Close(false), done + [act], rows + Appends(wk, act))
  {
    ClosedOn(a, wk.request, outcome, n);
    Join(acts, ClosedActs(a, outcome, n), [ChosenHeld(a, wk.pc.stage)]);
    Join(bodies, ClosedRows(a, wk.request, outcome, n), Appends(wk, ChosenHeld(a, wk.pc.stage)));
  }

  lemma Join<T>(head: seq<T>, some: seq<T>, more: seq<T>)
    ensures head + (some + more) == head + some + more
  {
  }

  lemma CourseClosing(a: Answers, f: Findings, l: LeaseId, log: Log, leases: map<LeaseId, Lease>, next: LeaseId, wk: Worker, done: seq<Act>, rows: seq<Body>)
    requires OnCourse(a, f, l, wk, done, rows) && wk.pc.Held? && wk.pc.stage.Closing? && wk.pc.stage.step < 4
    ensures var act := Chosen(a, log, leases, wk);
            && Ready(log, leases, wk, act)
            && OnCourse(a, f, l, wk.(pc := NextPc(log, leases, next, wk, act)), done + [act], rows + Appends(wk, act))
  {
    var stage := wk.pc.stage;
    ClosingGoesOn(Entering + InnerActs(a, f), EnteringRows(l) + InnerRows(a, f, wk.request), a, stage.step, stage.outcome, stage.failed, done, rows, log, leases, next, wk);
  }

  lemma CourseReleasing(a: Answers, f: Findings, l: LeaseId, log: Log, leases: map<LeaseId, Lease>, next: LeaseId, wk: Worker, done: seq<Act>, rows: seq<Body>)
    requires OnCourse(a, f, l, wk, done, rows) && wk.pc.Held? && wk.pc.stage.Closing? && wk.pc.stage.step == 4
    ensures var act := Chosen(a, log, leases, wk);
            && Ready(log, leases, wk, act)
            && OnCourse(a, f, l, wk.(pc := NextPc(log, leases, next, wk, act)), done + [act], rows + Appends(wk, act))
  {
  }

  lemma EnteredScript(a: Answers, f: Findings, inner: seq<Act>, closing: seq<Act>)
    requires Entered(a, f) && inner == InnerActs(a, f) && closing == ClosingActs(a, Inner(a, f))
    ensures Script(a, f) == Entering + inner + closing
  {
    Nest(Admit, JournalDecision(true), Grant, JournalGrant(true), Authorize(true), inner, closing);
  }

  lemma Nest<T>(p: T, q: T, r: T, s: T, t: T, some: seq<T>, more: seq<T>)
    ensures [p] + ([q] + ([r] + ([s] + ([t] + (some + more))))) == [p, q, r, s, t] + some + more
  {
  }

  lemma EnteredRows(a: Answers, f: Findings, request: Request, l: LeaseId, inner: seq<Body>, closing: seq<Body>)
    requires Entered(a, f) && inner == InnerRows(a, f, request) && closing == ClosingRows(a, request, l, Inner(a, f))
    ensures Rows(a, f, request, l) == EnteringRows(l) + inner + closing
  {
    NestTwo(SchedulerDecision, LeaseActive(l), inner, closing);
  }

  lemma NestTwo<T>(p: T, q: T, some: seq<T>, more: seq<T>)
    ensures [p] + ([q] + (some + more)) == [p, q] + some + more
  {
  }

  lemma ClosedAll(a: Answers, request: Request, l: LeaseId, outcome: Outcome)
    ensures ClosingActs(a, outcome) == ClosedActs(a, outcome, 4) + [Release] + [JournalRelease(a.release)]
    ensures ClosingRows(a, request, l, outcome) == ClosedRows(a, request, outcome, 4) + Stored(a.release, LeaseReleased(l))
    ensures Closed(a, outcome) == if Missed(a, outcome, 4) || !a.release then Err(JournalError) else outcome
  {
    ClosedAllActs(a, outcome);
    ClosedAllRows(a, request, outcome, Stored(a.release, LeaseReleased(l)));
  }

  lemma ClosedAllActs(a: Answers, outcome: Outcome)
    ensures ClosingActs(a, outcome) == ClosedActs(a, outcome, 4) + [Release] + [JournalRelease(a.release)]
  {
  }

  lemma ClosedAllRows(a: Answers, request: Request, outcome: Outcome, release: seq<Body>)
    ensures FirstClosingRows(a, request, outcome) + (Stored(a.phase, Workload(EndPhase(outcome))) + release) == ClosedRows(a, request, outcome, 4) + release
  {
    var profile, phase := Stored(a.profile, Profile(request.revision, outcome.Err?)), Stored(a.phase, Workload(EndPhase(outcome)));
    if outcome.Err? {
      JoinFive(profile, Stored(a.abort, OperationAbort(request.revision)), Stored(a.failure, OperationFailure), phase, release);
    } else {
      JoinFive(profile, [], [], phase, release);
      assert profile + [] == profile;
    }
  }

  lemma JoinFive<T>(p: seq<T>, q: seq<T>, r: seq<T>, s: seq<T>, t: seq<T>)
    ensures p + (q + r) + (s + t) == p + q + r + s + t
  {
  }

  lemma Regroup<T>(head: seq<T>, some: seq<T>, more: seq<T>, last: seq<T>)
    ensures head + (some + more + last) == head + some + more + last
  {
  }

  lemma WholeScript(a: Answers, f: Findings, request: Request, l: LeaseId)
    requires Entered(a, f)
    ensures Script(a, f) == Entering + InnerActs(a, f) + ClosedActs(a, Inner(a, f), 4) + [Release] + [JournalRelease(a.release)]
    ensures Rows(a, f, request, l) == EnteringRows(l) + InnerRows(a, f, request) + ClosedRows(a, request, Inner(a, f), 4) + Stored(a.release, LeaseReleased(l))
    ensures Verdict(a, f) == if Missed(a, Inner(a, f), 4) || !a.release then Err(JournalError) else Inner(a, f)
  {
    var outcome := Inner(a, f);
    ClosedAll(a, request, l, outcome);
    EnteredScript(a, f, InnerActs(a, f), ClosingActs(a, outcome));
    EnteredRows(a, f, request, l, InnerRows(a, f, request), ClosingRows(a, request, l, outcome));
    Regroup(Entering + InnerActs(a, f), ClosedActs(a, outcome, 4), [Release], [JournalRelease(a.release)]);
    Regroup(EnteringRows(l) + InnerRows(a, f, request), ClosedRows(a, request, outcome, 4), [], Stored(a.release, LeaseReleased(l)));
    assert ClosedRows(a, request, outcome, 4) + [] == ClosedRows(a, request, outcome, 4);
  }

  lemma CourseReleased(a: Answers, f: Findings, l: LeaseId, log: Log, leases: map<LeaseId, Lease>, next: LeaseId, wk: Worker, done: seq<Act>, rows: seq<Body>)
    requires OnCourse(a, f, l, wk, done, rows) && wk.pc.Released?
    ensures var act := Chosen(a, log, leases, wk);
            && Ready(log, leases, wk, act)
            && OnCourse(a, f, l, wk.(pc := NextPc(log, leases, next, wk, act)), done + [act], rows + Appends(wk, act))
  {
    WholeScript(a, f, wk.request, l);
  }

  lemma HeldCourseOn(a: Answers, f: Findings, l: LeaseId, log: Log, leases: map<LeaseId, Lease>, next: LeaseId, wk: Worker, done: seq<Act>, rows: seq<Body>)
    requires OnCourse(a, f, l, wk, done, rows) && wk.pc.Held?
    ensures var act, f' := Chosen(a, log, leases, wk), Finds(f, log, leases, wk);
            && Ready(log, leases, wk, act)
            && OnCourse(a, f', l, wk.(pc := NextPc(log, leases, next, wk, act)), done + [act], rows + Appends(wk, act))
  {
    match wk.pc.stage
    case Granted => CourseEntering(a, f, l, log, leases, next, wk, done, rows);
    case Active => CourseEntering(a, f, l, log, leases, next, wk, done, rows);
    case Unreceived => CourseCalling(a, f, l, log, leases, next, wk, done, rows);
    case Calling => CourseReturning(a, f, l, log, leases, next, wk, done, rows);
    case Answered(_) => CourseAnswered(a, f, l, log, leases, next, wk, done, rows);
    case Durable(_) => CourseDurable(a, f, l, log, leases, next, wk, done, rows);
    case Closing(n, _, _) =>
      if n < 4 {
        CourseClosing(a, f, l, log, leases, next, wk, done, rows);
      } else {
        CourseReleasing(a, f, l, log, leases, next, wk, done, rows);
      }
    case _ => CourseLooking(a, f, l, log, leases, next, wk, done, rows);
  }

  /** Every step keeps an execution on its course; its findings are what it looked up on the way. */
  lemma CourseOn(a: Answers, f: Findings, l: LeaseId, log: Log, leases: map<LeaseId, Lease>, next: LeaseId, wk: Worker, done: seq<Act>, rows: seq<Body>)
    requires OnCourse(a, f, l, wk, done, rows) && !wk.pc.Done?
    ensures var act, f' := Chosen(a, log, leases, wk), Finds(f, log, leases, wk);
            && Ready(log, leases, wk, act)
            && OnCourse(a, f', if act.Grant? then next else l, wk.(pc := NextPc(log, leases, next, wk, act)), done + [act], rows + Appends(wk, act))
  {
    match wk.pc
    case Released(_, _, _) => CourseReleased(a, f, l, log, leases, next, wk, done, rows);
    case Held(_, stage) => HeldCourseOn(a, f, l, log, leases, next, wk, done, rows);
    case _ => CourseBeforeLease(a, f, l, log, leases, next, wk, done, rows);
  }

  /** The journal after the rows have been offered to it in turn. */
  function Offer(log: Log, request: Request, bodies: seq<Body>): Log {
    if bodies == [] then log
    else Journal.Appended(Offer(log, request, bodies[..|bodies| - 1]), RowFor(request, bodies[|bodies| - 1]))
  }

  lemma {:induction false} OfferMore(log: Log, request: Request, some: seq<Body>, more: seq<Body>)
    ensures Offer(Offer(log, request, some), request, more) == Offer(log, request, some + more)
    decreases |more|
  {
    if more == [] {
      assert some + more == some;
    } else {
      var n := |more| - 1;
      OfferMore(log, request, some, more[..n]);
      var all := some + more;
      assert all != [] && all[..|all| - 1] == some + more[..n] && all[|all| - 1] == more[n];
    }
  }

  /** The keys of all these rows are stored. */
  ghost predicate AllStored(log: Log, op: OperationId, bodies: seq<Body>) {
    forall i :: 0 <= i < |bodies| ==> Journal.HasKey(log, KeyOf(op, bodies[i]))
  }

  // ---------------------------------------------------------------------------
  // What a worker has done
  // ---------------------------------------------------------------------------

  /** The steps worker `id` took in the first n actions, since it was last spawned. */
  function History(acts: seq<Action>, n: nat, id: WorkerId): seq<Act>
    requires n <= |acts|
    decreases n
  {
    if n == 0 then []
    else match acts[n - 1]
         case Spawn(j, _) => if j == id then [] else History(acts, n - 1, id)
         case By(j, act) => History(acts, n - 1, id) + if j == id then [act] else []
         case _ => History(acts, n - 1, id)
  }

  lemma {:induction false} HistoryOfPrefix(acts: seq<Action>, acts': seq<Action>, n: nat, id: WorkerId)
    requires acts <= acts' && n <= |acts|
    ensures History(acts', n, id) == History(acts, n, id)
    decreases n
  {
    if n > 0 {
      HistoryOfPrefix(acts, acts', n - 1, id);
    }
  }

  // ---------------------------------------------------------------------------
  // A cancelled execution
  // ---------------------------------------------------------------------------

  /** A call names a lease whose holder, if any, has asked the provider. */
  ghost predicate CallsAreHeld(s: State) {
    forall c, id :: 0 <= c < |s.calls| && id in s.workers && Holds(s.workers[id], s.calls[c].lease) ==> HasAsked(s.workers[id].pc.stage)
  }

  predicate HasAsked(stage: Stage) {
    stage.Calling? || stage.Answered? || stage.Durable? || stage.Closing?
  }

  ghost predicate CallsAreIssued(s: State) {
    forall c :: 0 <= c < |s.calls| ==> s.calls[c].lease < s.nextLease
  }

  /** What a step does to its worker's lease: granted anew, kept or given up. */
  lemma LeaseAfter(log: Log, leases: map<LeaseId, Lease>, next: LeaseId, wk: Worker, act: Act)
    requires Ready(log, leases, wk, act)
    ensures var pc := NextPc(log, leases, next, wk, act);
            && (pc.Held? ==> pc.lease == if wk.pc.Held? then wk.pc.lease else next)
            && (pc.Held? && wk.pc.Held? && HasAsked(wk.pc.stage) ==> HasAsked(pc.stage))
            && (pc.Held? && wk.pc.Held? && wk.pc.stage.Closing? ==> pc.stage.Closing?)
            && (act.CallProvider? ==> wk.pc.Held? && wk.pc.stage.Unreceived? && pc == Held(wk.pc.lease, Calling))
  {
  }

  lemma ByKeepsCalls(s: State, a: Action, c: nat, id: WorkerId)
    requires Base(s) && a.By? && Enabled(s, a) && CallsAreHeld(s) && CallsAreIssued(s)
    requires c < |Do(s, a).calls| && id in Do(s, a).workers && Holds(Do(s, a).workers[id], Do(s, a).calls[c].lease)
    ensures HasAsked(Do(s, a).workers[id].pc.stage)
  {
    var wk, t := s.workers[a.id], Do(s, a);
    LeaseAfter(s.log, s.leases, s.nextLease, wk, a.act);
    if a.act.CallProvider? {
      OnlyHolder(s, a.id);
    }
    if id != a.id {
      assert t.workers[id] == s.workers[id];
      assert c < |s.calls|;
    }
  }

  lemma StepKeepsCalls(s: State, a: Action)
    requires Base(s) && Enabled(s, a) && CallsAreHeld(s) && CallsAreIssued(s)
    ensures CallsAreHeld(Do(s, a)) && CallsAreIssued(Do(s, a))
  {
    var t := Do(s, a);
    if a.By? {
      assert WorkerBase(s.log, s.nextLease, s.workers[a.id]);
      forall c, id | 0 <= c < |t.calls| && id in t.workers && Holds(t.workers[id], t.calls[c].lease) ensures HasAsked(t.workers[id].pc.stage) {
        ByKeepsCalls(s, a, c, id);
      }
    }
  }

  lemma {:induction false} EveryRunKeepsCalls(run: seq<State>, acts: seq<Action>, i: nat)
    requires IsRun(run, acts) && i < |run|
    ensures CallsAreHeld(run[i]) && CallsAreIssued(run[i])
  {
    if i > 0 {
      EveryRunKeepsCalls(run, acts, i - 1);
      EveryRunKeepsBase(run, acts, i - 1);
      assert StepAt(run, acts, i - 1);
      StepKeepsCalls(run[i - 1], acts[i - 1]);
    }
  }

  /** Nobody has called, or will call, the provider under the lease. */
  ghost predicate Barred(s: State, l: LeaseId) {
    && l < s.nextLease && (forall c :: 0 <= c < |s.calls| ==> s.calls[c].lease != l)
    && forall id :: id in s.workers && Holds(s.workers[id], l) ==> s.workers[id].pc.stage.Closing?
  }

  lemma StepKeepsBarred(s: State, a: Action, l: LeaseId)
    requires Enabled(s, a) && Barred(s, l)
    ensures Barred(Do(s, a), l)
  {
    if a.By? {
      LeaseAfter(s.log, s.leases, s.nextLease, s.workers[a.id], a.act);
    }
  }

  /** The worker was cancelled under lease l; `failed` once one of its appends failed since. */
  predicate Stopped(pc: Pc, l: LeaseId, failed: bool) {
    match pc
    case Held(m, Closing(_, outcome, f)) => m == l && outcome == Err(Cancelled) && f == failed
    case Released(m, outcome, f) => m == l && outcome == Err(Cancelled) && f == failed
    case Done(result) => result == Err(if failed then JournalError else Cancelled)
    case _ => false
  }

  /** A bookkeeping append of worker `id` that was not stored. */
  predicate Loses(a: Action, id: WorkerId) {
    a == By(id, Close(false)) || a == By(id, JournalRelease(false))
  }

  lemma StepKeepsStopped(s: State, a: Action, id: WorkerId, l: LeaseId, failed: bool)
    requires Enabled(s, a) && !a.Crash? && id in s.workers && Stopped(s.workers[id].pc, l, failed)
    ensures id in Do(s, a).workers && Do(s, a).workers[id].request == s.workers[id].request
    ensures Stopped(Do(s, a).workers[id].pc, l, failed || Loses(a, id))
  {
  }

  ghost predicate LostSince(acts: seq<Action>, k: nat, i: nat, id: WorkerId)
    requires i <= |acts|
  {
    exists j :: k < j < i && Loses(acts[j], id)
  }

  lemma CancellationStops(s: State, id: WorkerId, readable: bool)
    requires Base(s) && CallsAreHeld(s) && Enabled(s, By(id, CheckReceived(true, readable)))
    ensures var t, l := Do(s, By(id, CheckReceived(true, readable))), s.workers[id].pc.lease;
            Barred(t, l) && Stopped(t.workers[id].pc, l, false) && t.workers[id].request == s.workers[id].request
  {
    var l := s.workers[id].pc.lease;
    assert WorkerBase(s.log, s.nextLease, s.workers[id]);
    NotYetAsked(s, id);
    OnlyHolder(s, id);
  }

  lemma NotYetAsked(s: State, id: WorkerId)
    requires CallsAreHeld(s) && id in s.workers && s.workers[id].pc.Held? && !HasAsked(s.workers[id].pc.stage)
    ensures forall c :: 0 <= c < |s.calls| ==> s.calls[c].lease != s.workers[id].pc.lease
  {
    forall c | 0 <= c < |s.calls| ensures s.calls[c].lease != s.workers[id].pc.lease {
      assert Holds(s.workers[id], s.calls[c].lease) <==> s.calls[c].lease == s.workers[id].pc.lease;
    }
  }

  lemma OnlyHolder(s: State, id: WorkerId)
    requires DistinctLeases(s.workers) && id in s.workers && s.workers[id].pc.Held?
    ensures forall j :: j in s.workers && Holds(s.workers[j], s.workers[id].pc.lease) ==> j == id
  {
    forall j | j in s.workers && Holds(s.workers[j], s.workers[id].pc.lease) ensures j == id {
      assert HasLease(s.workers[j].pc, s.workers[id].pc.lease) && HasLease(s.workers[id].pc, s.workers[id].pc.lease);
    }
  }

  /**
   An execution that was cancelled after its intent, in any run: the provider is
   never asked under its lease, before or after; and until the process crashes it
   is on its way to the result Cancelled, or to a journal error exactly if one of
   its bookkeeping appends fails. It never succeeds.
   */
  lemma {:induction false} CancelledNeverRuns(run: seq<State>, acts: seq<Action>, k: nat, i: nat, id: WorkerId, readable: bool)
    requires IsRun(run, acts) && k < i < |run| && acts[k] == By(id, CheckReceived(true, readable))
    ensures id in run[k].workers && run[k].workers[id].pc.Held?
    ensures Barred(run[i], run[k].workers[id].pc.lease)
    ensures (forall j :: k < j < i ==> !acts[j].Crash?) ==>
              && id in run[i].workers && run[i].workers[id].request == run[k].workers[id].request
              && Stopped(run[i].workers[id].pc, run[k].workers[id].pc.lease, LostSince(acts, k, i, id))
    decreases i
  {
    assert StepAt(run, acts, k) && StepAt(run, acts, i - 1);
    var l := run[k].workers[id].pc.lease;
    if i == k + 1 {
      EveryRunKeepsBase(run, acts, k);
      EveryRunKeepsCalls(run, acts, k);
      CancellationStops(run[k], id, readable);
    } else {
      CancelledNeverRuns(run, acts, k, i - 1, id, readable);
      StepKeepsBarred(run[i - 1], acts[i - 1], l);
      if forall j :: k < j < i ==> !acts[j].Crash? {
        var lost := LostSince(acts, k, i - 1, id);
        StepKeepsStopped(run[i - 1], acts[i - 1], id, l, lost);
        assert LostSince(acts, k, i, id) <==> lost || Loses(acts[i - 1], id);
      }
    }
  }
}
