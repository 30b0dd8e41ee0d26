/**
 The idempotency keys as the texts they are: `operation:`, an operation id, a
 colon and a tail. `KernelSystem.Key` keeps them apart by construction; here is
 exactly when the texts do.
 */
module KeyTexts {
  import opened Prelude
  import opened ColonTexts
  import Fencing
  import KernelSystem

  datatype FixedWord = Schedule | Intent | Receipt | Commit | Failure | CancellationRequested

  datatype PhaseWord = Completed | Cancelled | Failed

  datatype OpenWord = Rebind | Abort | ProviderRebind

  datatype Ending =
    | Grant | Release | RecoveryRevoke
    | ProfileFailed | ProfileCompleted
    | Evaluating | Unavailable | Incompatible | ExecutionFailed

  /** What follows the operation id. Arguments are arbitrary texts, except that leases are named by UUIDs. */
  datatype Tail =
    | Fixed(word: FixedWord)
    | Phase(phase: PhaseWord)
    | Open(open: OpenWord, argument: string)
    | Ended(argument: string, ending: Ending)

  function FixedText(w: FixedWord): string {
    match w
    case Schedule => "schedule"
    case Intent => "intent"
    case Receipt => "receipt"
    case Commit => "commit"
    case Failure => "failure"
    case CancellationRequested => "cancellation-requested"
  }

  function PhaseText(p: PhaseWord): string {
    match p
    case Completed => "COMPLETED"
    case Cancelled => "CANCELLED"
    case Failed => "FAILED"
  }

  function OpenText(w: OpenWord): string {
    match w
    case Rebind => "rebind"
    case Abort => "abort"
    case ProviderRebind => "provider-rebind"
  }

  function EndingText(e: Ending): string {
    match e
    case Grant => "grant"
    case Release => "release"
    case RecoveryRevoke => "recovery-revoke"
    case ProfileFailed => "FAILED"
    case ProfileCompleted => "COMPLETED"
    case Evaluating => "EVALUATING"
    case Unavailable => "UNAVAILABLE"
    case Incompatible => "INCOMPATIBLE"
    case ExecutionFailed => "EXECUTION_FAILED"
  }

  function EndedWord(e: Ending): string {
    if OfLease(e) then "lease"
    else if e.ProfileFailed? || e.ProfileCompleted? then "profile"
    else "candidate"
  }

  /** The first word of a tail. */
  function Word(t: Tail): string {
    match t
    case Fixed(w) => FixedText(w)
    case Phase(_) => "workload"
    case Open(w, _) => OpenText(w)
    case Ended(_, e) => EndedWord(e)
  }

  /** What follows the first word and its colon. */
  function Rest(t: Tail): string
    requires !t.Fixed?
  {
    match t
    case Phase(p) => PhaseText(p)
    case Open(_, argument) => argument
    case Ended(argument, e) => argument + ":" + EndingText(e)
  }

  function TailText(t: Tail): string {
    if t.Fixed? then Word(t) else Word(t) + ":" + Rest(t)
  }

  /** Lower-case hexadecimal digits in groups of 8, 4, 4, 4 and 12. */
  predicate IsUuid(s: string) {
    |s| == 36 && forall i :: 0 <= i < |s| ==> if i in {8, 13, 18, 23} then s[i] == '-' else IsHex(s[i])
  }

  predicate OfLease(e: Ending) {
    e.Grant? || e.Release? || e.RecoveryRevoke?
  }

  predicate Writable(t: Tail) {
    t.Ended? && OfLease(t.ending) ==> IsUuid(t.argument)
  }

  function Text(op: string, t: Tail): string {
    "operation:" + (op + ":" + TailText(t))
  }

  // ---------------------------------------------------------------------------
  // Tails are unambiguous
  // ---------------------------------------------------------------------------

  lemma WordsHaveNoColon(t: Tail)
    ensures ':' !in Word(t)
  {
  }

  lemma EndingsHaveNoColon(e: Ending, p: PhaseWord)
    ensures ':' !in EndingText(e) && ':' !in PhaseText(p)
  {
  }

  /** First letter and length tell the words apart. */
  lemma WordsDiffer(t: Tail, u: Tail)
    requires Word(t) == Word(u)
    ensures t.Fixed? ==> u == t
    ensures t.Phase? ==> u.Phase?
    ensures t.Open? ==> u.Open? && u.open == t.open
    ensures t.Ended? ==> u.Ended? && EndedWord(u.ending) == EndedWord(t.ending)
  {
    assert Word(t)[0] == Word(u)[0] && |Word(t)| == |Word(u)|;
  }

  lemma PhasesDiffer(p: PhaseWord, q: PhaseWord)
    requires PhaseText(p) == PhaseText(q)
    ensures p == q
  {
    assert PhaseText(p)[1] == PhaseText(q)[1] && |PhaseText(p)| == |PhaseText(q)|;
    assert PhaseText(p)[2] == PhaseText(q)[2];
  }

  lemma EndingsDiffer(e: Ending, f: Ending)
    requires EndingText(e) == EndingText(f) && EndedWord(e) == EndedWord(f)
    ensures e == f
  {
    assert EndedWord(e)[0] == EndedWord(f)[0];
    assert EndingText(e)[0] == EndingText(f)[0] && |EndingText(e)| == |EndingText(f)|;
  }

  lemma SameFirstWord(t: Tail, u: Tail)
    requires TailText(t) == TailText(u)
    ensures Word(t) == Word(u) && (t.Fixed? <==> u.Fixed?) && (!t.Fixed? ==> Rest(t) == Rest(u))
  {
    WordsHaveNoColon(t);
    WordsHaveNoColon(u);
    if !t.Fixed? {
      Fencing.SplitAtFirst(Word(t), Rest(t));
    }
    if !u.Fixed? {
      Fencing.SplitAtFirst(Word(u), Rest(u));
    }
  }

  /** Equal tail texts are the same tail. */
  lemma TailsAreUnambiguous(t: Tail, u: Tail)
    requires TailText(t) == TailText(u)
    ensures t == u
  {
    SameFirstWord(t, u);
    WordsDiffer(t, u);
    match t
    case Fixed(_) =>
    case Phase(p) => PhasesDiffer(p, u.phase);
    case Open(_, _) =>
    case Ended(a, e) =>
      EndingsHaveNoColon(e, Completed);
      EndingsHaveNoColon(u.ending, Completed);
      SplitAtLast(a, EndingText(e), u.argument, EndingText(u.ending));
      EndingsDiffer(e, u.ending);
  }

  // ---------------------------------------------------------------------------
  // When two operations can share a key
  // ---------------------------------------------------------------------------

  /** z begins with a word that takes an arbitrary argument. */
  predicate Branches(z: string) {
    || Starts(z, "rebind") || Starts(z, "abort") || Starts(z, "provider-rebind")
    || Starts(z, "profile") || Starts(z, "candidate")
  }

  /** The longer id is the shorter one followed by a colon and such a word. */
  predicate Extends(short: string, long: string) {
    Prolongs(short, long) && Branches(long[|short| + 1..])
  }

  ghost predicate Collide(op: string, op': string) {
    exists t, u :: Writable(t) && Writable(u) && (op != op' || t != u) && Text(op, t) == Text(op', u)
  }

  /** The tail of the shorter id begins with the surplus of the longer one. */
  lemma SurplusStartsWithWord(z: string, t: Tail, u: Tail)
    requires TailText(t) == z + ":" + TailText(u) && Writable(t)
    ensures !t.Fixed? && !t.Phase? && !(t.Ended? && OfLease(t.ending)) && Starts(z, Word(t))
  {
    WordsHaveNoColon(t);
    ColonWithin(z, TailText(u));
    SurplusStarts(Word(t), Rest(t), z, TailText(u));
    if t.Phase? {
      EndingsHaveNoColon(Grant, t.phase);
      AfterWord(z, t, u);
      PhasesAreNoTails(t.phase, u);
    } else if t.Ended? && OfLease(t.ending) {
      AfterWord(z, t, u);
      LeasesHoldNoTail(t.argument, t.ending, u, if z == Word(t) then None else Some(z[|Word(t)| + 1..]));
    }
  }

  /** What follows the first word is the tail of the longer id, or ends with it after a colon. */
  lemma AfterWord(z: string, t: Tail, u: Tail)
    requires !t.Fixed? && TailText(t) == z + ":" + TailText(u) && Starts(z, Word(t))
    ensures Rest(t) == if z == Word(t) then TailText(u) else z[|Word(t)| + 1..] + ":" + TailText(u)
    ensures z != Word(t) ==> ':' in Rest(t)
  {
    if z == Word(t) {
      SameHead(Word(t), Rest(t), z, TailText(u));
    } else {
      Surplus(Word(t), Rest(t), z, TailText(u));
      ColonWithin(z[|Word(t)| + 1..], TailText(u));
    }
  }

  lemma PhasesAreNoTails(p: PhaseWord, u: Tail)
    ensures PhaseText(p) != TailText(u)
  {
    assert TailText(u)[0] == Word(u)[0];
  }

  lemma UuidsHaveNoColon(s: string)
    requires IsUuid(s)
    ensures ':' !in s
  {
  }

  /** No word is as long as a UUID. */
  lemma WordsAreShort(u: Tail)
    ensures |Word(u)| < 36
  {
  }

  lemma LeaseEndingsAreNoTails(e: Ending, u: Tail)
    requires OfLease(e)
    ensures EndingText(e) != TailText(u)
  {
    if u.Fixed? {
      assert EndingText(e)[2] != FixedText(u.word)[2] || |EndingText(e)| != |FixedText(u.word)| || EndingText(e)[0] != FixedText(u.word)[0];
    } else {
      EndingsHaveNoColon(e, Completed);
      ColonWithin(Word(u), Rest(u));
    }
  }

  /** A UUID and a lease ending are neither a tail nor something and a tail. */
  lemma LeasesHoldNoTail(argument: string, e: Ending, u: Tail, head: Option<string>)
    requires IsUuid(argument) && OfLease(e)
    ensures head.None? ==> argument + ":" + EndingText(e) != TailText(u)
    ensures head.Some? ==> argument + ":" + EndingText(e) != head.value + ":" + TailText(u)
  {
    UuidsHaveNoColon(argument);
    EndingsHaveNoColon(e, Completed);
    WordsHaveNoColon(u);
    WordsAreShort(u);
    match head
    case None =>
      ColonWithin(argument, EndingText(e));
      if !u.Fixed? && argument + ":" + EndingText(e) == TailText(u) {
        SplitAtFirst(argument, EndingText(e), Word(u), Rest(u));
      }
    case Some(r) =>
      if argument + ":" + EndingText(e) == r + ":" + TailText(u) {
        if |r| == |argument| {
          SameHead(argument, EndingText(e), r, TailText(u));
          LeaseEndingsAreNoTails(e, u);
        } else if |r| < |argument| {
          Surplus(r, TailText(u), argument, EndingText(e));
        } else {
          Surplus(argument, EndingText(e), r, TailText(u));
          ColonWithin(r[|argument| + 1..], TailText(u));
        }
      }
  }

  lemma SharedTextExtends(op: string, t: Tail, op': string, u: Tail)
    requires Text(op, t) == Text(op', u) && |op| < |op'| && Writable(t)
    ensures Extends(op, op')
  {
    CancelLeft("operation:", op + ":" + TailText(t), op' + ":" + TailText(u));
    Surplus(op, TailText(t), op', TailText(u));
    SurplusStartsWithWord(op'[|op| + 1..], t, u);
    TakesArgument(t);
  }

  lemma TakesArgument(t: Tail)
    requires !t.Fixed? && !t.Phase? && !(t.Ended? && OfLease(t.ending))
    ensures Word(t) in {"rebind", "abort", "provider-rebind", "profile", "candidate"}
  {
  }

  /** A tail for the shorter id that swallows the surplus and an intent of the longer. */
  lemma SwallowOpen(z: string, w: OpenWord) returns (t: Tail)
    requires Starts(z, OpenText(w))
    ensures TailText(t) == z + ":" + TailText(Fixed(Intent)) && t.Open?
  {
    t := Open(w, Filled(z, OpenText(w), "intent"));
    FilledReads(z, OpenText(w), "intent");
  }

  /** The same with a like-ended key of the longer. */
  lemma SwallowEnded(z: string, e: Ending) returns (t: Tail, u: Tail)
    requires Starts(z, EndedWord(e)) && !OfLease(e)
    ensures TailText(t) == z + ":" + TailText(u) && Writable(t) && Writable(u)
  {
    var w := EndedWord(e);
    t, u := Ended(Filled(z, w, w + ":" + "p"), e), Ended("p", e);
    EndedReads(z, w, "p", EndingText(e));
  }

  lemma EndedReads(z: string, w: string, p: string, e: string)
    requires Starts(z, w)
    ensures w + ":" + (Filled(z, w, w + ":" + p) + ":" + e) == z + ":" + (w + ":" + (p + ":" + e))
  {
    FilledEnds(z, w, w + ":" + p, e);
    FilledReads(z, w, w + ":" + p + ":" + e);
    JoinSurplus(w, p, e);
  }

  lemma FilledEnds(z: string, w: string, y: string, e: string)
    requires Starts(z, w)
    ensures Filled(z, w, y) + ":" + e == Filled(z, w, y + ":" + e)
  {
  }

  lemma Swallow(z: string) returns (t: Tail, u: Tail)
    requires Branches(z)
    ensures TailText(t) == z + ":" + TailText(u) && Writable(t) && Writable(u)
  {
    u := Fixed(Intent);
    if Starts(z, "rebind") {
      t := SwallowOpen(z, Rebind);
    } else if Starts(z, "abort") {
      t := SwallowOpen(z, Abort);
    } else if Starts(z, "provider-rebind") {
      t := SwallowOpen(z, ProviderRebind);
    } else if Starts(z, "profile") {
      t, u := SwallowEnded(z, ProfileFailed);
    } else {
      t, u := SwallowEnded(z, Evaluating);
    }
  }

  lemma ExtensionCollides(op: string, op': string)
    requires Extends(op, op')
    ensures Collide(op, op') && Collide(op', op)
  {
    var z := op'[|op| + 1..];
    var t, u := Swallow(z);
    assert op' == op + ":" + z;
    JoinSurplus(op, z, TailText(u));
    assert Writable(t) && Writable(u) && Text(op, t) == Text(op', u) && op != op';
  }

  /** Two operations can write the same key text for different keys exactly when one id extends the other. */
  lemma CollideIffExtends(op: string, op': string)
    ensures Collide(op, op') <==> Extends(op, op') || Extends(op', op)
  {
    if Extends(op, op') {
      ExtensionCollides(op, op');
    } else if Extends(op', op) {
      ExtensionCollides(op', op);
    }
    if Collide(op, op') {
      var t, u :| Writable(t) && Writable(u) && (op != op' || t != u) && Text(op, t) == Text(op', u);
      if |op| < |op'| {
        SharedTextExtends(op, t, op', u);
      } else if |op'| < |op| {
        SharedTextExtends(op', u, op, t);
      } else {
        SameLengthIsSameKey(op, t, op', u);
      }
    }
  }

  lemma SameLengthIsSameKey(op: string, t: Tail, op': string, u: Tail)
    requires Text(op, t) == Text(op', u) && |op| == |op'|
    ensures op == op' && t == u
  {
    CancelLeft("operation:", op + ":" + TailText(t), op' + ":" + TailText(u));
    SameHead(op, TailText(t), op', TailText(u));
    TailsAreUnambiguous(t, u);
  }

  lemma SharedTextIsOneKey(op: string, t: Tail, op': string, u: Tail)
    requires Writable(t) && Writable(u) && Text(op, t) == Text(op', u) && !Extends(op, op') && !Extends(op', op)
    ensures op == op' && t == u
  {
    CollideIffExtends(op, op');
  }

  /** Ids without a colon never collide. */
  lemma ColonFreeIdsAreSafe(op: string, op': string)
    requires ':' !in op && ':' !in op'
    ensures !Collide(op, op')
  {
    CollideIffExtends(op, op');
  }

  /** The rebinding key of one operation can be the intent key of another. */
  lemma CollisionExists()
    ensures Text("x", Open(Rebind, "y:intent")) == Text("x:rebind:y", Fixed(Intent)) && Collide("x", "x:rebind:y")
  {
    assert Text("x", Open(Rebind, "y:intent")) == "operation:x:rebind:y:intent";
    assert Text("x:rebind:y", Fixed(Intent)) == "operation:x:rebind:y:intent";
  }

  // ---------------------------------------------------------------------------
  // The keys of the kernel system
  // ---------------------------------------------------------------------------

  /** How ids are spelled. */
  datatype Names = Names(operation: nat -> string, lease: nat -> string, revision: nat -> string, provider: nat -> string)

  ghost predicate OneToOne(f: nat -> string) {
    forall i: nat, j: nat :: f(i) == f(j) ==> i == j
  }

  function LeasesOf(k: KernelSystem.Key): set<nat> {
    if k.GrantKey? || k.ReleaseKey? || k.RevokeKey? then {k.lease} else {}
  }

  /** The leases of a journal have UUIDs, each its own. */
  ghost predicate Uuids(n: Names, leases: set<nat>) {
    && (forall l :: l in leases ==> IsUuid(n.lease(l)))
    && forall l, m :: l in leases && m in leases && n.lease(l) == n.lease(m) ==> l == m
  }

  /** Candidate verdicts are the four phases a coordinator records. */
  predicate Recorded(k: KernelSystem.Key) {
    k.CandidateKey? ==> k.verdict < 4
  }

  function VerdictEnding(v: nat): Ending {
    if v == 0 then Evaluating else if v == 1 then Unavailable else if v == 2 then Incompatible else ExecutionFailed
  }

  function TailOf(n: Names, k: KernelSystem.Key): Tail {
    match k
    case ScheduleKey(_) => Fixed(Schedule)
    case GrantKey(_, l) => Ended(n.lease(l), Grant)
    case ReleaseKey(_, l) => Ended(n.lease(l), Release)
    case RevokeKey(_, l) => Ended(n.lease(l), RecoveryRevoke)
    case IntentKey(_) => Fixed(Intent)
    case RebindKey(_, v) => Open(Rebind, n.revision(v))
    case ReceiptKey(_) => Fixed(Receipt)
    case CommitKey(_) => Fixed(Commit)
    case AbortKey(_, v) => Open(Abort, n.revision(v))
    case FailureKey(_) => Fixed(Failure)
    case ProfileKey(_, v, failed) => Ended(n.revision(v), if failed then ProfileFailed else ProfileCompleted)
    case WorkloadKey(_, p) =>
      (match p
       case Completed => Phase(Completed)
       case WorkloadCancelled => Phase(Cancelled)
       case Failed => Phase(Failed)
       case CancellationRequested => Fixed(CancellationRequested))
    case ProviderRebindKey(_, v) => Open(ProviderRebind, n.revision(v))
    case CandidateKey(_, p, v) => Ended(n.provider(p), VerdictEnding(v))
  }

  function TextOf(n: Names, k: KernelSystem.Key): string {
    Text(n.operation(k.op), TailOf(n, k))
  }

  function Colon(a: string, b: string): string {
    a + ":" + b
  }

  /** The tail that the journal writes for a row of this content. */
  function Format(n: Names, body: KernelSystem.Body): string {
    match body
    case SchedulerDecision => "schedule"
    case LeaseActive(l) => Colon("lease", Colon(n.lease(l), "grant"))
    case LeaseReleased(l) => Colon("lease", Colon(n.lease(l), "release"))
    case LeaseRevoked(l) => Colon("lease", Colon(n.lease(l), "recovery-revoke"))
    case Intent(request, rebound) => if rebound then Colon("rebind", n.revision(request.revision)) else "intent"
    case Received(_) => "receipt"
    case StepCommit(_) => "commit"
    case OperationAbort(v) => Colon("abort", n.revision(v))
    case OperationFailure => "failure"
    case Profile(v, failed) => Colon("profile", Colon(n.revision(v), if failed then "FAILED" else "COMPLETED"))
    case Workload(p) =>
      (match p
       case Completed => Colon("workload", "COMPLETED")
       case WorkloadCancelled => Colon("workload", "CANCELLED")
       case Failed => Colon("workload", "FAILED")
       case CancellationRequested => "cancellation-requested")
    case ProviderRebind(v) => Colon("provider-rebind", n.revision(v))
    case Candidate(p, v) =>
      Colon("candidate", Colon(n.provider(p), if v == 0 then "EVALUATING" else if v == 1 then "UNAVAILABLE" else if v == 2 then "INCOMPATIBLE" else "EXECUTION_FAILED"))
  }

  /** Every row's key is the format string of its content, for its operation. */
  lemma RowsCarryTheirFormat(n: Names, request: KernelSystem.Request, body: KernelSystem.Body)
    ensures var row := KernelSystem.RowFor(request, body);
            row.key.Some? && TextOf(n, row.key.value) == "operation:" + Colon(n.operation(request.operation), Format(n, body))
  {
    if body.LeaseActive? || body.LeaseReleased? || body.LeaseRevoked? || body.Profile? || body.Candidate? {
      EndedFormat(n, request.operation, body);
    } else if body.Workload? {
      WorkloadFormat(n, request.operation, body);
    } else {
      PlainFormat(n, request.operation, body);
    }
  }

  lemma PlainFormat(n: Names, op: KernelSystem.OperationId, body: KernelSystem.Body)
    requires !(body.LeaseActive? || body.LeaseReleased? || body.LeaseRevoked? || body.Profile? || body.Candidate? || body.Workload?)
    ensures TailText(TailOf(n, KernelSystem.KeyOf(op, body))) == Format(n, body)
  {
  }

  lemma WorkloadFormat(n: Names, op: KernelSystem.OperationId, body: KernelSystem.Body)
    requires body.Workload?
    ensures TailText(TailOf(n, KernelSystem.KeyOf(op, body))) == Format(n, body)
  {
  }

  lemma EndedFormat(n: Names, op: KernelSystem.OperationId, body: KernelSystem.Body)
    requires body.LeaseActive? || body.LeaseReleased? || body.LeaseRevoked? || body.Profile? || body.Candidate?
    ensures TailText(TailOf(n, KernelSystem.KeyOf(op, body))) == Format(n, body)
  {
    if body.Candidate? {
      assert EndingText(VerdictEnding(body.verdict)) ==
             if body.verdict == 0 then "EVALUATING" else if body.verdict == 1 then "UNAVAILABLE" else if body.verdict == 2 then "INCOMPATIBLE" else "EXECUTION_FAILED";
    }
  }

  lemma TailsAreWritable(n: Names, leases: set<nat>, k: KernelSystem.Key)
    requires Uuids(n, leases) && LeasesOf(k) <= leases
    ensures Writable(TailOf(n, k))
  {
    match k
    case GrantKey(_, l) => assert l in LeasesOf(k);
    case ReleaseKey(_, l) => assert l in LeasesOf(k);
    case RevokeKey(_, l) => assert l in LeasesOf(k);
    case _ =>
  }

  /** With ids that never extend one another, distinct keys of the kernel system have distinct texts. */
  lemma KernelKeysAreDistinct(n: Names, leases: set<nat>, k: KernelSystem.Key, k': KernelSystem.Key)
    requires OneToOne(n.operation) && OneToOne(n.revision) && OneToOne(n.provider)
    requires Uuids(n, leases) && LeasesOf(k) + LeasesOf(k') <= leases
    requires Recorded(k) && Recorded(k')
    requires !Extends(n.operation(k.op), n.operation(k'.op)) && !Extends(n.operation(k'.op), n.operation(k.op))
    ensures TextOf(n, k) == TextOf(n, k') <==> k == k'
  {
    if TextOf(n, k) == TextOf(n, k') {
      TailsAreWritable(n, leases, k);
      TailsAreWritable(n, leases, k');
      SharedTextIsOneKey(n.operation(k.op), TailOf(n, k), n.operation(k'.op), TailOf(n, k'));
      SameTailSameKey(n, leases, k, k');
    }
  }

  lemma SameTailSameKey(n: Names, leases: set<nat>, k: KernelSystem.Key, k': KernelSystem.Key)
    requires OneToOne(n.revision) && OneToOne(n.provider) && Uuids(n, leases) && LeasesOf(k) + LeasesOf(k') <= leases
    requires Recorded(k) && Recorded(k') && k.op == k'.op && TailOf(n, k) == TailOf(n, k')
    ensures k == k'
  {
  }
}
