/** Crash recovery: workload states folded from the journal, and what to do with interrupted workloads. */
module Replay {
  import opened Prelude

  datatype Phase =
    | Rejected | Succeeded | Failed | Cancelled | Lost | Quarantined
    | Admitted | Placed | Preparing | Running | Quiescing | Checkpointing | Recovering
    | OtherPhase(text: nat)

  /** `isWorkload`: the row is about a workload; `isCommit`: its entry type is Commit. */
  datatype Entry = Entry(sequence: nat, isWorkload: bool, id: nat, phase: Phase, generation: nat, isCommit: bool)

  datatype RecoveryState = RecoveryState(
    phases: map<nat, Phase>,
    generations: map<nat, nat>,
    active: seq<nat>,
    interrupted: seq<nat>,
    leased: seq<nat>,
    entriesReplayed: nat,
    maxSequence: nat)

  datatype Action = Resume(id: nat, lastPhase: Option<Phase>) | MarkLost(id: nat)

  predicate IsTerminal(p: Phase) {
    p in {Rejected, Succeeded, Failed, Cancelled, Lost, Quarantined}
  }

  predicate IsActive(p: Phase) {
    p in {Admitted, Placed, Preparing, Running, Quiescing, Checkpointing, Recovering}
  }

  // ---------------------------------------------------------------------------
  // The journal, read declaratively
  // ---------------------------------------------------------------------------

  predicate About(e: Entry, id: nat) {
    e.isWorkload && e.id == id
  }

  /** Row i is the last about its workload. */
  ghost predicate LastAbout(log: seq<Entry>, id: nat, i: nat) {
    i < |log| && About(log[i], id) && forall j :: i < j < |log| ==> !About(log[j], id)
  }

  /** No terminal phase of the workload after row i. */
  ghost predicate NoEndAfter(log: seq<Entry>, id: nat, i: nat) {
    forall j :: i < j < |log| && About(log[j], id) ==> !IsTerminal(log[j].phase)
  }

  /** The last phase is not terminal. */
  ghost predicate ActiveIn(log: seq<Entry>, id: nat) {
    exists i: nat :: LastAbout(log, id, i) && !IsTerminal(log[i].phase)
  }

  ghost predicate InterruptedBy(log: seq<Entry>, id: nat, i: nat) {
    i < |log| && About(log[i], id) && IsActive(log[i].phase) && NoEndAfter(log, id, i)
  }

  /** An active phase after the last terminal one. */
  ghost predicate InterruptedIn(log: seq<Entry>, id: nat) {
    exists i: nat :: InterruptedBy(log, id, i)
  }

  ghost predicate LeasedBy(log: seq<Entry>, id: nat, i: nat) {
    i < |log| && About(log[i], id) && log[i].isCommit && NoEndAfter(log, id, i)
  }

  /** A commit at or after the last terminal phase. */
  ghost predicate LeasedIn(log: seq<Entry>, id: nat) {
    exists i: nat :: LeasedBy(log, id, i)
  }

  lemma LastAboutSnoc(log: seq<Entry>, e: Entry, id: nat, i: nat)
    ensures LastAbout(log + [e], id, i) <==> if About(e, id) then i == |log| else LastAbout(log, id, i)
  {
    var log' := log + [e];
    assert log'[|log|] == e;
    if i < |log| {
      assert log'[i] == log[i];
      if LastAbout(log, id, i) && !About(e, id) {
        forall j | i < j < |log'| ensures !About(log'[j], id) {}
      }
      if LastAbout(log', id, i) {
        forall j | i < j < |log| ensures !About(log[j], id) {
          assert log'[j] == log[j];
        }
      }
    }
  }

  lemma NoEndSnoc(log: seq<Entry>, e: Entry, id: nat, i: nat)
    requires i < |log|
    ensures NoEndAfter(log + [e], id, i) <==> NoEndAfter(log, id, i) && !(About(e, id) && IsTerminal(e.phase))
  {
    var log' := log + [e];
    assert log'[|log|] == e;
    if NoEndAfter(log', id, i) {
      forall j | i < j < |log| && About(log[j], id) ensures !IsTerminal(log[j].phase) {
        assert log'[j] == log[j];
      }
    }
  }

  lemma ActiveSnoc(log: seq<Entry>, e: Entry, id: nat)
    ensures ActiveIn(log + [e], id) <==> if About(e, id) then !IsTerminal(e.phase) else ActiveIn(log, id)
  {
    var log' := log + [e];
    assert log'[|log|] == e;
    if About(e, id) {
      LastAboutSnoc(log, e, id, |log|);
      if i: nat :| LastAbout(log', id, i) && !IsTerminal(log'[i].phase) {
        LastAboutSnoc(log, e, id, i);
      }
    } else {
      if i: nat :| LastAbout(log', id, i) && !IsTerminal(log'[i].phase) {
        LastAboutSnoc(log, e, id, i);
      }
      if i: nat :| LastAbout(log, id, i) && !IsTerminal(log[i].phase) {
        LastAboutSnoc(log, e, id, i);
        assert log'[i] == log[i];
      }
    }
  }

  lemma InterruptedSnoc(log: seq<Entry>, e: Entry, id: nat)
    ensures InterruptedIn(log + [e], id) <==> if About(e, id) then !IsTerminal(e.phase) && (IsActive(e.phase) || InterruptedIn(log, id)) else InterruptedIn(log, id)
  {
    var log' := log + [e];
    assert log'[|log|] == e;
    if i: nat :| InterruptedBy(log', id, i) {
      if i < |log| {
        NoEndSnoc(log, e, id, i);
        assert log'[i] == log[i] && InterruptedBy(log, id, i);
      }
    }
    if i: nat :| InterruptedBy(log, id, i) {
      NoEndSnoc(log, e, id, i);
      assert log'[i] == log[i];
      assert !(About(e, id) && IsTerminal(e.phase)) ==> InterruptedBy(log', id, i);
    }
    assert About(e, id) && IsActive(e.phase) ==> InterruptedBy(log', id, |log|);
  }

  lemma LeasedSnoc(log: seq<Entry>, e: Entry, id: nat)
    ensures LeasedIn(log + [e], id) <==> if About(e, id) then e.isCommit || (!IsTerminal(e.phase) && LeasedIn(log, id)) else LeasedIn(log, id)
  {
    var log' := log + [e];
    assert log'[|log|] == e;
    if i: nat :| LeasedBy(log', id, i) {
      if i < |log| {
        NoEndSnoc(log, e, id, i);
        assert log'[i] == log[i] && LeasedBy(log, id, i);
      }
    }
    if i: nat :| LeasedBy(log, id, i) {
      NoEndSnoc(log, e, id, i);
      assert log'[i] == log[i];
      assert !(About(e, id) && IsTerminal(e.phase)) ==> LeasedBy(log', id, i);
    }
    assert About(e, id) && e.isCommit ==> LeasedBy(log', id, |log|);
  }

  // ---------------------------------------------------------------------------
  // The fold
  // ---------------------------------------------------------------------------

  ghost predicate Distinct(s: seq<nat>) {
    forall i, j :: 0 <= i < j < |s| ==> s[i] != s[j]
  }

  method Retain(s: seq<nat>, id: nat) returns (t: seq<nat>)
    requires Distinct(s)
    ensures Distinct(t) && forall x :: x in t <==> x in s && x != id
  {
    t := [];
    for i := 0 to |s|
      invariant Distinct(t) && forall x :: x in t <==> x in s[..i] && x != id
    {
      assert s[..i + 1] == s[..i] + [s[i]];
      assert s[i] !in s[..i];
      if s[i] != id {
        t := t + [s[i]];
      }
    }
    assert s[..|s|] == s;
  }

  method Include(s: seq<nat>, id: nat) returns (t: seq<nat>)
    requires Distinct(s)
    ensures Distinct(t) && forall x :: x in t <==> x in s || x == id
  {
    t := if id in s then s else s + [id];
  }

  /** The lists hold exactly the workloads their declarative readings name, once each. */
  ghost predicate Lists(log: seq<Entry>, s: RecoveryState) {
    && Distinct(s.active) && Distinct(s.interrupted) && Distinct(s.leased)
    && (forall id :: id in s.active <==> ActiveIn(log, id))
    && (forall id :: id in s.interrupted <==> InterruptedIn(log, id))
    && (forall id :: id in s.leased <==> LeasedIn(log, id))
  }

  ghost predicate LatestAre(log: seq<Entry>, s: RecoveryState) {
    && (forall id :: id in s.phases <==> exists i: nat :: LastAbout(log, id, i))
    && s.generations.Keys == s.phases.Keys
    && (forall id, i: nat :: LastAbout(log, id, i) ==> id in s.phases && s.phases[id] == log[i].phase && s.generations[id] == log[i].generation)
  }

  lemma LatestSnoc(log: seq<Entry>, e: Entry, s: RecoveryState, s': RecoveryState)
    requires LatestAre(log, s)
    requires if e.isWorkload then s'.phases == s.phases[e.id := e.phase] && s'.generations == s.generations[e.id := e.generation]
             else s'.phases == s.phases && s'.generations == s.generations
    ensures LatestAre(log + [e], s')
  {
    var log' := log + [e];
    assert log'[|log|] == e;
    forall id, i: nat | LastAbout(log', id, i) ensures id in s'.phases && s'.phases[id] == log'[i].phase && s'.generations[id] == log'[i].generation {
      LastAboutSnoc(log, e, id, i);
    }
    forall id | id in s'.phases ensures exists i: nat :: LastAbout(log', id, i) {
      if About(e, id) {
        LastAboutSnoc(log, e, id, |log|);
      } else {
        var i: nat :| LastAbout(log, id, i);
        LastAboutSnoc(log, e, id, i);
      }
    }
  }

  method ReplayEntry(ghost log: seq<Entry>, s: RecoveryState, e: Entry) returns (s': RecoveryState)
    requires Lists(log, s) && LatestAre(log, s)
    ensures Lists(log + [e], s') && LatestAre(log + [e], s')
    ensures s'.entriesReplayed == s.entriesReplayed + 1 && s'.maxSequence == e.sequence
  {
    forall id
      ensures ActiveIn(log + [e], id) <==> if About(e, id) then !IsTerminal(e.phase) else ActiveIn(log, id)
      ensures InterruptedIn(log + [e], id) <==> if About(e, id) then !IsTerminal(e.phase) && (IsActive(e.phase) || InterruptedIn(log, id)) else InterruptedIn(log, id)
      ensures LeasedIn(log + [e], id) <==> if About(e, id) then e.isCommit || (!IsTerminal(e.phase) && LeasedIn(log, id)) else LeasedIn(log, id)
    {
      ActiveSnoc(log, e, id);
      InterruptedSnoc(log, e, id);
      LeasedSnoc(log, e, id);
    }
    s' := s.(entriesReplayed := s.entriesReplayed + 1, maxSequence := e.sequence);
    if e.isWorkload {
      var active, interrupted, leased := s.active, s.interrupted, s.leased;
      if IsTerminal(e.phase) {
        active := Retain(active, e.id);
        interrupted := Retain(interrupted, e.id);
        leased := Retain(leased, e.id);
      } else {
        active := Include(active, e.id);
      }
      if IsActive(e.phase) {
        interrupted := Include(interrupted, e.id);
      }
      if e.isCommit {
        leased := Include(leased, e.id);
      }
      s' := s'.(phases := s.phases[e.id := e.phase], generations := s.generations[e.id := e.generation],
                active := active, interrupted := interrupted, leased := leased);
    }
    LatestSnoc(log, e, s, s');
  }

  /** Replaying a journal yields what its declarative reading says. */
  method ReplayJournal(log: seq<Entry>) returns (s: RecoveryState)
    ensures Lists(log, s) && LatestAre(log, s)
    ensures s.entriesReplayed == |log| && s.maxSequence == if log == [] then 0 else log[|log| - 1].sequence
  {
    s := RecoveryState(map[], map[], [], [], [], 0, 0);
    for i := 0 to |log|
      invariant Lists(log[..i], s) && LatestAre(log[..i], s)
      invariant s.entriesReplayed == i && s.maxSequence == if i == 0 then 0 else log[i - 1].sequence
    {
      assert log[..i + 1] == log[..i] + [log[i]];
      s := ReplayEntry(log[..i], s, log[i]);
    }
    assert log[..|log|] == log;
  }

  // ---------------------------------------------------------------------------
  // Recovery actions
  // ---------------------------------------------------------------------------

  /** An interrupted workload has a last phase, so the action names it. */
  lemma InterruptedHasPhase(log: seq<Entry>, id: nat) returns (i: nat)
    requires InterruptedIn(log, id)
    ensures LastAbout(log, id, i) && !IsTerminal(log[i].phase)
  {
    var k: nat :| InterruptedBy(log, id, k);
    i := LastFrom(log, id, k);
  }

  lemma {:induction false} LastFrom(log: seq<Entry>, id: nat, k: nat) returns (i: nat)
    requires k < |log| && About(log[k], id)
    ensures k <= i && LastAbout(log, id, i)
    decreases |log| - k
  {
    if j: nat :| k < j < |log| && About(log[j], id) {
      i := LastFrom(log, id, j);
    } else {
      i := k;
    }
  }

  ghost predicate Resumable(log: seq<Entry>, id: nat, i: nat)
    requires i < |log|
  {
    LeasedIn(log, id) || log[i].phase in {Admitted, Placed, Preparing}
  }

  /** What an interrupted workload deserves. */
  ghost predicate Deserves(log: seq<Entry>, a: Action) {
    forall i: nat :: LastAbout(log, a.id, i) ==> a == if Resumable(log, a.id, i) then Resume(a.id, Some(log[i].phase)) else MarkLost(a.id)
  }

  method ActionFor(ghost log: seq<Entry>, s: RecoveryState, id: nat) returns (a: Action)
    requires Lists(log, s) && LatestAre(log, s)
    ensures a.id == id && Deserves(log, a)
  {
    var phase := if id in s.phases then Some(s.phases[id]) else None;
    if id in s.leased || phase in {Some(Admitted), Some(Placed), Some(Preparing)} {
      a := Resume(id, phase);
    } else {
      a := MarkLost(id);
    }
  }

  /** One action per interrupted workload: resume when leased or not yet running, else mark lost. */
  method ComputeRecoveryActions(ghost log: seq<Entry>, s: RecoveryState) returns (actions: seq<Action>)
    requires Lists(log, s) && LatestAre(log, s)
    ensures |actions| == |s.interrupted|
    ensures forall k :: 0 <= k < |actions| ==> actions[k].id == s.interrupted[k] && Deserves(log, actions[k])
    ensures forall j, k :: 0 <= j < k < |actions| ==> actions[j].id != actions[k].id
  {
    actions := [];
    for n := 0 to |s.interrupted|
      invariant |actions| == n && forall k :: 0 <= k < n ==> actions[k].id == s.interrupted[k] && Deserves(log, actions[k])
    {
      var a := ActionFor(log, s, s.interrupted[n]);
      actions := actions + [a];
    }
  }

  /** What the last phase of a workload says about it at once. */
  ghost predicate SortedBy(p: Phase, isCommit: bool, s: RecoveryState, id: nat) {
    match p
    case Rejected | Succeeded | Failed | Cancelled | Lost | Quarantined => id !in s.active && id !in s.interrupted && (id in s.leased <==> isCommit)
    case Admitted | Placed | Preparing | Running | Quiescing | Checkpointing | Recovering => id in s.active && id in s.interrupted
    case OtherPhase(_) => id in s.active
  }

  lemma LastPhaseSorts(log: seq<Entry>, s: RecoveryState, id: nat, i: nat)
    requires Lists(log, s) && LastAbout(log, id, i)
    ensures SortedBy(log[i].phase, log[i].isCommit, s, id)
  {
    forall j: nat | LastAbout(log, id, j) ensures j == i {}
    assert IsActive(log[i].phase) ==> InterruptedBy(log, id, i);
    assert log[i].isCommit ==> LeasedBy(log, id, i);
  }

  /** Replay and decide: exactly one action for exactly the interrupted workloads. */
  method Recover(log: seq<Entry>) returns (s: RecoveryState, actions: seq<Action>)
    ensures Lists(log, s) && LatestAre(log, s)
    ensures forall id, i: nat :: LastAbout(log, id, i) ==> SortedBy(log[i].phase, log[i].isCommit, s, id)
    ensures forall k :: 0 <= k < |actions| ==> InterruptedIn(log, actions[k].id) && Deserves(log, actions[k])
    ensures forall id :: InterruptedIn(log, id) ==> exists k :: 0 <= k < |actions| && actions[k].id == id
    ensures forall j, k :: 0 <= j < k < |actions| ==> actions[j].id != actions[k].id
  {
    s := ReplayJournal(log);
    actions := ComputeRecoveryActions(log, s);
    forall id, i: nat | LastAbout(log, id, i) ensures SortedBy(log[i].phase, log[i].isCommit, s, id) {
      LastPhaseSorts(log, s, id, i);
    }
    forall id | InterruptedIn(log, id) ensures exists k :: 0 <= k < |actions| && actions[k].id == id {
      var k :| 0 <= k < |s.interrupted| && s.interrupted[k] == id;
      assert actions[k].id == id;
    }
    forall k | 0 <= k < |actions| ensures InterruptedIn(log, actions[k].id) {
      assert s.interrupted[k] in s.interrupted;
    }
  }

  /** The workload ended with a row that was itself a commit. */
  ghost predicate EndedByCommit(log: seq<Entry>, id: nat) {
    exists i: nat :: LastAbout(log, id, i) && IsTerminal(log[i].phase) && log[i].isCommit
  }

  /** A leased workload is active, unless it ended with a commit. */
  lemma LeasedIsActiveIff(log: seq<Entry>, id: nat)
    ensures (LeasedIn(log, id) ==> ActiveIn(log, id)) <==> !EndedByCommit(log, id)
  {
    if EndedByCommit(log, id) {
      var i: nat :| LastAbout(log, id, i) && IsTerminal(log[i].phase) && log[i].isCommit;
      assert LeasedBy(log, id, i);
      forall j: nat | LastAbout(log, id, j) ensures j == i {}
    } else if LeasedIn(log, id) {
      var k: nat :| LeasedBy(log, id, k);
      var i := LastFrom(log, id, k);
      assert i == k || !IsTerminal(log[i].phase);
    }
  }

  /** A workload can be leased without being active: its terminal row was itself a commit. */
  lemma LeasedNeedNotBeActive()
    ensures var log := [Entry(1, true, 7, Succeeded, 1, true)]; LeasedIn(log, 7) && !ActiveIn(log, 7)
  {
    var log := [Entry(1, true, 7, Succeeded, 1, true)];
    assert LastAbout(log, 7, 0);
    LeasedIsActiveIff(log, 7);
  }
}
