/** Semantic state: an in-memory map of records, written under one lock together with its journal. */
module Semantic {
  import opened Prelude
  import Journal

  datatype Record = Record(id: nat, generation: nat, value: nat)

  /** Journal rows: commits of semantic state, and whatever else is journaled. */
  datatype Row = Committed(record: Record) | Foreign(details: nat)

  type Log = seq<Journal.Entry<nat, Row>>

  /** `replay`: the last commit of each id wins. */
  function Replay(log: Log): map<nat, Record> {
    if log == [] then map[]
    else
      var view, row := Replay(log[..|log| - 1]), log[|log| - 1].record;
      if row.Committed? then view[row.record.id := row.record] else view
  }

  function Commits(log: Log, id: nat): nat {
    if log == [] then 0
    else
      var row := log[|log| - 1].record;
      Commits(log[..|log| - 1], id) + if row.Committed? && row.record.id == id then 1 else 0
  }

  function Generation(records: map<nat, Record>, id: nat): nat {
    if id in records then records[id].generation else 0
  }

  // ---------------------------------------------------------------------------
  // Runs
  // ---------------------------------------------------------------------------

  datatype State = State(records: map<nat, Record>, log: Log)

  /** `stored` is false when the journal fails to store a new row. */
  datatype Action =
    | Put(id: nat, value: nat, expected: nat, key: nat, stored: bool)
    | Other(workload: nat, tag: Option<nat>, details: nat)

  predicate Wins(s: State, a: Action)
    requires a.Put?
  {
    Generation(s.records, a.id) == a.expected && (a.stored || Journal.HasKey(s.log, a.key))
  }

  function Do(s: State, a: Action): State {
    match a
    case Put(id, value, expected, key, stored) =>
      if !Wins(s, a) then s
      else
        var r := Record(id, expected + 1, value);
        State(s.records[id := r], Journal.Appended(s.log, Journal.Entry(id, Some(key), Committed(r))))
    case Other(w, key, details) => s.(log := Journal.Appended(s.log, Journal.Entry(w, key, Foreign(details))))
  }

  /** A winning put whose key is already in the journal is remembered but not journaled. */
  predicate FreshKey(s: State, a: Action) {
    a.Put? && Wins(s, a) ==> !Journal.HasKey(s.log, a.key)
  }

  ghost predicate StepAt(run: seq<State>, acts: seq<Action>, i: nat)
    requires i + 1 < |run| && i < |acts|
  {
    run[i + 1] == Do(run[i], acts[i])
  }

  ghost predicate IsRun(run: seq<State>, acts: seq<Action>) {
    |run| == |acts| + 1 && run[0] == State(map[], []) && forall i :: 0 <= i < |acts| ==> StepAt(run, acts, i)
  }

  ghost predicate FreshAt(run: seq<State>, acts: seq<Action>, i: nat)
    requires i < |run| && i < |acts|
  {
    FreshKey(run[i], acts[i])
  }

  ghost predicate FreshKeys(run: seq<State>, acts: seq<Action>)
    requires IsRun(run, acts)
  {
    forall i :: 0 <= i < |acts| ==> FreshAt(run, acts, i)
  }

  /** The i-th commit of an id carries generation i. */
  ghost predicate NumberedAt(log: Log, i: nat)
    requires i < |log|
  {
    log[i].record.Committed? ==> log[i].record.record.generation == Commits(log[..i + 1], log[i].record.record.id)
  }

  ghost predicate Numbered(log: Log) {
    forall i :: 0 <= i < |log| ==> NumberedAt(log, i)
  }

  lemma PrefixNumbered(log: Log, n: nat)
    requires Numbered(log) && n <= |log|
    ensures Numbered(log[..n])
  {
    forall i | 0 <= i < n ensures NumberedAt(log[..n], i) {
      assert NumberedAt(log, i) && log[..n][..i + 1] == log[..i + 1];
    }
  }

  ghost predicate Agrees(s: State) {
    s.records == Replay(s.log) && Numbered(s.log)
  }

  lemma {:induction false} GenerationCounts(log: Log, id: nat)
    requires Numbered(log)
    ensures Generation(Replay(log), id) == Commits(log, id)
  {
    if log != [] {
      var n := |log| - 1;
      PrefixNumbered(log, n);
      GenerationCounts(log[..n], id);
      assert NumberedAt(log, n) && log[..n + 1] == log;
    }
  }

  lemma NumberedSnoc(log: Log, e: Journal.Entry<nat, Row>)
    requires Numbered(log) && (e.record.Committed? ==> e.record.record.generation == Commits(log, e.record.record.id) + 1)
    ensures Numbered(log + [e]) && Replay(log + [e]) == (if e.record.Committed? then Replay(log)[e.record.record.id := e.record.record] else Replay(log))
  {
    var log' := log + [e];
    assert log'[..|log|] == log && log'[..|log| + 1] == log';
    forall i | 0 <= i < |log'| ensures NumberedAt(log', i) {
      if i < |log| {
        assert NumberedAt(log, i) && log'[..i + 1] == log[..i + 1];
      }
    }
  }

  /** One step keeps view and journal in agreement exactly when it does not reuse a key for a winning put. */
  lemma StepAgreesIffFresh(s: State, a: Action)
    requires Agrees(s)
    ensures Agrees(Do(s, a)) <==> FreshKey(s, a)
  {
    if a.Put? && Wins(s, a) {
      var r := Record(a.id, a.expected + 1, a.value);
      GenerationCounts(s.log, a.id);
      NumberedSnoc(s.log, Journal.Entry(a.id, Some(a.key), Committed(r)));
      if Journal.HasKey(s.log, a.key) {
        assert Do(s, a).records[a.id] == r;
        assert Generation(Do(s, a).records, a.id) != Generation(s.records, a.id);
      }
    } else if a.Other? {
      NumberedSnoc(s.log, Journal.Entry(a.workload, a.tag, Foreign(a.details)));
    }
  }

  /** With fresh keys, in every state of every run: the view is the replay and generations count commits. */
  lemma {:induction false} ViewIsReplay(run: seq<State>, acts: seq<Action>, i: nat, id: nat)
    requires IsRun(run, acts) && FreshKeys(run, acts) && i < |run|
    ensures Agrees(run[i]) && Generation(run[i].records, id) == Commits(run[i].log, id)
  {
    if i > 0 {
      ViewIsReplay(run, acts, i - 1, id);
      assert StepAt(run, acts, i - 1) && FreshAt(run, acts, i - 1);
      StepAgreesIffFresh(run[i - 1], acts[i - 1]);
    }
    GenerationCounts(run[i].log, id);
  }

  lemma {:induction false} CommitsGrow(log: Log, id: nat, i: nat, j: nat)
    requires i <= j <= |log|
    ensures Commits(log[..i], id) <= Commits(log[..j], id)
  {
    if i < j {
      assert log[..j][..j - 1] == log[..j - 1];
      CommitsGrow(log, id, i, j - 1);
    }
  }

  ghost predicate Winner(log: Log, id: nat, g: nat, i: nat) {
    i < |log| && log[i].record.Committed? && log[i].record.record.id == id && log[i].record.record.generation == g
  }

  lemma {:induction false} SomeWinner(log: Log, id: nat, g: nat) returns (i: nat)
    requires Numbered(log) && 1 <= g <= Commits(log, id)
    ensures Winner(log, id, g, i)
  {
    var n := |log| - 1;
    assert NumberedAt(log, n) && log[..n + 1] == log;
    if g <= Commits(log[..n], id) {
      PrefixNumbered(log, n);
      i := SomeWinner(log[..n], id, g);
    } else {
      i := n;
    }
  }

  lemma LaterIsHigher(log: Log, id: nat, g: nat, h: nat, i: nat, j: nat)
    requires Numbered(log) && Winner(log, id, g, i) && Winner(log, id, h, j) && i < j
    ensures g < h
  {
    assert NumberedAt(log, i) && NumberedAt(log, j);
    CommitsGrow(log, id, i + 1, j);
    assert log[..j + 1][..j] == log[..j];
  }

  /** Every generation an id ever reached was committed by exactly one row. */
  lemma OneWinnerEach(log: Log, id: nat, g: nat) returns (i: nat)
    requires Numbered(log) && 1 <= g <= Commits(log, id)
    ensures Winner(log, id, g, i) && forall j: nat :: Winner(log, id, g, j) ==> j == i
  {
    i := SomeWinner(log, id, g);
    forall j: nat | Winner(log, id, g, j) ensures j == i {
      if i < j {
        LaterIsHigher(log, id, g, g, i, j);
      } else if j < i {
        LaterIsHigher(log, id, g, g, j, i);
      }
    }
  }

  /** A reused key: the second put wins in memory and is lost on replay. */
  lemma ReusedKeyDiverges()
    ensures var s := Do(State(map[], []), Put(1, 10, 0, 5, true)); var t := Do(s, Put(1, 20, 1, 5, true));
            Agrees(s) && Wins(s, Put(1, 20, 1, 5, true)) && t.records != Replay(t.log)
  {
    var s0 := State(map[], []);
    var s := Do(s0, Put(1, 10, 0, 5, true));
    StepAgreesIffFresh(s0, Put(1, 10, 0, 5, true));
    assert s.log[0].key == Some(5);
    StepAgreesIffFresh(s, Put(1, 20, 1, 5, true));
    assert Journal.HasKey(s.log, 5);
  }

  // ---------------------------------------------------------------------------
  // The fabric object
  // ---------------------------------------------------------------------------

  datatype Error = WorkloadConflict | JournalFailure

  class SemanticStateFabric {
    var records: map<nat, Record>

    constructor ()
      ensures records == map[]
    {
      records := map[];
    }

    /** Compare-and-swap on the generation, journaled before it is remembered. */
    method PutRecord(journal: Journal.Table<nat, Row>, id: nat, value: nat, expected: nat, key: nat, stored: bool) returns (r: Result<nat, Error>)
      requires journal.Valid()
      modifies this, journal
      ensures journal.Valid()
      ensures State(records, journal.Log()) == Do(State(old(records), old(journal.Log())), Put(id, value, expected, key, stored))
      ensures r.Ok? <==> Wins(State(old(records), old(journal.Log())), Put(id, value, expected, key, stored))
      ensures r == Err(WorkloadConflict) <==> Generation(old(records), id) != expected
      ensures r.Ok? ==> Generation(records, id) == expected + 1
      ensures old(Agrees(State(records, journal.Log()))) ==>
                (Agrees(State(records, journal.Log())) <==> (r.Ok? ==> !Journal.HasKey(old(journal.Log()), key)))
    {
      ghost var s, a := State(records, journal.Log()), Put(id, value, expected, key, stored);
      if Agrees(s) {
        StepAgreesIffFresh(s, a);
      }
      if Generation(records, id) != expected {
        return Err(WorkloadConflict);
      }
      var record := Record(id, expected + 1, value);
      var sequence := journal.Append(Journal.Entry(id, Some(key), Committed(record)), stored);
      if sequence.Err? {
        return Err(JournalFailure);
      }
      records := records[id := record];
      r := Ok(sequence.value);
    }

    /** A fresh fabric read back from the journal. */
    constructor Replayed(journal: Journal.Table<nat, Row>)
      ensures records == Replay(journal.Log())
    {
      records := map[];
      new;
      ghost var log := journal.Log();
      for i := 0 to |journal.rows|
        invariant records == Replay(log[..i]) && log == journal.Log()
      {
        assert log[..i + 1][..i] == log[..i];
        var row := journal.rows[i].entry.record;
        if row.Committed? {
          records := records[row.record.id := row.record];
        }
      }
      assert log[..|log|] == log;
    }
  }
}
