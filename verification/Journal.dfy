/**
 The append-only journal. Rows carry an optional idempotency key; appending a
 key that is already stored is a no-op that answers with the stored row.

 `Appended` is the sequential meaning of an append, used by every module that
 writes to a journal. `Store` adds what concurrency adds: looking a key up and
 inserting a row are separate lock sections, inserts may fail, and the process
 may stop and reopen the file at any point.
 */
module Journal {
  import opened Prelude

  /** One row. `record` is everything the journal itself never inspects. */
  datatype Entry<K, R> = Entry(workload: nat, key: Option<K>, record: R)

  predicate HasKey<K(==), R>(log: seq<Entry<K, R>>, k: K) {
    exists i :: 0 <= i < |log| && log[i].key == Some(k)
  }

  ghost predicate UniqueKeys<K, R>(log: seq<Entry<K, R>>) {
    forall i, j :: 0 <= i < j < |log| && log[i].key.Some? ==> log[i].key != log[j].key
  }

  /** The journal after an idempotent append. */
  function Appended<K(==), R>(log: seq<Entry<K, R>>, e: Entry<K, R>): (log': seq<Entry<K, R>>)
    ensures log <= log'
    ensures UniqueKeys(log) ==> UniqueKeys(log')
    ensures e.key.Some? ==> HasKey(log', e.key.value)
  {
    if e.key.Some? && HasKey(log, e.key.value) then log
    else
      assert (log + [e])[|log|] == e;
      log + [e]
  }

  lemma HasKeyAppend<K, R>(log: seq<Entry<K, R>>, e: Entry<K, R>, k: K)
    ensures HasKey(log + [e], k) <==> HasKey(log, k) || e.key == Some(k)
  {
    if HasKey(log, k) {
      var i :| 0 <= i < |log| && log[i].key == Some(k);
      assert (log + [e])[i].key == Some(k);
    }
    assert (log + [e])[|log|] == e;
  }

  // ---------------------------------------------------------------------------
  // The stored table, with lookup and insert as separate interleaved steps
  // ---------------------------------------------------------------------------

  /** A row as stored, with the sequence number it was given. */
  datatype Stored<K, R> = Stored(sequence: nat, entry: Entry<K, R>)

  /** A successful return of `append`. */
  datatype Answer<K, R> = Answer(entry: Entry<K, R>, sequence: nat)

  datatype Store<K, R> = Store(
    rows: seq<Stored<K, R>>,
    next: nat,
    waiting: map<nat, Entry<K, R>>,   // threads between lookup and insert
    answers: seq<Answer<K, R>>)

  datatype Step<K, R> =
    | Lookup(thread: nat, entry: Entry<K, R>)
    | Insert(thread: nat, stored: bool)
    | Reopen

  function Find<K(==), R>(rows: seq<Stored<K, R>>, k: K): (r: Option<nat>)
    ensures r.Some? <==> exists i :: 0 <= i < |rows| && rows[i].entry.key == Some(k)
    ensures r.Some? ==> exists i :: 0 <= i < |rows| && rows[i].entry.key == Some(k) && rows[i].sequence == r.value
  {
    if rows == [] then None
    else if rows[0].entry.key == Some(k) then Some(rows[0].sequence)
    else
      assert forall i :: 0 < i < |rows| ==> rows[i] == rows[1..][i - 1];
      Find(rows[1..], k)
  }

  /** What `SELECT COALESCE(MAX(sequence), 0)` reads when the file is opened. */
  function MaxSequence<K, R>(rows: seq<Stored<K, R>>): (m: nat)
    ensures forall i :: 0 <= i < |rows| ==> rows[i].sequence <= m
    ensures rows != [] ==> exists i :: 0 <= i < |rows| && rows[i].sequence == m
  {
    if rows == [] then 0
    else
      var m := MaxSequence(rows[1..]);
      assert forall i :: 0 < i < |rows| ==> rows[i] == rows[1..][i - 1];
      Max(rows[0].sequence, m)
  }

  ghost predicate Enabled<K, R>(s: Store<K, R>, a: Step<K, R>) {
    match a
    case Lookup(t, _) => t !in s.waiting
    case Insert(t, _) => t in s.waiting
    case Reopen => true
  }

  function KeyTaken<K(==), R>(rows: seq<Stored<K, R>>, e: Entry<K, R>): Option<nat> {
    if e.key.None? then None else Find(rows, e.key.value)
  }

  function Do<K(==), R>(s: Store<K, R>, a: Step<K, R>): Store<K, R>
    requires a.Insert? ==> a.thread in s.waiting
  {
    match a
    case Lookup(t, e) =>
      var found := KeyTaken(s.rows, e);
      if found.Some? then s.(answers := s.answers + [Answer(e, found.value)])
      else s.(waiting := s.waiting[t := e])
    case Insert(t, stored) =>
      var e := s.waiting[t];
      var s' := s.(waiting := s.waiting - {t});
      // The unique index turns a lost race into an error, not a second row.
      if !stored || KeyTaken(s.rows, e).Some? then s'
      else s'.(rows := s.rows + [Stored(s.next, e)], next := s.next + 1,
               answers := s.answers + [Answer(e, s.next)])
    case Reopen =>
      s.(next := MaxSequence(s.rows) + 1, waiting := map[])
  }

  ghost predicate Next<K(!new), R(!new)>(s: Store<K, R>, s': Store<K, R>) {
    exists a: Step<K, R> :: Enabled(s, a) && s' == Do(s, a)
  }

  ghost predicate StepAt<K(!new), R(!new)>(run: seq<Store<K, R>>, i: nat)
    requires i + 1 < |run|
  {
    Next(run[i], run[i + 1])
  }

  ghost predicate IsRun<K(!new), R(!new)>(run: seq<Store<K, R>>) {
    && |run| > 0
    && run[0] == Store([], 1, map[], [])
    && forall i :: 0 <= i < |run| - 1 ==> StepAt(run, i)
  }

  ghost predicate Answered<K, R>(s: Store<K, R>, a: Answer<K, R>) {
    && 1 <= a.sequence <= |s.rows|
    && s.rows[a.sequence - 1].entry.key == a.entry.key
    && (a.entry.key.None? ==> s.rows[a.sequence - 1].entry == a.entry)
  }

  function Contents<K, R>(rows: seq<Stored<K, R>>): (log: seq<Entry<K, R>>)
    ensures |log| == |rows| && forall i :: 0 <= i < |rows| ==> log[i] == rows[i].entry
  {
    seq(|rows|, i requires 0 <= i < |rows| => rows[i].entry)
  }

  ghost predicate Inv<K, R>(s: Store<K, R>) {
    && (forall i :: 0 <= i < |s.rows| ==> s.rows[i].sequence == i + 1)
    && s.next == |s.rows| + 1
    && UniqueKeys(Contents(s.rows))
    && (forall j :: 0 <= j < |s.answers| ==> Answered(s, s.answers[j]))
  }

  lemma StepKeepsInv<K, R>(s: Store<K, R>, a: Step<K, R>)
    requires Inv(s) && Enabled(s, a)
    ensures Inv(Do(s, a)) && s.rows <= Do(s, a).rows
  {
    var s' := Do(s, a);
    match a
    case Lookup(t, e) =>
      if KeyTaken(s.rows, e).Some? {
        assert Answered(s, Answer(e, KeyTaken(s.rows, e).value));
      }
    case Insert(t, stored) =>
      if stored && KeyTaken(s.rows, s.waiting[t]).None? {
        assert Answered(s', Answer(s.waiting[t], s.next));
        forall j | 0 <= j < |s.answers| ensures Answered(s', s.answers[j]) {
          assert Answered(s, s.answers[j]);
        }
      }
    case Reopen =>
      MaxOfConsecutive(s.rows);
  }

  lemma MaxOfConsecutive<K, R>(rows: seq<Stored<K, R>>)
    requires forall i :: 0 <= i < |rows| ==> rows[i].sequence == i + 1
    ensures MaxSequence(rows) == |rows|
  {
    if rows != [] {
      assert rows[|rows| - 1].sequence == |rows|;
    }
  }

  /**
   In every run, under every interleaving of lookups and inserts, with failed
   inserts and reopens anywhere: sequences are exactly 1..n, no key is stored
   twice, rows never change once stored, and every successful append answered
   with the position of a row that carries its key.
   */
  lemma {:induction false} EveryRunIsSound<K(!new), R(!new)>(run: seq<Store<K, R>>, i: nat, j: nat)
    requires IsRun(run) && i <= j < |run|
    ensures Inv(run[i]) && Inv(run[j]) && run[i].rows <= run[j].rows
    decreases i + j
  {
    if i < j {
      EveryRunIsSound(run, i, j - 1);
      StepOf(run, j - 1);
    } else if 0 < j {
      EveryRunIsSound(run, i - 1, j - 1);
      StepOf(run, j - 1);
    }
  }

  lemma StepOf<K(!new), R(!new)>(run: seq<Store<K, R>>, i: nat)
    requires IsRun(run) && i + 1 < |run| && Inv(run[i])
    ensures Inv(run[i + 1]) && run[i].rows <= run[i + 1].rows
  {
    assert StepAt(run, i);
    var a :| Enabled(run[i], a) && run[i + 1] == Do(run[i], a);
    StepKeepsInv(run[i], a);
  }

  /** A lookup followed at once by its insert is exactly one `Appended`. */
  lemma LookupThenInsertIsAppended<K, R>(s: Store<K, R>, t: nat, e: Entry<K, R>)
    requires Inv(s) && t !in s.waiting
    ensures var mid := Do(s, Lookup(t, e));
            var end := if t in mid.waiting then Do(mid, Insert(t, true)) else mid;
            && Contents(end.rows) == Appended(Contents(s.rows), e)
            && |end.answers| == |s.answers| + 1
            && Answered(end, end.answers[|s.answers|])
  {
    var log := Contents(s.rows);
    var mid := Do(s, Lookup(t, e));
    if t in mid.waiting {
      StepKeepsInv(s, Lookup(t, e));
      StepKeepsInv(mid, Insert(t, true));
      assert e.key.Some? ==> !HasKey(log, e.key.value);
      assert Contents(Do(mid, Insert(t, true)).rows) == log + [e];
    } else {
      StepKeepsInv(s, Lookup(t, e));
      var i :| 0 <= i < |s.rows| && s.rows[i].entry.key == e.key;
      assert log[i].key == e.key;
    }
  }

  // ---------------------------------------------------------------------------
  // The journal object
  // ---------------------------------------------------------------------------

  datatype Error = StorageFailure

  class Table<K(==), R> {
    var rows: seq<Stored<K, R>>
    var next: nat

    ghost predicate Valid()
      reads this
    {
      Inv(Store(rows, next, map[], []))
    }

    ghost function Log(): seq<Entry<K, R>>
      reads this
    {
      Contents(rows)
    }

    /** `Journal::open`: only the rows survive a restart. */
    constructor Open(stored: seq<Stored<K, R>>)
      ensures rows == stored && next == MaxSequence(stored) + 1
      ensures Inv(Store(stored, |stored| + 1, map[], [])) ==> Valid() && next == |stored| + 1
    {
      rows := stored;
      next := MaxSequence(stored) + 1;
      if Inv(Store(stored, |stored| + 1, map[], [])) {
        MaxOfConsecutive(stored);
      }
    }

    method FindByIdempotencyKey(k: K) returns (r: Option<nat>)
      requires Valid()
      ensures r.Some? <==> HasKey(Log(), k)
      ensures r.Some? ==> 1 <= r.value <= |rows| && Log()[r.value - 1].key == Some(k)
    {
      for i := 0 to |rows|
        invariant forall j :: 0 <= j < i ==> Log()[j].key != Some(k)
      {
        if rows[i].entry.key == Some(k) {
          return Some(rows[i].sequence);
        }
      }
      r := None;
    }

    method Append(e: Entry<K, R>, stored: bool) returns (r: Result<nat, Error>)
      requires Valid()
      modifies this
      ensures Valid()
      ensures r.Ok? ==> Log() == Appended(old(Log()), e)
      ensures r.Ok? ==> 1 <= r.value <= |rows| && Log()[r.value - 1].key == e.key
      ensures r.Ok? && e.key.None? ==> Log()[r.value - 1] == e
      ensures r.Err? ==> rows == old(rows) && next == old(next)
      ensures r.Err? <==> !stored && (e.key.Some? ==> !HasKey(old(Log()), e.key.value))
    {
      if e.key.Some? {
        var found := FindByIdempotencyKey(e.key.value);
        if found.Some? {
          return Ok(found.value);
        }
      }
      if !stored {
        return Err(StorageFailure);
      }
      ghost var before := Log();
      rows := rows + [Stored(next, e)];
      assert Log() == before + [e];
      next := next + 1;
      r := Ok(next - 1);
    }
  }
}
