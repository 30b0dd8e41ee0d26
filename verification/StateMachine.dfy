/** The generation-checked state machine: hooks, history, roll back, and its journal. */
module StateMachine {
  import opened Prelude
  import Journal

  datatype Step<S> = Step(from: S, to: S, generation: nat, token: nat)

  /** `initial` is where the machine started; it is not stored by the program. */
  datatype Machine<S(==)> = Machine(
    initial: S,
    current: S,
    transitions: set<(S, S)>,
    history: seq<Step<S>>,
    generation: nat,
    token: nat)

  datatype Error = WorkloadConflict | FailedPrecondition | HookError | SerializationError | JournalError

  /** A request: target, expected generation, what each hook answers, and the new fencing token. */
  datatype Attempt<S> = Attempt(to: S, expected: nat, before: seq<bool>, after: seq<bool>, token: nat)

  predicate Allowed<S(==)>(m: Machine<S>, to: S) {
    m.current == to || (m.current, to) in m.transitions
  }

  /** Every check passes and every hook consents. */
  predicate Succeeds<S(==)>(m: Machine<S>, a: Attempt<S>) {
    && a.expected == m.generation && Allowed(m, a.to)
    && (forall i :: 0 <= i < |a.before| ==> a.before[i]) && (forall i :: 0 <= i < |a.after| ==> a.after[i])
  }

  function Moved<S(==)>(m: Machine<S>, a: Attempt<S>): Machine<S> {
    m.(current := a.to, generation := m.generation + 1, token := a.token,
       history := m.history + [Step(m.current, a.to, m.generation + 1, a.token)])
  }

  function After<S(==)>(m: Machine<S>, a: Attempt<S>): Machine<S> {
    if Succeeds(m, a) then Moved(m, a) else m
  }

  // ---------------------------------------------------------------------------
  // History
  // ---------------------------------------------------------------------------

  /** Where the machine was before its i-th step. */
  function At<S(==)>(m: Machine<S>, i: nat): S
    requires i <= |m.history|
  {
    if i == 0 then m.initial else m.history[i - 1].to
  }

  /** History is a connected chain of allowed or self transitions from the initial to the current state. */
  ghost predicate Chained<S>(m: Machine<S>) {
    && m.current == At(m, |m.history|) && m.generation == |m.history| + 1
    && forall i :: 0 <= i < |m.history| ==>
         && m.history[i].from == At(m, i) && m.history[i].generation == i + 2
         && (m.history[i].from == m.history[i].to || (m.history[i].from, m.history[i].to) in m.transitions)
  }

  lemma MoveKeepsChain<S>(m: Machine<S>, a: Attempt<S>)
    requires Chained(m) && Allowed(m, a.to)
    ensures Chained(Moved(m, a))
  {
    var m' := Moved(m, a);
    forall i | 0 <= i <= |m.history| ensures At(m', i) == At(m, i) {}
  }

  lemma AfterKeepsChain<S>(m: Machine<S>, a: Attempt<S>)
    requires Chained(m)
    ensures Chained(After(m, a))
  {
    if Succeeds(m, a) {
      MoveKeepsChain(m, a);
    }
  }

  // ---------------------------------------------------------------------------
  // The journal
  // ---------------------------------------------------------------------------

  /** Transition rows of some object, and whatever else is journaled. */
  datatype Row<S> = Transition(subject: nat, step: Step<S>) | Foreign(details: nat)

  /** The steps of one object, in journal order. */
  function StepsOf<S>(log: seq<Journal.Entry<nat, Row<S>>>, subject: nat): seq<Step<S>> {
    if log == [] then []
    else
      var row := log[|log| - 1].record;
      StepsOf(log[..|log| - 1], subject) + if row.Transition? && row.subject == subject then [row.step] else []
  }

  lemma StepsSnoc<S>(log: seq<Journal.Entry<nat, Row<S>>>, e: Journal.Entry<nat, Row<S>>, subject: nat)
    ensures StepsOf(log + [e], subject) == StepsOf(log, subject) + if e.record.Transition? && e.record.subject == subject then [e.record.step] else []
  {
    assert (log + [e])[..|log|] == log;
  }

  /** The journal replays to the machine: same steps, hence same state and generation. */
  ghost predicate Mirrors<S>(m: Machine<S>, log: seq<Journal.Entry<nat, Row<S>>>, subject: nat) {
    StepsOf(log, subject) == m.history
  }

  lemma MirrorGivesState<S>(m: Machine<S>, log: seq<Journal.Entry<nat, Row<S>>>, subject: nat)
    requires Chained(m) && Mirrors(m, log, subject)
    ensures var steps := StepsOf(log, subject);
            && m.generation == |steps| + 1
            && m.current == (if steps == [] then m.initial else steps[|steps| - 1].to)
            && (steps != [] ==> m.generation == steps[|steps| - 1].generation)
  {
    assert m.history != [] ==> m.history[|m.history| - 1].generation == |m.history| + 1;
  }

  /** What one journaled attempt does: its key, whether the payload serializes, whether the journal stores. */
  datatype Write<S> = Write(attempt: Attempt<S>, key: Option<nat>, serializes: bool, stored: bool)

  predicate Taken<S>(log: seq<Journal.Entry<nat, Row<S>>>, key: Option<nat>) {
    key.Some? && Journal.HasKey(log, key.value)
  }

  datatype Pair<S(==)> = Pair(machine: Machine<S>, log: seq<Journal.Entry<nat, Row<S>>>)

  /** A failed serialization keeps the move; a failed append takes it back; a taken key keeps it unjournaled. */
  function AfterWrite<S(==)>(p: Pair<S>, workload: nat, subject: nat, w: Write<S>): Pair<S> {
    if !Succeeds(p.machine, w.attempt) then p
    else
      var m := Moved(p.machine, w.attempt);
      if !w.serializes then Pair(m, p.log)
      else if !w.stored && !Taken(p.log, w.key) then p
      else Pair(m, Journal.Appended(p.log, Journal.Entry(workload, w.key, Transition(subject, m.history[|m.history| - 1]))))
  }

  /** The attempts that leave machine and journal apart. */
  predicate Splits<S(==)>(p: Pair<S>, w: Write<S>) {
    Succeeds(p.machine, w.attempt) && (!w.serializes || Taken(p.log, w.key))
  }

  /** From agreement, a journaled attempt keeps agreement exactly when it serializes and its key is free, or it changes nothing. */
  lemma WriteMirrorsIff<S>(p: Pair<S>, workload: nat, subject: nat, w: Write<S>)
    requires Chained(p.machine) && Mirrors(p.machine, p.log, subject)
    ensures Chained(AfterWrite(p, workload, subject, w).machine)
    ensures Mirrors(AfterWrite(p, workload, subject, w).machine, AfterWrite(p, workload, subject, w).log, subject) <==> !Splits(p, w)
  {
    if Succeeds(p.machine, w.attempt) {
      MoveKeepsChain(p.machine, w.attempt);
      var m := Moved(p.machine, w.attempt);
      StepsSnoc(p.log, Journal.Entry(workload, w.key, Transition(subject, m.history[|m.history| - 1])), subject);
      assert |m.history| == |p.machine.history| + 1;
    }
  }

  /** A payload that does not serialize, and a key already taken, each leave a move in memory that the journal never saw. */
  lemma MachineCanSplit()
    ensures var m := Machine(0, 0, {(0, 1)}, [], 1, 0);
            var p := Pair(m, [Journal.Entry(0, Some(5), Foreign(0))]);
            var a := Attempt(1, 1, [], [], 9);
            && Chained(m) && Mirrors(m, p.log, 7)
            && !Mirrors(AfterWrite(p, 0, 7, Write(a, None, false, true)).machine, AfterWrite(p, 0, 7, Write(a, None, false, true)).log, 7)
            && !Mirrors(AfterWrite(p, 0, 7, Write(a, Some(5), true, true)).machine, AfterWrite(p, 0, 7, Write(a, Some(5), true, true)).log, 7)
  {
    var m := Machine(0, 0, {(0, 1)}, [], 1, 0);
    var p := Pair(m, [Journal.Entry(0, Some(5), Foreign(0))]);
    var a := Attempt(1, 1, [], [], 9);
    assert StepsOf<nat>(p.log, 7) == [];
    WriteMirrorsIff(p, 0, 7, Write(a, None, false, true));
    assert p.log[0].key == Some(5);
    WriteMirrorsIff(p, 0, 7, Write(a, Some(5), true, true));
  }

  // ---------------------------------------------------------------------------
  // Runs
  // ---------------------------------------------------------------------------

  datatype Action<S> =
    | Allow(from: S, to: S)
    | Attempted(write: Write<S>)
    | Elsewhere(workload: nat, key: Option<nat>, row: Row<S>)

  /** Rows written elsewhere are not transitions of this object. */
  predicate Proper<S>(subject: nat, a: Action<S>) {
    a.Elsewhere? && a.row.Transition? ==> a.row.subject != subject
  }

  function Do<S(==)>(p: Pair<S>, workload: nat, subject: nat, a: Action<S>): Pair<S> {
    match a
    case Allow(from, to) => p.(machine := p.machine.(transitions := p.machine.transitions + {(from, to)}))
    case Attempted(w) => AfterWrite(p, workload, subject, w)
    case Elsewhere(work, key, row) => p.(log := Journal.Appended(p.log, Journal.Entry(work, key, row)))
  }

  ghost predicate StepAt<S>(run: seq<Pair<S>>, acts: seq<Action<S>>, workload: nat, subject: nat, i: nat)
    requires i + 1 < |run| && i < |acts|
  {
    Proper(subject, acts[i]) && run[i + 1] == Do(run[i], workload, subject, acts[i])
  }

  ghost predicate IsRun<S>(run: seq<Pair<S>>, acts: seq<Action<S>>, workload: nat, subject: nat) {
    && |run| == |acts| + 1
    && run[0].machine.history == [] && run[0].machine.generation == 1 && run[0].machine.current == run[0].machine.initial
    && StepsOf(run[0].log, subject) == []
    && forall i :: 0 <= i < |acts| ==> StepAt(run, acts, workload, subject, i)
  }

  ghost predicate NeverSplits<S>(run: seq<Pair<S>>, acts: seq<Action<S>>)
    requires |run| == |acts| + 1
  {
    forall i :: 0 <= i < |acts| ==> !SplitsAt(run, acts, i)
  }

  ghost predicate SplitsAt<S>(run: seq<Pair<S>>, acts: seq<Action<S>>, i: nat)
    requires i < |run| && i < |acts|
  {
    acts[i].Attempted? && Splits(run[i], acts[i].write)
  }

  /** In every run the history is a chain and the generation counts it. */
  lemma {:induction false} EveryRunIsChained<S>(run: seq<Pair<S>>, acts: seq<Action<S>>, workload: nat, subject: nat, i: nat)
    requires IsRun(run, acts, workload, subject) && i < |run|
    ensures Chained(run[i].machine) && run[i].machine.initial == run[0].machine.initial
  {
    if i > 0 {
      EveryRunIsChained(run, acts, workload, subject, i - 1);
      assert StepAt(run, acts, workload, subject, i - 1);
      if acts[i - 1].Attempted? && Succeeds(run[i - 1].machine, acts[i - 1].write.attempt) {
        MoveKeepsChain(run[i - 1].machine, acts[i - 1].write.attempt);
      }
    }
  }

  /** With free keys and serializable payloads, the journal replays to the current state and generation throughout. */
  lemma {:induction false} JournalReplays<S>(run: seq<Pair<S>>, acts: seq<Action<S>>, workload: nat, subject: nat, i: nat)
    requires IsRun(run, acts, workload, subject) && NeverSplits(run, acts) && i < |run|
    ensures Mirrors(run[i].machine, run[i].log, subject)
  {
    if i > 0 {
      JournalReplays(run, acts, workload, subject, i - 1);
      EveryRunIsChained(run, acts, workload, subject, i - 1);
      assert StepAt(run, acts, workload, subject, i - 1) && !SplitsAt(run, acts, i - 1);
      var a := acts[i - 1];
      match a
      case Allow(_, _) =>
      case Attempted(w) => WriteMirrorsIff(run[i - 1], workload, subject, w);
      case Elsewhere(work, key, row) => StepsSnoc(run[i - 1].log, Journal.Entry(work, key, row), subject);
    }
  }

  ghost predicate MirrorsAt<S>(run: seq<Pair<S>>, subject: nat, i: nat)
    requires i < |run|
  {
    Mirrors(run[i].machine, run[i].log, subject)
  }

  /** And in no other run: the first split leaves a move the journal never saw. */
  lemma JournalReplaysIff<S>(run: seq<Pair<S>>, acts: seq<Action<S>>, workload: nat, subject: nat)
    requires IsRun(run, acts, workload, subject)
    ensures (forall i :: 0 <= i < |run| ==> MirrorsAt(run, subject, i)) <==> NeverSplits(run, acts)
  {
    if NeverSplits(run, acts) {
      forall i | 0 <= i < |run| ensures MirrorsAt(run, subject, i) {
        JournalReplays(run, acts, workload, subject, i);
      }
    }
    if forall i :: 0 <= i < |run| ==> MirrorsAt(run, subject, i) {
      forall i | 0 <= i < |acts| ensures !SplitsAt(run, acts, i) {
        assert StepAt(run, acts, workload, subject, i) && MirrorsAt(run, subject, i) && MirrorsAt(run, subject, i + 1);
        EveryRunIsChained(run, acts, workload, subject, i);
        if acts[i].Attempted? {
          WriteMirrorsIff(run[i], workload, subject, acts[i].write);
        }
      }
    }
  }

  /** The transitions allowed are those the machine began with and those added since. */
  lemma {:induction false} AllowedIff<S>(run: seq<Pair<S>>, acts: seq<Action<S>>, workload: nat, subject: nat, i: nat, from: S, to: S)
    requires IsRun(run, acts, workload, subject) && i < |run|
    ensures (from, to) in run[i].machine.transitions <==> (from, to) in run[0].machine.transitions || Action.Allow(from, to) in acts[..i]
  {
    if i > 0 {
      AllowedIff(run, acts, workload, subject, i - 1, from, to);
      assert StepAt(run, acts, workload, subject, i - 1);
      assert acts[..i] == acts[..i - 1] + [acts[i - 1]];
    }
  }

  // ---------------------------------------------------------------------------
  // The machine object
  // ---------------------------------------------------------------------------

  class CasMachine<S(==)> {
    ghost const initial: S
    var current: S
    var transitions: set<(S, S)>
    var history: seq<Step<S>>
    var generation: nat
    var token: nat

    ghost function View(): Machine<S>
      reads this
    {
      Machine(initial, current, transitions, history, generation, token)
    }

    ghost predicate Valid()
      reads this
    {
      Chained(View())
    }

    constructor (start: S, token: nat)
      ensures Valid() && View() == Machine(start, start, {}, [], 1, token)
    {
      initial, current, transitions, history, generation, this.token := start, start, {}, [], 1, token;
    }

    method AllowTransition(from: S, to: S)
      requires Valid()
      modifies this`transitions
      ensures Valid() && View() == old(View()).(transitions := old(transitions) + {(from, to)})
    {
      transitions := transitions + {(from, to)};
    }

    /** Makes the move. */
    method Move(a: Attempt<S>) returns (record: Step<S>)
      modifies this
      ensures View() == Moved(old(View()), a) && record == history[|history| - 1]
    {
      record := Step(current, a.to, generation + 1, a.token);
      current, generation, token := a.to, generation + 1, a.token;
      history := history + [record];
    }

    /** Undoes the last move. */
    method RollBack(ghost before: Machine<S>, ghost a: Attempt<S>, from: S, generation: nat, token: nat)
      requires View() == Moved(before, a) && before.current == from && before.generation == generation && before.token == token
      modifies this
      ensures View() == before
    {
      current, this.generation, this.token := from, generation, token;
      history := history[..|history| - 1];
    }

    /** Runs the hooks in turn until one fails. */
    static method RunHooks(hooks: seq<bool>) returns (passed: bool)
      ensures passed <==> forall i :: 0 <= i < |hooks| ==> hooks[i]
    {
      for i := 0 to |hooks|
        invariant forall j :: 0 <= j < i ==> hooks[j]
      {
        if !hooks[i] {
          return false;
        }
      }
      passed := true;
    }

    /** All checks and hooks pass and the move is made, or every field is as before. */
    method Transition(a: Attempt<S>) returns (r: Result<Step<S>, Error>)
      requires Valid()
      modifies this
      ensures Valid() && View() == After(old(View()), a)
      ensures r.Ok? <==> Succeeds(old(View()), a)
      ensures r.Ok? ==> r.value == history[|history| - 1]
      ensures r == Err(WorkloadConflict) <==> a.expected != old(generation)
      ensures r == Err(FailedPrecondition) <==> a.expected == old(generation) && !Allowed(old(View()), a.to)
      ensures r.Err? ==> r.error in {WorkloadConflict, FailedPrecondition, HookError}
    {
      AfterKeepsChain(View(), a);
      var from := current;
      if a.expected != generation {
        return Err(WorkloadConflict);
      }
      if from != a.to && (from, a.to) !in transitions {
        return Err(FailedPrecondition);
      }
      var ready := RunHooks(a.before);
      if !ready {
        return Err(HookError);
      }
      var previousGeneration, previousToken := generation, token;
      var record := Move(a);
      var accepted := RunHooks(a.after);
      if !accepted {
        RollBack(old(View()), a, from, previousGeneration, previousToken);
        return Err(HookError);
      }
      r := Ok(record);
    }

    /** Journals a successful transition; a failed append takes the move back. */
    method TransitionWithJournal(w: Write<S>, journal: Journal.Table<nat, Row<S>>, workload: nat, subject: nat) returns (r: Result<Step<S>, Error>)
      requires Valid() && journal.Valid()
      modifies this, journal
      ensures Valid() && journal.Valid()
      ensures Pair(View(), journal.Log()) == AfterWrite(Pair(old(View()), old(journal.Log())), workload, subject, w)
      ensures r.Ok? ==> View() == Moved(old(View()), w.attempt)
      ensures r.Err? && r.error != SerializationError ==> View() == old(View()) && journal.Log() == old(journal.Log())
      ensures r == Err(SerializationError) <==> Succeeds(old(View()), w.attempt) && !w.serializes
    {
      var from, previousGeneration, previousToken := current, generation, token;
      r := Transition(w.attempt);
      if r.Err? {
        return;
      }
      if !w.serializes {
        return Err(SerializationError);
      }
      var appended := journal.Append(Journal.Entry(workload, w.key, Row.Transition(subject, r.value)), w.stored);
      if appended.Err? {
        RollBack(old(View()), w.attempt, from, previousGeneration, previousToken);
        return Err(JournalError);
      }
    }
  }
}
