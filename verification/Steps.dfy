/** Agent programs before compilation: validation and the dependency order. */
module Steps {
  import opened Prelude
  import opened Graphs
  import opened Kahn

  datatype StepType = Think | Retrieve | ToolCall | Generate | Verify | Approval | Commit | Compensate

  datatype Step = Step(
    id: string,
    kind: StepType,
    dependsOn: seq<string>,
    duration: nat,
    hasSideEffects: bool,
    reversible: bool,
    requiresVerification: bool,
    strong: bool,
    inputTokens: nat)

  datatype CompileError =
    | MissingDependency(step: string, missing: string)
    | CircularDependency(step: string)
    | CycleInGraph

  function Ids(steps: seq<Step>): seq<string> {
    seq(|steps|, i requires 0 <= i < |steps| => steps[i].id)
  }

  /** Dependency `d` before step `s`, one edge per listed dependency. */
  function EdgesInto(deps: seq<string>, id: string): Edges<string> {
    seq(|deps|, k requires 0 <= k < |deps| => (deps[k], id))
  }

  function DependencyEdges(steps: seq<Step>): Edges<string> {
    if steps == [] then []
    else DependencyEdges(steps[..|steps| - 1]) + EdgesInto(steps[|steps| - 1].dependsOn, steps[|steps| - 1].id)
  }

  ghost predicate DependsDirectly(steps: seq<Step>, d: string, i: nat)
    requires i < |steps|
  {
    d in steps[i].dependsOn
  }

  /** An edge of the dependency graph is a listed dependency of some step, and conversely. */
  lemma {:induction false} DependencyEdgesAre(steps: seq<Step>, d: string, t: string)
    ensures (d, t) in DependencyEdges(steps) <==> exists i :: 0 <= i < |steps| && steps[i].id == t && DependsDirectly(steps, d, i)
  {
    if steps != [] {
      var init, last := steps[..|steps| - 1], steps[|steps| - 1];
      DependencyEdgesAre(init, d, t);
      var es := EdgesInto(last.dependsOn, last.id);
      assert (d, t) in es <==> last.id == t && d in last.dependsOn by {
        if last.id == t && d in last.dependsOn {
          var k :| 0 <= k < |last.dependsOn| && last.dependsOn[k] == d;
          assert es[k] == (d, t);
        }
      }
      forall i | 0 <= i < |init| ensures DependsDirectly(steps, d, i) <==> DependsDirectly(init, d, i) {}
      if i :| 0 <= i < |steps| && steps[i].id == t && DependsDirectly(steps, d, i) {
        if i < |init| {
          assert DependsDirectly(init, d, i);
        }
      }
      if (d, t) in es {
        assert DependsDirectly(steps, d, |init|);
      }
      if i :| 0 <= i < |init| && init[i].id == t && DependsDirectly(init, d, i) {
        assert DependsDirectly(steps, d, i);
      }
    }
  }

  // ---------------------------------------------------------------------------
  // Validation
  // ---------------------------------------------------------------------------

  ghost predicate Sound(steps: seq<Step>, i: nat)
    requires i < |steps|
  {
    steps[i].id !in steps[i].dependsOn && forall k :: 0 <= k < |steps[i].dependsOn| ==> steps[i].dependsOn[k] in Ids(steps)
  }

  ghost predicate SoundUpTo(steps: seq<Step>, n: nat)
    requires n <= |steps|
  {
    forall i :: 0 <= i < n ==> Sound(steps, i)
  }

  /** The fault reported for step i: its first missing dependency, else a dependency on itself. */
  ghost predicate FaultAt(steps: seq<Step>, i: nat, e: CompileError)
    requires i < |steps|
  {
    var s := steps[i];
    match e
    case MissingDependency(step, missing) =>
      && step == s.id && missing !in Ids(steps)
      && (exists k :: 0 <= k < |s.dependsOn| && s.dependsOn[k] == missing && forall m :: 0 <= m < k ==> s.dependsOn[m] in Ids(steps))
    case CircularDependency(step) =>
      step == s.id && s.id in s.dependsOn && forall m :: 0 <= m < |s.dependsOn| ==> s.dependsOn[m] in Ids(steps)
    case CycleInGraph => false
  }

  /** Reports the first faulty step; accepts exactly the programs without one. */
  method Validate(steps: seq<Step>) returns (fault: Option<CompileError>)
    ensures fault.None? <==> SoundUpTo(steps, |steps|)
    ensures fault.Some? ==> exists i: nat :: i < |steps| && SoundUpTo(steps, i) && FaultAt(steps, i, fault.value)
  {
    var ids := Ids(steps);
    for i := 0 to |steps|
      invariant SoundUpTo(steps, i)
    {
      var s := steps[i];
      for k := 0 to |s.dependsOn|
        invariant forall m :: 0 <= m < k ==> s.dependsOn[m] in ids
      {
        if s.dependsOn[k] !in ids {
          fault := Some(MissingDependency(s.id, s.dependsOn[k]));
          assert !Sound(steps, i) && FaultAt(steps, i, fault.value);
          return;
        }
      }
      if s.id in s.dependsOn {
        fault := Some(CircularDependency(s.id));
        assert !Sound(steps, i) && FaultAt(steps, i, fault.value);
        return;
      }
    }
    fault := None;
  }

  lemma {:induction false} SoundIsWithin(steps: seq<Step>, n: nat)
    requires n <= |steps| && SoundUpTo(steps, |steps|)
    ensures Within(Elements(Ids(steps)), DependencyEdges(steps[..n]))
  {
    if n > 0 {
      SoundIsWithin(steps, n - 1);
      assert steps[..n][..n - 1] == steps[..n - 1];
      assert Sound(steps, n - 1);
      assert Ids(steps)[n - 1] == steps[n - 1].id;
    }
  }

  // ---------------------------------------------------------------------------
  // The dependency order
  // ---------------------------------------------------------------------------

  lemma SamePermutation<T>(s: seq<T>, t: seq<T>)
    requires NoDup(s) && NoDup(t) && Elements(s) == Elements(t)
    ensures multiset(s) == multiset(t)
  {
    forall x ensures multiset(s)[x] == multiset(t)[x] {
      CountOne(s, x);
      CountOne(t, x);
      assert x in s <==> x in Elements(s);
      assert x in t <==> x in Elements(t);
    }
  }

  lemma {:induction false} CountOne<T>(s: seq<T>, x: T)
    requires NoDup(s)
    ensures multiset(s)[x] == if x in s then 1 else 0
  {
    if s != [] {
      var init := s[..|s| - 1];
      assert s == init + [s[|s| - 1]];
      CountOne(init, x);
    }
  }

  lemma DistinctIdsCount(ids: seq<string>)
    ensures |Elements(ids)| <= |ids|
    ensures |Elements(ids)| == |ids| <==> NoDup(ids)
  {
    ElementsBound(ids);
    if NoDup(ids) {
      CountDistinct(ids);
    } else {
      var i, j :| 0 <= i < j < |ids| && ids[i] == ids[j];
      var rest := ids[..j] + ids[j + 1..];
      assert Elements(rest) == Elements(ids) by {
        forall x | x in ids ensures x in rest {
          var k :| 0 <= k < |ids| && ids[k] == x;
          if k < j {
            assert rest[k] == x;
          } else if k == j {
            assert rest[i] == x;
          } else {
            assert rest[k - 1] == x;
          }
        }
        forall x | x in rest ensures x in ids {
          var k :| 0 <= k < |rest| && rest[k] == x;
          assert x == if k < j then ids[k] else ids[k + 1];
        }
      }
      ElementsBound(rest);
    }
  }

  lemma {:induction false} ElementsBound(ids: seq<string>)
    ensures |Elements(ids)| <= |ids|
  {
    if ids != [] {
      ElementsBound(ids[..|ids| - 1]);
      assert Elements(ids) == Elements(ids[..|ids| - 1]) + {ids[|ids| - 1]};
    }
  }

  /**
   On validated steps: succeeds exactly when ids are distinct and dependencies
   acyclic, and then lists every step once with each dependency first.
   */
  method TopologicalSort(steps: seq<Step>) returns (r: Result<seq<string>, CompileError>)
    requires SoundUpTo(steps, |steps|)
    ensures r.Ok? <==> NoDup(Ids(steps)) && Acyclic(DependencyEdges(steps))
    ensures r.Ok? ==> Topological(DependencyEdges(steps), r.value) && multiset(r.value) == multiset(Ids(steps))
    ensures r.Err? ==> r.error == CycleInGraph
  {
    var es: Edges<string> := [];
    var nodes: set<string> := {};
    for i := 0 to |steps|
      invariant es == DependencyEdges(steps[..i]) && nodes == Elements(Ids(steps[..i]))
    {
      var s := steps[i];
      nodes := nodes + {s.id};
      for k := 0 to |s.dependsOn|
        invariant es == DependencyEdges(steps[..i]) + EdgesInto(s.dependsOn, s.id)[..k]
      {
        es := es + [(s.dependsOn[k], s.id)];
        assert EdgesInto(s.dependsOn, s.id)[..k + 1] == EdgesInto(s.dependsOn, s.id)[..k] + [(s.dependsOn[k], s.id)];
      }
      assert steps[..i + 1][..i] == steps[..i];
      assert Ids(steps[..i + 1]) == Ids(steps[..i]) + [s.id];
    }
    assert steps[..|steps|] == steps;
    SoundIsWithin(steps, |steps|);
    var sorted := Sort(nodes, es);
    DistinctIdsCount(Ids(steps));
    LengthCountsElements(sorted, nodes);
    ElementsSubset(sorted, nodes);
    if |sorted| != |steps| {
      return Err(CycleInGraph);
    }
    SamePermutation(sorted, Ids(steps));
    return Ok(sorted);
  }

  lemma ElementsSubset<T>(s: seq<T>, nodes: set<T>)
    requires NoDup(s) && Elements(s) <= nodes
    ensures |s| <= |nodes|
  {
    CountDistinct(s);
    assert nodes == Elements(s) + (nodes - Elements(s));
  }
}
