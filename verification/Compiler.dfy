/** Compiling an agent program: validation, order, lowering and the passes over the graph. */
module Compiler {
  import opened Prelude
  import opened Graphs
  import opened Kahn
  import opened Steps
  import opened Segments
  import opened Lowering
  import opened ParallelGroups
  import opened CriticalPath

  datatype ExecutionGraph = ExecutionGraph(
    nodes: seq<PhaseNode>,
    edges: Edges<string>,
    criticalPath: seq<string>,
    parallelGroups: seq<seq<string>>,
    cacheReuse: set<string>,
    duration: nat)

  // ---------------------------------------------------------------------------
  // The plan: the steps in dependency order
  // ---------------------------------------------------------------------------

  /** Both lists hold the same steps, none twice. */
  ghost predicate SameSteps(steps: seq<Step>, plan: seq<Step>) {
    && NoDup(Ids(steps)) && NoDup(Ids(plan)) && Elements(steps) == Elements(plan)
  }

  method Find(steps: seq<Step>, id: string) returns (s: Step)
    requires id in Ids(steps)
    ensures s in steps && s.id == id
  {
    var i := 0;
    while steps[i].id != id
      invariant i < |steps| && id !in Ids(steps)[..i]
      decreases |steps| - i
    {
      i := i + 1;
      assert i < |steps| by {
        assert Ids(steps)[..|steps|] == Ids(steps);
      }
    }
    s := steps[i];
  }

  method Arrange(steps: seq<Step>, order: seq<string>) returns (plan: seq<Step>)
    requires NoDup(Ids(steps)) && Topological(DependencyEdges(steps), order) && Elements(order) == Elements(Ids(steps))
    ensures SameSteps(steps, plan) && Ordered(plan)
  {
    plan := [];
    for k := 0 to |order|
      invariant Ids(plan) == order[..k] && forall i :: 0 <= i < |plan| ==> plan[i] in steps
    {
      assert order[k] in Elements(order);
      var s := Find(steps, order[k]);
      plan := plan + [s];
    }
    assert order[..|order|] == order;
    ArrangedIsOrdered(steps, plan);
  }

  lemma ArrangedIsOrdered(steps: seq<Step>, plan: seq<Step>)
    requires NoDup(Ids(steps)) && Topological(DependencyEdges(steps), Ids(plan)) && Elements(Ids(plan)) == Elements(Ids(steps))
    requires forall i :: 0 <= i < |plan| ==> plan[i] in steps
    ensures SameSteps(steps, plan) && Ordered(plan)
  {
    var es := DependencyEdges(steps);
    forall i | 0 <= i < |plan| ensures NamesEarlier(plan, i) {
      forall d | d in plan[i].dependsOn ensures d in Ids(plan)[..i] {
        var k :| 0 <= k < |steps| && steps[k] == plan[i];
        assert DependsDirectly(steps, d, k);
        DependencyEdgesAre(steps, d, plan[i].id);
        var m :| 0 <= m < |es| && es[m] == (d, plan[i].id);
        assert Preceded(es, Ids(plan), i);
      }
    }
    forall s | s in steps ensures s in plan {
      var k :| 0 <= k < |steps| && steps[k] == s;
      assert Ids(steps)[k] in Elements(Ids(steps));
      assert s.id in Elements(Ids(plan));
      var i :| 0 <= i < |plan| && Ids(plan)[i] == s.id;
      var m :| 0 <= m < |steps| && steps[m] == plan[i];
      assert Ids(steps)[m] == Ids(steps)[k];
    }
    forall s ensures s in Elements(steps) <==> s in Elements(plan) {}
  }

  // ---------------------------------------------------------------------------
  // Dependency meaning, in terms of the steps as given
  // ---------------------------------------------------------------------------

  lemma {:induction false} ReachesMore(es: Edges<string>, fs: Edges<string>, a: string, b: string)
    requires (forall e :: e in es ==> e in fs) && Reaches(es, a, b)
    ensures Reaches(fs, a, b)
  {
    var p :| |p| > 1 && PathFromTo(es, p, a, b);
    forall i | 0 <= i < |p| - 1 ensures Hop(fs, p, i) {
      assert Hop(es, p, i);
    }
    assert PathFromTo(fs, p, a, b);
  }

  lemma SameDependencies(steps: seq<Step>, plan: seq<Step>, e: (string, string))
    requires SameSteps(steps, plan) && e in DependencyEdges(steps)
    ensures e in DependencyEdges(plan)
  {
    DependencyEdgesAre(steps, e.0, e.1);
    DependencyEdgesAre(plan, e.0, e.1);
    var i :| 0 <= i < |steps| && steps[i].id == e.1 && DependsDirectly(steps, e.0, i);
    assert steps[i] in Elements(plan);
    var j :| 0 <= j < |plan| && plan[j] == steps[i];
    assert DependsDirectly(plan, e.0, j);
  }

  lemma SameReach(steps: seq<Step>, plan: seq<Step>, a: string, b: string)
    requires SameSteps(steps, plan)
    ensures Reaches(DependencyEdges(steps), a, b) <==> Reaches(DependencyEdges(plan), a, b)
  {
    forall e | e in DependencyEdges(steps) ensures e in DependencyEdges(plan) {
      SameDependencies(steps, plan, e);
    }
    forall e | e in DependencyEdges(plan) ensures e in DependencyEdges(steps) {
      SameDependencies(plan, steps, e);
    }
    if Reaches(DependencyEdges(steps), a, b) {
      ReachesMore(DependencyEdges(steps), DependencyEdges(plan), a, b);
    }
    if Reaches(DependencyEdges(plan), a, b) {
      ReachesMore(DependencyEdges(plan), DependencyEdges(steps), a, b);
    }
  }

  /** A phase node of s reaches one of a different step t just when t transitively depends on s. */
  ghost predicate Faithful(c: Settings, steps: seq<Step>, edges: Edges<string>) {
    forall s, t, x, y :: s in steps && t in steps && s.id != t.id && x in Chain(c, s) && y in Chain(c, t) ==>
      (Reaches(edges, x, y) <==> Reaches(DependencyEdges(steps), s.id, t.id))
  }

  lemma MeaningIsFaithful(c: Settings, steps: seq<Step>, plan: seq<Step>)
    requires SameSteps(steps, plan)
    ensures Meaning(plan, Chains(c, plan)) <==> Faithful(c, steps, LoweredEdges(c, plan))
  {
    var chains, es := Chains(c, plan), LoweredEdges(c, plan);
    if Meaning(plan, chains) {
      forall s, t, x, y | s in steps && t in steps && s.id != t.id && x in Chain(c, s) && y in Chain(c, t)
        ensures Reaches(es, x, y) <==> Reaches(DependencyEdges(steps), s.id, t.id)
      {
        assert s in Elements(plan) && t in Elements(plan);
        var i :| 0 <= i < |plan| && plan[i] == s;
        var j :| 0 <= j < |plan| && plan[j] == t;
        assert x in chains[i] && y in chains[j];
        SameReach(steps, plan, s.id, t.id);
      }
    }
    if Faithful(c, steps, es) {
      forall i, j, x, y | 0 <= i < |plan| && 0 <= j < |plan| && i != j && x in chains[i] && y in chains[j]
        ensures Reaches(es, x, y) <==> Reaches(DependencyEdges(plan), plan[i].id, plan[j].id)
      {
        assert plan[i] in Elements(steps) && plan[j] in Elements(steps);
        assert Ids(plan)[i] != Ids(plan)[j];
        SameReach(steps, plan, plan[i].id, plan[j].id);
      }
    }
  }

  lemma SameCollisions(c: Settings, steps: seq<Step>, plan: seq<Step>)
    requires SameSteps(steps, plan) && HasCollision(c, steps)
    ensures HasCollision(c, plan)
  {
    var i, j :| 0 <= i < |steps| && 0 <= j < |steps| && Collides(c, steps[i], steps[j]);
    assert steps[i] in Elements(plan) && steps[j] in Elements(plan);
    var k :| 0 <= k < |plan| && plan[k] == steps[i];
    var m :| 0 <= m < |plan| && plan[m] == steps[j];
    assert Collides(c, plan[k], plan[m]);
  }

  // ---------------------------------------------------------------------------
  // Passes over the graph
  // ---------------------------------------------------------------------------

  /** Each id's duration is that of the first node so named. */
  function Durations(nodes: seq<PhaseNode>): map<string, nat> {
    if nodes == [] then map[]
    else
      var init, last := Durations(nodes[..|nodes| - 1]), nodes[|nodes| - 1];
      if last.id in init then init else init[last.id := last.duration]
  }

  lemma {:induction false} DurationsAre(nodes: seq<PhaseNode>, i: nat)
    requires i < |nodes| && nodes[i].id !in NodeIds(nodes)[..i]
    ensures nodes[i].id in Durations(nodes) && Durations(nodes)[nodes[i].id] == nodes[i].duration
  {
    var n := |nodes| - 1;
    if i < n {
      assert NodeIds(nodes[..n])[..i] == NodeIds(nodes)[..i];
      DurationsAre(nodes[..n], i);
    } else {
      DurationKeys(nodes[..n]);
      assert NodeIds(nodes)[..n] == NodeIds(nodes[..n]);
    }
  }

  lemma {:induction false} DurationKeys(nodes: seq<PhaseNode>)
    ensures Durations(nodes).Keys == Elements(NodeIds(nodes))
  {
    if nodes != [] {
      var n := |nodes| - 1;
      DurationKeys(nodes[..n]);
      assert NodeIds(nodes) == NodeIds(nodes[..n]) + [nodes[n].id];
    }
  }

  predicate Similar(s: Step, t: Step) {
    var gap := if s.inputTokens < t.inputTokens then t.inputTokens - s.inputTokens else s.inputTokens - t.inputTokens;
    s.strong == t.strong && gap < s.inputTokens / 2
  }

  /** The same model, and inputs that differ by less than half of the earlier one's. */
  ghost predicate Alike(s: Step, t: Step) {
    s.strong == t.strong && 2 * (t.inputTokens - s.inputTokens + 1) <= s.inputTokens && 2 * (s.inputTokens - t.inputTokens + 1) <= s.inputTokens
  }

  /** x is the generate node of a step that an earlier step resembles. */
  ghost predicate Resembles(steps: seq<Step>, ids: seq<string>, x: string) {
    x in ids && exists i, j :: 0 <= i < j < |steps| && Alike(steps[i], steps[j]) && x == steps[j].id + "-generate"
  }

  /** The same, as far as the double loop has come. */
  ghost predicate Reusable(steps: seq<Step>, ids: seq<string>, x: string, n: nat, m: nat) {
    x in ids && exists i, j :: 0 <= i < j < |steps| && (i < n || (i == n && j < m)) && Alike(steps[i], steps[j]) && x == steps[j].id + "-generate"
  }

  /** A generate node is marked when an earlier step resembles its own. */
  method DetectCacheReuse(steps: seq<Step>, ids: seq<string>) returns (reuse: set<string>)
    ensures forall x :: x in reuse <==> Resembles(steps, ids, x)
  {
    reuse := {};
    for i := 0 to |steps|
      invariant forall x :: x in reuse <==> Reusable(steps, ids, x, i, 0)
    {
      for j := i + 1 to |steps|
        invariant forall x :: x in reuse <==> Reusable(steps, ids, x, i, j)
      {
        var id := steps[j].id + "-generate";
        if Similar(steps[i], steps[j]) && id in ids {
          reuse := reuse + {id};
        }
      }
    }
    assert forall x :: Reusable(steps, ids, x, |steps|, 0) <==> Resembles(steps, ids, x);
  }

  lemma {:induction false} EndsAreListed(plan: seq<Step>, chains: seq<seq<string>>)
    requires Fits(plan, chains) && Ordered(plan)
    ensures Within(Elements(LaidIds(chains, |chains|)), AllEdges(plan, chains))
  {
    var es, ids := AllEdges(plan, chains), LaidIds(chains, |chains|);
    forall k | 0 <= k < |es| ensures es[k].0 in ids && es[k].1 in ids {
      var (x, y) := es[k];
      EdgesAre(plan, chains, |plan|, x, y);
      var i: nat :| i < |plan| && SomeHop(plan, chains, i, x, y);
      LaidIdsAre(chains, |chains|, x);
      LaidIdsAre(chains, |chains|, y);
    }
  }

  lemma NodesAreListed(c: Settings, plan: seq<Step>)
    requires Ordered(plan)
    ensures Within(Elements(NodeIds(LoweredNodes(c, plan))), LoweredEdges(c, plan))
    ensures LoweredNodes(c, plan) == [] <==> plan == []
  {
    NodeIdsAre(c, plan);
    EndsAreListed(plan, Chains(c, plan));
    if plan != [] {
      assert |LaidIds(Chains(c, plan), |plan|)| >= |Chains(c, plan)[|plan| - 1]| > 0;
    }
  }

  // ---------------------------------------------------------------------------
  // Compile
  // ---------------------------------------------------------------------------

  /** What holds of every compiled graph, given the plan it was lowered from. */
  ghost predicate Compiled(c: Settings, steps: seq<Step>, plan: seq<Step>, g: ExecutionGraph) {
    && SameSteps(steps, plan) && Ordered(plan)
    && g.nodes == LoweredNodes(c, plan) && g.edges == LoweredEdges(c, plan) && PhasesLaid(c, plan, g.nodes, g.edges)
    && (Faithful(c, steps, g.edges) <==> !HasCollision(c, steps))
    && (NoDup(NodeIds(g.nodes)) <==> !HasCollision(c, steps))
    && Within(Elements(NodeIds(g.nodes)), g.edges)
    && (g.nodes == [] <==> steps == [])
    && (!HasCollision(c, steps) ==> Topological(g.edges, NodeIds(g.nodes)) && Acyclic(g.edges))
    && (forall x :: x in g.cacheReuse <==> Resembles(steps, NodeIds(g.nodes), x))
  }

  lemma LoweredIsCompiled(c: Settings, steps: seq<Step>, plan: seq<Step>, g: ExecutionGraph)
    requires SameSteps(steps, plan) && Ordered(plan) && g.nodes == LoweredNodes(c, plan) && g.edges == LoweredEdges(c, plan)
    requires forall x :: x in g.cacheReuse <==> Resembles(steps, NodeIds(g.nodes), x)
    ensures Compiled(c, steps, plan, g)
  {
    LoweredIsLaid(c, plan);
    MeaningIffNoCollision(c, plan);
    MeaningIsFaithful(c, steps, plan);
    if HasCollision(c, steps) {
      SameCollisions(c, steps, plan);
    } else if HasCollision(c, plan) {
      SameCollisions(c, plan, steps);
    }
    NodeIdsDistinct(c, plan);
    NodesAreListed(c, plan);
    if steps != [] {
      assert steps[0] in Elements(plan);
    }
    if plan != [] {
      assert plan[0] in Elements(steps);
    }
    if !HasCollision(c, plan) {
      NodeListInOrder(c, plan);
    }
  }

  /** The critical path weighs at least as much as any path, and its weight is the estimate. */
  ghost predicate Critical(g: ExecutionGraph) {
    && g.duration == Estimate(Durations(g.nodes), g.criticalPath) && NoDup(g.criticalPath)
    && (g.criticalPath == [""] || (IsPath(g.edges, g.criticalPath) && Elements(g.criticalPath) <= Elements(NodeIds(g.nodes))))
    && (|g.criticalPath| > 1 ==> Time(Durations(g.nodes), g.criticalPath[0]) > 0) && (g.nodes == [] ==> g.criticalPath == [""])
    && (g.nodes != [] && Acyclic(g.edges) ==>
          && IsPath(g.edges, g.criticalPath) && Elements(g.criticalPath) <= Elements(NodeIds(g.nodes))
          && forall p :: IsPath(g.edges, p) && Elements(p) <= Elements(NodeIds(g.nodes)) ==> Estimate(Durations(g.nodes), p) <= g.duration)
  }

  /** Each node stands in the group numbered by the longest path into it; all do when the graph is acyclic. */
  ghost predicate Grouped(g: ExecutionGraph) {
    && NoDup(Flat(g.parallelGroups)) && Depths(g.edges, g.parallelGroups)
    && (Elements(Flat(g.parallelGroups)) == Elements(NodeIds(g.nodes)) <==> Acyclic(g.edges))
  }

  /**
   Compiles exactly the programs whose dependencies exist, whose ids are
   distinct and which have no cycle; the first faulty step is reported.
   */
  method Compile(c: Settings, steps: seq<Step>) returns (r: Result<ExecutionGraph, CompileError>, ghost plan: seq<Step>)
    ensures r.Ok? <==> SoundUpTo(steps, |steps|) && NoDup(Ids(steps)) && Acyclic(DependencyEdges(steps))
    ensures r.Err? ==> r.error == CycleInGraph || exists i: nat :: i < |steps| && SoundUpTo(steps, i) && FaultAt(steps, i, r.error)
    ensures r.Ok? ==> Compiled(c, steps, plan, r.value) && Critical(r.value) && Grouped(r.value)
  {
    plan := [];
    var fault := Validate(steps);
    if fault.Some? {
      return Err(fault.value), plan;
    }
    var order := TopologicalSort(steps);
    if order.Err? {
      return Err(order.error), plan;
    }
    assert Elements(order.value) == Elements(Ids(steps)) by {
      forall x ensures x in order.value <==> x in Ids(steps) {
        assert x in multiset(order.value) <==> x in multiset(Ids(steps));
      }
    }
    var arranged := Arrange(steps, order.value);
    plan := arranged;
    var nodes, edges := Lower(c, arranged);
    NodesAreListed(c, arranged);
    var ids := NodeIds(nodes);
    var groups := FindParallelGroups(Elements(ids), edges);
    var path := ComputeCriticalPath(Elements(ids), edges, Durations(nodes), "");
    var reuse := DetectCacheReuse(steps, ids);
    var g := ExecutionGraph(nodes, edges, path, groups, reuse, Estimate(Durations(nodes), path));
    LoweredIsCompiled(c, steps, arranged, g);
    assert nodes != [] ==> ids[0] in Elements(ids);
    r := Ok(g);
  }
}
