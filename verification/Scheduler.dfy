/** The execution order: the critical path first, then by fan-out and cache reuse. */
module Scheduler {
  import opened Prelude
  import opened Graphs
  import opened Kahn
  import opened Steps
  import opened Lowering
  import opened ParallelGroups
  import opened CriticalPath
  import opened Compiler

  // ---------------------------------------------------------------------------
  // The stable sort
  // ---------------------------------------------------------------------------

  function Key<T>(key: map<T, nat>, x: T): nat {
    if x in key then key[x] else 0
  }

  /** Highest key first. */
  ghost predicate Descending<T>(s: seq<T>, key: map<T, nat>) {
    forall i, j :: 0 <= i < j < |s| ==> Key(key, s[i]) >= Key(key, s[j])
  }

  /** The elements of one key, in order. */
  function Having<T(==)>(s: seq<T>, key: map<T, nat>, v: nat): seq<T> {
    if s == [] then []
    else Having(s[..|s| - 1], key, v) + if Key(key, s[|s| - 1]) == v then [s[|s| - 1]] else []
  }

  /** Ordered by key, and elements of equal key keep their order: a stable sort by descending key. */
  ghost predicate StablySorted<T>(s: seq<T>, t: seq<T>, key: map<T, nat>) {
    Descending(t, key) && multiset(t) == multiset(s) && forall v :: Having(t, key, v) == Having(s, key, v)
  }

  function Insert<T(==)>(t: seq<T>, key: map<T, nat>, x: T): seq<T> {
    if t == [] then [x]
    else if Key(key, t[|t| - 1]) >= Key(key, x) then t + [x]
    else Insert(t[..|t| - 1], key, x) + [t[|t| - 1]]
  }

  lemma {:induction false} InsertAdds<T>(t: seq<T>, key: map<T, nat>, x: T)
    ensures multiset(Insert(t, key, x)) == multiset(t) + multiset{x}
  {
    if t != [] && Key(key, t[|t| - 1]) < Key(key, x) {
      var init, last := t[..|t| - 1], t[|t| - 1];
      assert t == init + [last];
      InsertAdds(init, key, x);
    }
  }

  lemma {:induction false} InsertSorts<T>(t: seq<T>, key: map<T, nat>, x: T)
    requires Descending(t, key)
    ensures Descending(Insert(t, key, x), key)
    ensures forall i :: 0 <= i < |Insert(t, key, x)| ==> Insert(t, key, x)[i] in t || Insert(t, key, x)[i] == x
  {
    if t != [] && Key(key, t[|t| - 1]) < Key(key, x) {
      var init, last := t[..|t| - 1], t[|t| - 1];
      InsertSorts(init, key, x);
      var r := Insert(init, key, x);
      forall i | 0 <= i < |r| ensures Key(key, r[i]) >= Key(key, last) {
        if r[i] in init {
          var k :| 0 <= k < |init| && init[k] == r[i];
          assert t[k] == r[i];
        }
      }
    }
  }

  lemma {:induction false} InsertKeepsOrder<T>(t: seq<T>, key: map<T, nat>, x: T, v: nat)
    ensures Having(Insert(t, key, x), key, v) == Having(t, key, v) + if Key(key, x) == v then [x] else []
  {
    if t == [] {
      assert [x][..0] == [];
    } else {
      var init, last := t[..|t| - 1], t[|t| - 1];
      if Key(key, last) >= Key(key, x) {
        assert (t + [x])[..|t|] == t;
      } else {
        InsertKeepsOrder(init, key, x, v);
        var r := Insert(init, key, x) + [last];
        assert r[..|r| - 1] == Insert(init, key, x);
      }
    }
  }

  method SortByKey<T(==)>(s: seq<T>, key: map<T, nat>) returns (t: seq<T>)
    ensures StablySorted(s, t, key)
  {
    t := [];
    for i := 0 to |s|
      invariant StablySorted(s[..i], t, key)
    {
      assert s[..i + 1] == s[..i] + [s[i]] && s[..i + 1][..i] == s[..i];
      forall v ensures Having(Insert(t, key, s[i]), key, v) == Having(s[..i + 1], key, v) {
        InsertKeepsOrder(t, key, s[i], v);
      }
      InsertAdds(t, key, s[i]);
      InsertSorts(t, key, s[i]);
      t := Insert(t, key, s[i]);
    }
    assert s[..|s|] == s;
  }

  // ---------------------------------------------------------------------------
  // Priorities
  // ---------------------------------------------------------------------------

  method FanOut(es: Edges<string>) returns (fan: map<string, nat>)
    ensures forall x :: |Targets(es, x)| == if x in fan then fan[x] else 0
  {
    fan := map[];
    for k := 0 to |es|
      invariant forall x :: |Targets(es[..k], x)| == if x in fan then fan[x] else 0
    {
      var a := es[k].0;
      assert es[..k + 1] == es[..k] + [es[k]];
      forall x ensures |Targets(es[..k + 1], x)| == |Targets(es[..k], x)| + if a == x then 1 else 0 {
        TargetsSnoc(es[..k], es[k], x);
      }
      fan := fan[a := (if a in fan then fan[a] else 0) + 1];
    }
    assert es[..|es|] == es;
  }

  function Priority(es: Edges<string>, reuse: set<string>, x: string): nat {
    |Targets(es, x)| * 10 + if x in reuse then 1 else 0
  }

  /** The nodes not on the path, in node order. */
  function Others<T(==)>(ids: seq<T>, path: seq<T>): seq<T> {
    if ids == [] then []
    else Others(ids[..|ids| - 1], path) + if ids[|ids| - 1] in path then [] else [ids[|ids| - 1]]
  }

  lemma {:induction false} OthersCount<T>(ids: seq<T>, path: seq<T>, x: T)
    ensures multiset(Others(ids, path))[x] == if x in path then 0 else multiset(ids)[x]
  {
    if ids != [] {
      var init, last := ids[..|ids| - 1], ids[|ids| - 1];
      assert ids == init + [last];
      OthersCount(init, path, x);
    }
  }

  function Priorities(g: ExecutionGraph): map<string, nat> {
    map x | x in Others(NodeIds(g.nodes), g.criticalPath) :: Priority(g.edges, g.cacheReuse, x)
  }

  /** The order starts with the critical path; the rest is everything else, stably sorted by priority. */
  ghost predicate Prioritised(g: ExecutionGraph, order: seq<string>) {
    && g.criticalPath <= order
    && StablySorted(Others(NodeIds(g.nodes), g.criticalPath), order[|g.criticalPath|..], Priorities(g))
  }

  method SortAfter<T(==)>(path: seq<T>, others: seq<T>, key: map<T, nat>) returns (order: seq<T>)
    ensures path <= order && StablySorted(others, order[|path|..], key)
  {
    var rest := SortByKey(others, key);
    order := path + rest;
    assert order[|path|..] == rest;
  }

  method Prioritise(g: ExecutionGraph) returns (order: seq<string>)
    ensures Prioritised(g, order)
  {
    var fan := FanOut(g.edges);
    var others := Others(NodeIds(g.nodes), g.criticalPath);
    var key := map x | x in others :: (if x in fan then fan[x] else 0) * 10 + if x in g.cacheReuse then 1 else 0;
    assert key == Priorities(g) by {
      forall x | x in others ensures key[x] == Priority(g.edges, g.cacheReuse, x) {}
    }
    order := SortAfter(g.criticalPath, others, key);
  }

  /** Every id on the path stands exactly once in the list. */
  ghost predicate ListedOnce<T>(ids: seq<T>, path: seq<T>) {
    forall x :: x in path ==> multiset(ids)[x] == 1
  }

  lemma PathThenSorted<T>(ids: seq<T>, path: seq<T>, rest: seq<T>)
    requires NoDup(path) && multiset(rest) == multiset(Others(ids, path))
    ensures multiset(path + rest) == multiset(ids) <==> ListedOnce(ids, path)
  {
    forall x ensures multiset(path + rest)[x] == if x in path then 1 else multiset(ids)[x] {
      assert multiset(path + rest)[x] == multiset(path)[x] + multiset(rest)[x];
      CountOne(path, x);
      OthersCount(ids, path, x);
    }
    if multiset(path + rest) != multiset(ids) {
      var x :| multiset(path + rest)[x] != multiset(ids)[x];
      assert x in path;
    }
  }

  /** The order lists every node as often as it is compiled exactly when each id on the critical path names one node. */
  lemma PermutationIff(g: ExecutionGraph, order: seq<string>)
    requires NoDup(g.criticalPath) && Prioritised(g, order)
    ensures multiset(order) == multiset(NodeIds(g.nodes)) <==> ListedOnce(NodeIds(g.nodes), g.criticalPath)
  {
    var rest := order[|g.criticalPath|..];
    PathThenSorted(NodeIds(g.nodes), g.criticalPath, rest);
    assert order == g.criticalPath + rest;
  }

  /** With distinct node ids and no cycle that is so exactly when there is a node. */
  lemma ListedOnceIffNodes(g: ExecutionGraph)
    requires Critical(g) && NoDup(NodeIds(g.nodes)) && Acyclic(g.edges)
    ensures ListedOnce(NodeIds(g.nodes), g.criticalPath) <==> g.nodes != []
  {
    if g.nodes == [] {
      assert g.criticalPath[0] in g.criticalPath;
    } else {
      forall x | x in g.criticalPath ensures multiset(NodeIds(g.nodes))[x] == 1 {
        CountOne(NodeIds(g.nodes), x);
        assert x in Elements(NodeIds(g.nodes));
      }
    }
  }

  /**
   The execution order starts with the critical path. It is a permutation of
   the nodes exactly when each id on that path names one node; without a
   collision that means: exactly when there is a step at all.
   */
  method Schedule(c: Settings, steps: seq<Step>) returns (r: Result<(ExecutionGraph, seq<string>), CompileError>, ghost plan: seq<Step>)
    ensures r.Ok? <==> SoundUpTo(steps, |steps|) && NoDup(Ids(steps)) && Acyclic(DependencyEdges(steps))
    ensures r.Ok? ==> Compiled(c, steps, plan, r.value.0) && Critical(r.value.0) && Grouped(r.value.0) && Prioritised(r.value.0, r.value.1)
    ensures r.Ok? ==> (multiset(r.value.1) == multiset(NodeIds(r.value.0.nodes)) <==> ListedOnce(NodeIds(r.value.0.nodes), r.value.0.criticalPath))
    ensures r.Ok? && !HasCollision(c, steps) ==> (multiset(r.value.1) == multiset(NodeIds(r.value.0.nodes)) <==> steps != [])
  {
    var g;
    g, plan := Compile(c, steps);
    if g.Err? {
      return Err(g.error), plan;
    }
    var order := Prioritise(g.value);
    PermutationIff(g.value, order);
    if !HasCollision(c, steps) {
      ListedOnceIffNodes(g.value);
    }
    r := Ok((g.value, order));
  }

  /** The empty program is accepted and scheduled as one nameless node. */
  lemma EmptyProgramSchedulesAGhost(c: Settings, plan: seq<Step>, g: ExecutionGraph, order: seq<string>)
    requires Compiled(c, [], plan, g) && Critical(g) && Prioritised(g, order)
    ensures order == [""] && NodeIds(g.nodes) == []
  {
    var rest := order[|g.criticalPath|..];
    assert Others(NodeIds(g.nodes), g.criticalPath) == [];
    assert |multiset(rest)| == |rest|;
  }
}
