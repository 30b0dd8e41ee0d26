/**
 Laying steps out as chains of node ids: edges along each chain, and from the
 last node of a dependency to the first node of the dependent step. `chains[i]`
 is the chain of `plan[i]`; how ids are spelled plays no part here.
 */
module Segments {
  import opened Graphs
  import opened Kahn
  import opened Steps

  ghost predicate Fits(plan: seq<Step>, chains: seq<seq<string>>) {
    |plan| == |chains| && forall i :: 0 <= i < |chains| ==> |chains[i]| > 0
  }

  function End(chain: seq<string>): string
    requires |chain| > 0
  {
    chain[|chain| - 1]
  }

  function ChainEdges(ids: seq<string>): Edges<string>
    requires |ids| > 0
  {
    seq(|ids| - 1, i requires 0 <= i < |ids| - 1 => (ids[i], ids[i + 1]))
  }

  /** Edges from the last nodes of known dependencies to `first`. */
  function DependencyLinks(lasts: map<string, string>, deps: seq<string>, first: string): Edges<string> {
    if deps == [] then []
    else
      var d := deps[|deps| - 1];
      DependencyLinks(lasts, deps[..|deps| - 1], first) + if d in lasts then [(lasts[d], first)] else []
  }

  ghost function Lasts(plan: seq<Step>, chains: seq<seq<string>>, n: nat): map<string, string>
    requires Fits(plan, chains) && n <= |plan|
  {
    if n == 0 then map[] else Lasts(plan, chains, n - 1)[plan[n - 1].id := End(chains[n - 1])]
  }

  function StepEdges(lasts: map<string, string>, deps: seq<string>, chain: seq<string>): Edges<string>
    requires |chain| > 0
  {
    DependencyLinks(lasts, deps, chain[0]) + ChainEdges(chain)
  }

  /** The edges of the first n steps. */
  ghost function LaidEdges(plan: seq<Step>, chains: seq<seq<string>>, n: nat): Edges<string>
    requires Fits(plan, chains) && n <= |plan|
  {
    if n == 0 then []
    else LaidEdges(plan, chains, n - 1) + StepEdges(Lasts(plan, chains, n - 1), plan[n - 1].dependsOn, chains[n - 1])
  }

  ghost function AllEdges(plan: seq<Step>, chains: seq<seq<string>>): Edges<string>
    requires Fits(plan, chains)
  {
    LaidEdges(plan, chains, |plan|)
  }

  /** The node ids of the first n chains. */
  function LaidIds(chains: seq<seq<string>>, n: nat): seq<string>
    requires n <= |chains|
  {
    if n == 0 then [] else LaidIds(chains, n - 1) + chains[n - 1]
  }

  ghost predicate Disjoint(chains: seq<seq<string>>) {
    && (forall i :: 0 <= i < |chains| ==> NoDup(chains[i]))
    && (forall i, j, x :: 0 <= i < |chains| && 0 <= j < |chains| && x in chains[i] && x in chains[j] ==> i == j)
  }

  // ---------------------------------------------------------------------------
  // Edges by membership
  // ---------------------------------------------------------------------------

  /** Distinct ids, and every dependency names an earlier step. */
  ghost predicate Ordered(plan: seq<Step>) {
    NoDup(Ids(plan)) && forall i {:trigger NamesEarlier(plan, i)} :: 0 <= i < |plan| ==> NamesEarlier(plan, i)
  }

  ghost predicate NamesEarlier(plan: seq<Step>, i: nat)
    requires i < |plan|
  {
    forall d :: d in plan[i].dependsOn ==> d in Ids(plan)[..i]
  }

  ghost predicate ChainHop(chain: seq<string>, x: string, y: string) {
    exists k :: 0 <= k < |chain| - 1 && x == chain[k] && y == chain[k + 1]
  }

  /** Step i depends on step j, and the edge joins their chains. */
  ghost predicate LinkHop(plan: seq<Step>, chains: seq<seq<string>>, j: nat, i: nat, x: string, y: string)
    requires Fits(plan, chains) && i < |plan| && j < |plan|
  {
    plan[j].id in plan[i].dependsOn && x == End(chains[j]) && y == chains[i][0]
  }

  ghost predicate SomeHop(plan: seq<Step>, chains: seq<seq<string>>, i: nat, x: string, y: string)
    requires Fits(plan, chains) && i < |plan|
  {
    ChainHop(chains[i], x, y) || exists j: nat :: j < i && LinkHop(plan, chains, j, i, x, y)
  }

  lemma SameId(plan: seq<Step>, i: nat, j: nat)
    requires Ordered(plan) && i < |plan| && j < |plan| && plan[i].id == plan[j].id
    ensures i == j
  {
    assert Ids(plan)[i] == Ids(plan)[j];
  }

  lemma DependencyIsEarlier(plan: seq<Step>, d: string, i: nat) returns (j: nat)
    requires Ordered(plan) && i < |plan| && d in plan[i].dependsOn
    ensures j < i && plan[j].id == d
  {
    assert NamesEarlier(plan, i);
    j :| j < i && Ids(plan)[..i][j] == d;
  }

  lemma {:induction false} LastsAre(plan: seq<Step>, chains: seq<seq<string>>, n: nat, j: nat)
    requires Fits(plan, chains) && Ordered(plan) && j < n <= |plan|
    ensures plan[j].id in Lasts(plan, chains, n) && Lasts(plan, chains, n)[plan[j].id] == End(chains[j])
  {
    if j < n - 1 {
      LastsAre(plan, chains, n - 1, j);
      if plan[j].id == plan[n - 1].id {
        SameId(plan, j, n - 1);
      }
    }
  }

  lemma {:induction false} LinksAre(lasts: map<string, string>, deps: seq<string>, first: string, e: (string, string))
    ensures e in DependencyLinks(lasts, deps, first) <==> exists d :: d in deps && d in lasts && e == (lasts[d], first)
  {
    if deps != [] {
      var init, last := deps[..|deps| - 1], deps[|deps| - 1];
      LinksAre(lasts, init, first, e);
      assert deps == init + [last];
    }
  }

  lemma ChainEdgesAre(chain: seq<string>, x: string, y: string)
    requires |chain| > 0
    ensures (x, y) in ChainEdges(chain) <==> ChainHop(chain, x, y)
  {
    if k :| 0 <= k < |chain| - 1 && x == chain[k] && y == chain[k + 1] {
      assert ChainEdges(chain)[k] == (x, y);
    }
  }

  lemma StepEdgesAre(plan: seq<Step>, chains: seq<seq<string>>, i: nat, x: string, y: string)
    requires Fits(plan, chains) && Ordered(plan) && i < |plan|
    ensures (x, y) in StepEdges(Lasts(plan, chains, i), plan[i].dependsOn, chains[i]) <==> SomeHop(plan, chains, i, x, y)
  {
    var lasts, deps := Lasts(plan, chains, i), plan[i].dependsOn;
    LinksAre(lasts, deps, chains[i][0], (x, y));
    ChainEdgesAre(chains[i], x, y);
    if d :| d in deps && d in lasts && (x, y) == (lasts[d], chains[i][0]) {
      var j := DependencyIsEarlier(plan, d, i);
      LastsAre(plan, chains, i, j);
      assert LinkHop(plan, chains, j, i, x, y);
    }
    if j: nat :| j < i && LinkHop(plan, chains, j, i, x, y) {
      LastsAre(plan, chains, i, j);
      assert plan[j].id in lasts;
    }
  }

  /** The edges are the chain hops and, per dependency, last node to first node. */
  lemma {:induction false} EdgesAre(plan: seq<Step>, chains: seq<seq<string>>, n: nat, x: string, y: string)
    requires Fits(plan, chains) && Ordered(plan) && n <= |plan|
    ensures (x, y) in LaidEdges(plan, chains, n) <==> exists i: nat :: i < n && SomeHop(plan, chains, i, x, y)
  {
    if n > 0 {
      EdgesAre(plan, chains, n - 1, x, y);
      StepEdgesAre(plan, chains, n - 1, x, y);
    }
  }

  lemma HopIsEdge(plan: seq<Step>, chains: seq<seq<string>>, i: nat, x: string, y: string)
    requires Fits(plan, chains) && Ordered(plan) && i < |plan| && SomeHop(plan, chains, i, x, y)
    ensures Reaches(AllEdges(plan, chains), x, y)
  {
    EdgesAre(plan, chains, |plan|, x, y);
    EdgeReaches(AllEdges(plan, chains), x, y);
  }

  // ---------------------------------------------------------------------------
  // Dependencies are followed by paths
  // ---------------------------------------------------------------------------

  ghost predicate ReachesOrIs(es: Edges<string>, x: string, y: string) {
    x == y || Reaches(es, x, y)
  }

  /** Nodes of different steps reach each other just when their steps depend on each other. */
  ghost predicate Meaning(plan: seq<Step>, chains: seq<seq<string>>)
    requires Fits(plan, chains)
  {
    forall i, j, x, y :: 0 <= i < |plan| && 0 <= j < |plan| && i != j && x in chains[i] && y in chains[j] ==>
      (Reaches(AllEdges(plan, chains), x, y) <==> Reaches(DependencyEdges(plan), plan[i].id, plan[j].id))
  }

  lemma {:induction false} ChainForward(plan: seq<Step>, chains: seq<seq<string>>, i: nat, k: nat, m: nat)
    requires Fits(plan, chains) && Ordered(plan) && i < |plan| && k <= m < |chains[i]|
    ensures ReachesOrIs(AllEdges(plan, chains), chains[i][k], chains[i][m])
    ensures k < m ==> Reaches(AllEdges(plan, chains), chains[i][k], chains[i][m])
    decreases m - k
  {
    if k < m {
      var ids := chains[i];
      ChainForward(plan, chains, i, k, m - 1);
      assert ChainHop(ids, ids[m - 1], ids[m]);
      HopIsEdge(plan, chains, i, ids[m - 1], ids[m]);
      if k < m - 1 {
        ReachesTransitive(AllEdges(plan, chains), ids[k], ids[m - 1], ids[m]);
      }
    }
  }

  lemma Compose(es: Edges<string>, x: string, y: string, z: string)
    requires ReachesOrIs(es, x, y) && ReachesOrIs(es, y, z)
    ensures ReachesOrIs(es, x, z)
    ensures Reaches(es, x, y) || Reaches(es, y, z) ==> Reaches(es, x, z)
  {
    if Reaches(es, x, y) && Reaches(es, y, z) {
      ReachesTransitive(es, x, y, z);
    }
  }

  /** One direct dependency: what gets to the last node of d gets to every node of s. */
  lemma CrossLink(plan: seq<Step>, chains: seq<seq<string>>, x: string, d: nat, s: nat, y: string)
    requires Fits(plan, chains) && Ordered(plan) && d < s < |plan| && plan[d].id in plan[s].dependsOn
    requires ReachesOrIs(AllEdges(plan, chains), x, End(chains[d])) && y in chains[s]
    ensures Reaches(AllEdges(plan, chains), x, y)
  {
    var es := AllEdges(plan, chains);
    var a, b := End(chains[d]), chains[s][0];
    assert LinkHop(plan, chains, d, s, a, b);
    HopIsEdge(plan, chains, s, a, b);
    var k :| 0 <= k < |chains[s]| && chains[s][k] == y;
    ChainForward(plan, chains, s, 0, k);
    Compose(es, x, a, b);
    Compose(es, x, b, y);
  }

  /** A dependency edge joins a step to an earlier step it names. */
  lemma {:induction false} EdgeJoinsSteps(plan: seq<Step>, e: (string, string), j: nat) returns (d: nat)
    requires Ordered(plan) && j < |plan| && e in DependencyEdges(plan) && e.1 == plan[j].id
    ensures d < j && plan[d].id == e.0 && plan[d].id in plan[j].dependsOn
  {
    DependencyEdgesAre(plan, e.0, e.1);
    var s :| 0 <= s < |plan| && plan[s].id == e.1 && DependsDirectly(plan, e.0, s);
    SameId(plan, s, j);
    d := DependencyIsEarlier(plan, e.0, s);
  }

  lemma InChain(plan: seq<Step>, chains: seq<seq<string>>, i: nat, x: string)
    requires Fits(plan, chains) && Ordered(plan) && i < |plan| && x in chains[i]
    ensures ReachesOrIs(AllEdges(plan, chains), x, End(chains[i]))
  {
    var k :| 0 <= k < |chains[i]| && chains[i][k] == x;
    ChainForward(plan, chains, i, k, |chains[i]| - 1);
  }

  lemma {:induction false} DependencyIsFollowed(plan: seq<Step>, chains: seq<seq<string>>, i: nat, j: nat, x: string, y: string, p: seq<string>)
    requires Fits(plan, chains) && Ordered(plan) && i < |plan| && j < |plan| && x in chains[i] && y in chains[j]
    requires |p| > 1 && PathFromTo(DependencyEdges(plan), p, plan[i].id, plan[j].id)
    ensures Reaches(AllEdges(plan, chains), x, y)
    decreases |p|
  {
    var n := |p| - 1;
    assert Hop(DependencyEdges(plan), p, n - 1);
    var d := EdgeJoinsSteps(plan, (p[n - 1], p[n]), j);
    if n == 1 {
      SameId(plan, d, i);
      InChain(plan, chains, i, x);
    } else {
      SubPath(DependencyEdges(plan), p, 0, n - 1);
      DependencyIsFollowed(plan, chains, i, d, x, End(chains[d]), p[0..n]);
    }
    CrossLink(plan, chains, x, d, j, y);
  }

  // ---------------------------------------------------------------------------
  // Paths follow dependencies, when no two chains share an id
  // ---------------------------------------------------------------------------

  /** Where a path from a node of step i can be: in step i, or in a step that depends on it. */
  ghost predicate Downstream(plan: seq<Step>, chains: seq<seq<string>>, i: nat, o: nat, x: string)
    requires Fits(plan, chains) && i < |plan|
  {
    o < |plan| && x in chains[o] && (o == i || Reaches(DependencyEdges(plan), plan[i].id, plan[o].id))
  }

  lemma HopStaysDownstream(plan: seq<Step>, chains: seq<seq<string>>, i: nat, o: nat, x: string, y: string) returns (q: nat)
    requires Fits(plan, chains) && Ordered(plan) && Disjoint(chains) && i < |plan| && Downstream(plan, chains, i, o, x)
    requires (x, y) in AllEdges(plan, chains)
    ensures Downstream(plan, chains, i, q, y)
  {
    EdgesAre(plan, chains, |plan|, x, y);
    q :| q < |plan| && SomeHop(plan, chains, q, x, y);
    if ChainHop(chains[q], x, y) {
      assert q == o;
    } else {
      var j: nat :| j < q && LinkHop(plan, chains, j, q, x, y);
      assert j == o;
      assert DependsDirectly(plan, plan[o].id, q);
      DependencyEdgesAre(plan, plan[o].id, plan[q].id);
      EdgeReaches(DependencyEdges(plan), plan[o].id, plan[q].id);
      if o != i {
        ReachesTransitive(DependencyEdges(plan), plan[i].id, plan[o].id, plan[q].id);
      }
    }
  }

  lemma {:induction false} PathStaysDownstream(plan: seq<Step>, chains: seq<seq<string>>, i: nat, p: seq<string>, k: nat) returns (o: nat)
    requires Fits(plan, chains) && Ordered(plan) && Disjoint(chains) && i < |plan|
    requires IsPath(AllEdges(plan, chains), p) && p[0] in chains[i] && k < |p|
    ensures Downstream(plan, chains, i, o, p[k])
  {
    if k == 0 {
      o := i;
    } else {
      var q := PathStaysDownstream(plan, chains, i, p, k - 1);
      assert Hop(AllEdges(plan, chains), p, k - 1);
      o := HopStaysDownstream(plan, chains, i, q, p[k - 1], p[k]);
    }
  }

  /** Chains without a common id preserve the meaning of every dependency. */
  lemma DisjointMeaning(plan: seq<Step>, chains: seq<seq<string>>)
    requires Fits(plan, chains) && Ordered(plan) && Disjoint(chains)
    ensures Meaning(plan, chains)
  {
    var es, deps := AllEdges(plan, chains), DependencyEdges(plan);
    forall i, j, x, y | 0 <= i < |plan| && 0 <= j < |plan| && i != j && x in chains[i] && y in chains[j]
      ensures Reaches(es, x, y) <==> Reaches(deps, plan[i].id, plan[j].id)
    {
      if Reaches(es, x, y) {
        var p :| |p| > 1 && PathFromTo(es, p, x, y);
        var o := PathStaysDownstream(plan, chains, i, p, |p| - 1);
        assert o == j;
      }
      if Reaches(deps, plan[i].id, plan[j].id) {
        var p :| |p| > 1 && PathFromTo(deps, p, plan[i].id, plan[j].id);
        DependencyIsFollowed(plan, chains, i, j, x, y, p);
      }
    }
  }

  // ---------------------------------------------------------------------------
  // A shared id breaks the meaning
  // ---------------------------------------------------------------------------

  lemma OrderedIsTopological(plan: seq<Step>)
    requires Ordered(plan)
    ensures Topological(DependencyEdges(plan), Ids(plan))
    ensures Within(Elements(Ids(plan)), DependencyEdges(plan)) && Acyclic(DependencyEdges(plan))
  {
    var es, ids := DependencyEdges(plan), Ids(plan);
    forall k | 0 <= k < |es|
      ensures es[k].0 in ids && es[k].1 in ids
      ensures forall i :: 0 <= i < |ids| && es[k].1 == ids[i] ==> es[k].0 in ids[..i]
    {
      var (d, t) := es[k];
      DependencyEdgesAre(plan, d, t);
      var s :| 0 <= s < |plan| && plan[s].id == t && DependsDirectly(plan, d, s);
      assert ids[s] == t && NamesEarlier(plan, s);
    }
    forall i | 0 <= i < |ids| ensures Preceded(es, ids, i) {}
    OrderedIsAcyclic(Elements(ids), es, ids);
  }

  lemma SharedBreaksMeaning(plan: seq<Step>, chains: seq<seq<string>>, i: nat, j: nat, x: string)
    requires Fits(plan, chains) && Ordered(plan) && i < |plan| && j < |plan| && i != j
    requires |chains[i]| > 1 && x == End(chains[i]) && x in chains[j]
    ensures !Meaning(plan, chains)
  {
    var es, deps := AllEdges(plan, chains), DependencyEdges(plan);
    ChainForward(plan, chains, i, 0, |chains[i]| - 1);
    assert Reaches(es, chains[i][0], x);
    OrderedIsTopological(plan);
    if Meaning(plan, chains) {
      assert chains[i][0] in chains[i] && Reaches(deps, plan[i].id, plan[j].id);
      assert Reaches(es, x, x);
      assert Reaches(deps, plan[j].id, plan[i].id);
      ReachesTransitive(deps, plan[i].id, plan[j].id, plan[i].id);
      assert false;
    }
  }

  // ---------------------------------------------------------------------------
  // Every edge goes forward in the node list
  // ---------------------------------------------------------------------------

  lemma {:induction false} LaidIdsAre(chains: seq<seq<string>>, n: nat, x: string)
    requires n <= |chains|
    ensures x in LaidIds(chains, n) <==> exists i :: 0 <= i < n && x in chains[i]
  {
    if n > 0 {
      LaidIdsAre(chains, n - 1, x);
    }
  }

  lemma {:induction false} LaidOnce(chains: seq<seq<string>>, n: nat)
    requires Disjoint(chains) && n <= |chains|
    ensures NoDup(LaidIds(chains, n))
  {
    if n > 0 {
      LaidOnce(chains, n - 1);
      var chain, before := chains[n - 1], LaidIds(chains, n - 1);
      forall x | x in chain ensures x !in before {
        LaidIdsAre(chains, n - 1, x);
      }
      NoDupConcat(before, chain);
    }
  }

  lemma {:induction false} SharedTwice(chains: seq<seq<string>>, n: nat, i: nat, j: nat, x: string)
    requires i < j < n <= |chains| && x in chains[i] && x in chains[j]
    ensures !NoDup(LaidIds(chains, n))
    decreases n
  {
    var before, ids := LaidIds(chains, n - 1), LaidIds(chains, n);
    if j < n - 1 {
      SharedTwice(chains, n - 1, i, j, x);
      var a, b :| 0 <= a < b < |before| && before[a] == before[b];
      assert ids[a] == ids[b];
    } else {
      LaidIdsAre(chains, n - 1, x);
      var a :| 0 <= a < |before| && before[a] == x;
      var b :| 0 <= b < |chains[n - 1]| && chains[n - 1][b] == x;
      assert ids[a] == ids[|before| + b];
    }
  }

  /** Both ends are listed, the source before every place of the target. */
  ghost predicate Forward(ids: seq<string>, x: string, y: string) {
    x in ids && y in ids && forall i :: 0 <= i < |ids| && ids[i] == y ==> x in ids[..i]
  }

  lemma ForwardGrows(ids: seq<string>, more: seq<string>, x: string, y: string)
    requires Forward(ids, x, y) && y !in more
    ensures Forward(ids + more, x, y)
  {
    forall i | 0 <= i < |ids + more| && (ids + more)[i] == y ensures x in (ids + more)[..i] {
      assert i < |ids| && (ids + more)[..i] == ids[..i];
    }
  }

  lemma NewHopForward(plan: seq<Step>, chains: seq<seq<string>>, n: nat, x: string, y: string)
    requires Fits(plan, chains) && Ordered(plan) && Disjoint(chains) && n < |plan| && SomeHop(plan, chains, n, x, y)
    ensures Forward(LaidIds(chains, n + 1), x, y)
  {
    var before, ids, chain := LaidIds(chains, n), LaidIds(chains, n + 1), chains[n];
    LaidOnce(chains, n + 1);
    if ChainHop(chain, x, y) {
      var m :| 0 <= m < |chain| - 1 && x == chain[m] && y == chain[m + 1];
      var at := |before| + m;
      assert ids[at] == x && ids[at + 1] == y && ids[..at + 1][at] == x;
    } else {
      var j: nat :| j < n && LinkHop(plan, chains, j, n, x, y);
      LaidIdsAre(chains, n, x);
      LaidIdsAre(chains, n, y);
      var h :| 0 <= h < |before| && before[h] == x;
      assert ids[h] == x && ids[|before|] == y;
      forall i | 0 <= i < |ids| && ids[i] == y ensures x in ids[..i] {
        assert i >= |before|;
        assert ids[..i][h] == x;
      }
    }
  }

  lemma {:induction false} AllForward(plan: seq<Step>, chains: seq<seq<string>>, n: nat, k: nat)
    requires Fits(plan, chains) && Ordered(plan) && Disjoint(chains) && n <= |plan| && k < |LaidEdges(plan, chains, n)|
    ensures Forward(LaidIds(chains, n), LaidEdges(plan, chains, n)[k].0, LaidEdges(plan, chains, n)[k].1)
  {
    var before := LaidEdges(plan, chains, n - 1);
    var (x, y) := LaidEdges(plan, chains, n)[k];
    if k < |before| {
      AllForward(plan, chains, n - 1, k);
      LaidIdsAre(chains, n - 1, y);
      ForwardGrows(LaidIds(chains, n - 1), chains[n - 1], x, y);
    } else {
      StepEdgesAre(plan, chains, n - 1, x, y);
      NewHopForward(plan, chains, n - 1, x, y);
    }
  }

  /** With disjoint chains the node list is a topological order, so the graph is acyclic. */
  lemma LaidInOrder(plan: seq<Step>, chains: seq<seq<string>>)
    requires Fits(plan, chains) && Ordered(plan) && Disjoint(chains)
    ensures Topological(AllEdges(plan, chains), LaidIds(chains, |chains|))
    ensures Within(Elements(LaidIds(chains, |chains|)), AllEdges(plan, chains)) && Acyclic(AllEdges(plan, chains))
  {
    var es, ids := AllEdges(plan, chains), LaidIds(chains, |chains|);
    LaidOnce(chains, |chains|);
    forall k | 0 <= k < |es| ensures Forward(ids, es[k].0, es[k].1) {
      AllForward(plan, chains, |plan|, k);
    }
    forall i | 0 <= i < |ids| ensures Preceded(es, ids, i) {}
    OrderedIsAcyclic(Elements(ids), es, ids);
  }
}
