/** Wave fronts: rounds of nodes whose remaining dependencies have all run. */
module ParallelGroups {
  import opened Graphs
  import opened Kahn

  function Flat<T>(groups: seq<seq<T>>): seq<T> {
    if groups == [] then [] else Flat(groups[..|groups| - 1]) + groups[|groups| - 1]
  }

  ghost predicate EndsAt<T>(es: Edges<T>, p: seq<T>, b: T) {
    IsPath(es, p) && p[|p| - 1] == b
  }

  /** The longest path ending at `b` has exactly g edges. */
  ghost predicate Depth<T(!new)>(es: Edges<T>, b: T, g: nat) {
    && (exists p :: EndsAt(es, p, b) && |p| == g + 1)
    && (forall p :: EndsAt(es, p, b) ==> |p| <= g + 1)
  }

  ghost predicate Depths<T(!new)>(es: Edges<T>, groups: seq<seq<T>>) {
    forall g: nat, b :: g < |groups| && b in groups[g] ==> Depth(es, b, g)
  }

  /** Counts hold the unfinished incoming edges of the unfinished nodes. */
  ghost predicate Counts<T(!new)>(nodes: set<T>, es: Edges<T>, done: set<T>, remaining: map<T, nat>) {
    remaining.Keys == nodes - done && forall b :: b in remaining ==> remaining[b] == InCount(es, b, done)
  }

  /** What was not ready a round ago still waits for a node outside the rounds before that. */
  ghost predicate Waited<T(!new)>(es: Edges<T>, groups: seq<seq<T>>, remaining: map<T, nat>) {
    |groups| > 0 ==> forall b :: b in remaining ==> InCount(es, b, Elements(Flat(groups[..|groups| - 1]))) > 0
  }

  /** Appending an edge to a path. */
  lemma Prolong<T>(es: Edges<T>, p: seq<T>, a: T, b: T)
    requires EndsAt(es, p, a) && (a, b) in es
    ensures EndsAt(es, p + [b], b)
  {
    forall i | 0 <= i < |p + [b]| - 1 ensures Hop(es, p + [b], i) {
      if i < |p| - 1 {
        assert Hop(es, p, i);
      }
    }
  }

  lemma {:induction false} FlatHolds<T>(groups: seq<seq<T>>, b: T)
    ensures b in Flat(groups) <==> exists g: nat :: g < |groups| && b in groups[g]
  {
    if groups != [] {
      FlatHolds(groups[..|groups| - 1], b);
    }
  }

  lemma AtMostDeep<T(!new)>(es: Edges<T>, groups: seq<seq<T>>, b: T, p: seq<T>)
    requires Depths(es, groups) && InCount(es, b, Elements(Flat(groups))) == 0 && EndsAt(es, p, b)
    ensures |p| <= |groups| + 1
  {
    var n := |p| - 1;
    if n > 0 {
      var a := p[n - 1];
      assert Hop(es, p, n - 1);
      InCountZero(es, b, Elements(Flat(groups)));
      FlatHolds(groups, a);
      var g: nat :| g < |groups| && a in groups[g];
      SubPath(es, p, 0, n - 1);
      assert EndsAt(es, p[0..n], a);
    }
  }

  /** A node that is ready now but was not a round ago has a predecessor in the last round. */
  lemma AsDeep<T(!new)>(es: Edges<T>, groups: seq<seq<T>>, b: T) returns (p: seq<T>)
    requires Depths(es, groups) && InCount(es, b, Elements(Flat(groups))) == 0
    requires |groups| > 0 ==> InCount(es, b, Elements(Flat(groups[..|groups| - 1]))) > 0
    ensures EndsAt(es, p, b) && |p| == |groups| + 1
  {
    if groups == [] {
      p := [b];
    } else {
      var last := |groups| - 1;
      InCountZero(es, b, Elements(Flat(groups)));
      InCountZero(es, b, Elements(Flat(groups[..last])));
      var i :| 0 <= i < |es| && es[i].1 == b && es[i].0 !in Elements(Flat(groups[..last]));
      var a := es[i].0;
      assert a in groups[last];
      var q :| EndsAt(es, q, a) && |q| == last + 1;
      Prolong(es, q, a, b);
      p := q + [b];
    }
  }

  lemma ReadyIsDeep<T(!new)>(es: Edges<T>, groups: seq<seq<T>>, b: T)
    requires Depths(es, groups) && InCount(es, b, Elements(Flat(groups))) == 0
    requires |groups| > 0 ==> InCount(es, b, Elements(Flat(groups[..|groups| - 1]))) > 0
    ensures Depth(es, b, |groups|)
  {
    var p := AsDeep(es, groups, b);
    forall q | EndsAt(es, q, b) ensures |q| <= |groups| + 1 {
      AtMostDeep(es, groups, b, q);
    }
  }

  // ---------------------------------------------------------------------------
  // One round
  // ---------------------------------------------------------------------------

  method Ready<T(==, !new)>(remaining: map<T, nat>) returns (ready: seq<T>)
    ensures NoDup(ready) && forall b :: b in ready <==> b in remaining && remaining[b] == 0
  {
    ready := [];
    var left := remaining.Keys;
    while left != {}
      invariant left <= remaining.Keys && NoDup(ready)
      invariant forall b :: b in ready <==> b in remaining.Keys - left && remaining[b] == 0
    {
      var n :| n in left;
      if remaining[n] == 0 {
        ready := ready + [n];
      }
      left := left - {n};
    }
  }

  /** The decrement loop after j targets of `a`, which is already removed. */
  ghost predicate Releasing<T(!new)>(nodes: set<T>, es: Edges<T>, done: set<T>, a: T, j: nat, remaining: map<T, nat>)
    requires j <= |Targets(es, a)|
  {
    && remaining.Keys == nodes - done - {a}
    && forall b :: b in remaining ==> remaining[b] + Occurrences(Targets(es, a)[..j], b) == InCount(es, b, done)
  }

  lemma ReleaseEdge<T(!new)>(nodes: set<T>, es: Edges<T>, done: set<T>, a: T, j: nat, remaining: map<T, nat>)
    requires a !in done && j < |Targets(es, a)| && Releasing(nodes, es, done, a, j, remaining)
    ensures var b := Targets(es, a)[j];
            && (b in remaining ==> remaining[b] > 0 && Releasing(nodes, es, done, a, j + 1, remaining[b := remaining[b] - 1]))
            && (b !in remaining ==> Releasing(nodes, es, done, a, j + 1, remaining))
  {
    var targets := Targets(es, a);
    forall c ensures Occurrences(targets[..j + 1], c) == Occurrences(targets[..j], c) + if targets[j] == c then 1 else 0 {
      OccurrencesTakeStep(targets, j, c);
    }
    OccurrencesTakeBound(targets, j, targets[j]);
    InCountSplit(es, targets[j], done, a);
  }

  /** Finishing one ready node. The saturating subtraction never saturates. */
  method Release<T(==, !new)>(nodes: set<T>, es: Edges<T>, ghost done: set<T>, a: T, targets: seq<T>, remaining0: map<T, nat>) returns (remaining: map<T, nat>)
    requires Counts(nodes, es, done, remaining0) && a in remaining0 && targets == Targets(es, a)
    ensures Counts(nodes, es, done + {a}, remaining)
  {
    remaining := remaining0 - {a};
    assert targets[..0] == [];
    for j := 0 to |targets|
      invariant Releasing(nodes, es, done, a, j, remaining)
    {
      ReleaseEdge(nodes, es, done, a, j, remaining);
      if targets[j] in remaining {
        var count := remaining[targets[j]];
        remaining := remaining[targets[j] := if count == 0 then 0 else count - 1];
      }
    }
    assert targets[..|targets|] == targets;
    forall b | b in remaining ensures remaining[b] == InCount(es, b, done + {a}) {
      InCountSplit(es, b, done, a);
    }
    assert nodes - done - {a} == nodes - (done + {a});
  }

  lemma NextReady<T>(nodes: set<T>, done: set<T>, ready: seq<T>, i: nat)
    requires NoDup(ready) && i < |ready| && ready[i] in nodes - done
    ensures ready[i] in nodes - (done + Elements(ready[..i]))
    ensures done + Elements(ready[..i]) + {ready[i]} == done + Elements(ready[..i + 1])
  {
    assert ready[..i + 1] == ready[..i] + [ready[i]];
  }

  method Round<T(==, !new)>(nodes: set<T>, es: Edges<T>, ghost done: set<T>, ready: seq<T>, adjacency: map<T, seq<T>>, remaining0: map<T, nat>) returns (remaining: map<T, nat>)
    requires Counts(nodes, es, done, remaining0) && NoDup(ready) && (forall b :: b in ready ==> b in remaining0)
    requires adjacency.Keys == nodes && forall b :: b in nodes ==> adjacency[b] == Targets(es, b)
    ensures Counts(nodes, es, done + Elements(ready), remaining)
  {
    remaining := remaining0;
    assert done + Elements(ready[..0]) == done;
    for i := 0 to |ready|
      invariant Counts(nodes, es, done + Elements(ready[..i]), remaining)
    {
      NextReady(nodes, done, ready, i);
      remaining := Release(nodes, es, done + Elements(ready[..i]), ready[i], adjacency[ready[i]], remaining);
    }
    assert ready[..|ready|] == ready;
  }

  // ---------------------------------------------------------------------------
  // All rounds
  // ---------------------------------------------------------------------------

  lemma NextRound<T(!new)>(es: Edges<T>, groups: seq<seq<T>>, ready: seq<T>)
    requires Depths(es, groups) && (forall b :: b in ready ==> InCount(es, b, Elements(Flat(groups))) == 0)
    requires |groups| > 0 ==> forall b :: b in ready ==> InCount(es, b, Elements(Flat(groups[..|groups| - 1]))) > 0
    requires NoDup(Flat(groups)) && NoDup(ready) && forall b :: b in ready ==> b !in Flat(groups)
    ensures Depths(es, groups + [ready])
    ensures NoDup(Flat(groups + [ready])) && Elements(Flat(groups + [ready])) == Elements(Flat(groups)) + Elements(ready)
  {
    var groups' := groups + [ready];
    assert groups'[..|groups|] == groups;
    forall g: nat, b | g < |groups'| && b in groups'[g] ensures Depth(es, b, g) {
      if g < |groups| {
        assert b in groups[g];
      } else {
        ReadyIsDeep(es, groups, b);
      }
    }
    NoDupConcat(Flat(groups), ready);
  }

  /** The loop state between rounds. */
  ghost predicate Fronts<T(!new)>(nodes: set<T>, es: Edges<T>, groups: seq<seq<T>>, remaining: map<T, nat>) {
    && NoDup(Flat(groups)) && Elements(Flat(groups)) <= nodes && Depths(es, groups)
    && (forall g :: 0 <= g < |groups| ==> groups[g] != [])
    && Counts(nodes, es, Elements(Flat(groups)), remaining) && Waited(es, groups, remaining)
  }

  lemma NextFront<T(!new)>(nodes: set<T>, es: Edges<T>, groups: seq<seq<T>>, before: map<T, nat>, ready: seq<T>, after: map<T, nat>)
    requires Fronts(nodes, es, groups, before) && NoDup(ready) && ready != []
    requires forall b :: b in ready <==> b in before && before[b] == 0
    requires Counts(nodes, es, Elements(Flat(groups)) + Elements(ready), after)
    ensures Fronts(nodes, es, groups + [ready], after)
    ensures nodes - Elements(Flat(groups + [ready])) < nodes - Elements(Flat(groups))
  {
    var groups', done := groups + [ready], Elements(Flat(groups));
    NextRound(es, groups, ready);
    assert groups'[..|groups|] == groups;
    assert ready[0] in ready && ready[0] in nodes - done && ready[0] in Elements(Flat(groups'));
    assert Waited(es, groups', after) by {
      forall b | b in after ensures InCount(es, b, done) > 0 {
        assert b in nodes - (done + Elements(ready));
        assert b in before && b !in ready;
      }
    }
  }

  /** When nothing is ready, nothing is left or what is left contains a cycle. */
  lemma Stuck<T(!new)>(nodes: set<T>, es: Edges<T>, groups: seq<seq<T>>, remaining: map<T, nat>)
    requires Within(nodes, es) && Counts(nodes, es, Elements(Flat(groups)), remaining) && remaining != map[]
    requires forall b :: b in remaining ==> remaining[b] != 0
    ensures !Acyclic(es) && Elements(Flat(groups)) != nodes
  {
    var done := Elements(Flat(groups));
    var left := nodes - done;
    forall b | b in left ensures HasPredecessor(es, left, b) {
      InCountZero(es, b, done);
      var i :| 0 <= i < |es| && es[i].1 == b && es[i].0 !in done;
      assert (es[i].0, b) in es;
    }
    assert left != {} by {
      var b :| b in remaining;
      assert b in left;
    }
    PredecessorsMakeACycle(es, left);
  }

  lemma {:induction false} AllGroupedIsAcyclic<T(!new)>(nodes: set<T>, es: Edges<T>, groups: seq<seq<T>>)
    requires Within(nodes, es) && Depths(es, groups) && Elements(Flat(groups)) == nodes
    ensures Acyclic(es)
  {
    forall a ensures !Reaches(es, a, a) {
      if Reaches(es, a, a) {
        var p :| |p| > 1 && PathFromTo(es, p, a, a);
        assert Hop(es, p, 0) && a in nodes;
        FlatHolds(groups, a);
        var g: nat :| g < |groups| && a in groups[g];
        var q :| EndsAt(es, q, a) && |q| == g + 1;
        Concatenate(es, q, p);
        assert EndsAt(es, q + p[1..], a);
      }
    }
  }

  /**
   The groups hold distinct nodes, each in the group whose index is the edge
   count of the longest path ending at it. They hold all nodes exactly when
   the graph is acyclic.
   */
  method FindParallelGroups<T(==, !new)>(nodes: set<T>, es: Edges<T>) returns (groups: seq<seq<T>>)
    requires Within(nodes, es)
    ensures NoDup(Flat(groups)) && Elements(Flat(groups)) <= nodes && Depths(es, groups)
    ensures forall g :: 0 <= g < |groups| ==> groups[g] != []
    ensures Elements(Flat(groups)) == nodes <==> Acyclic(es)
  {
    var adjacency, remaining := Tabulate(nodes, es);
    groups := [];
    assert Elements(Flat(groups)) == {};
    while remaining != map[]
      invariant Fronts(nodes, es, groups, remaining)
      decreases nodes - Elements(Flat(groups))
    {
      var ready := Ready(remaining);
      if ready == [] {
        Stuck(nodes, es, groups, remaining);
        return;
      }
      var after := Round(nodes, es, Elements(Flat(groups)), ready, adjacency, remaining);
      NextFront(nodes, es, groups, remaining, ready, after);
      groups, remaining := groups + [ready], after;
    }
    assert nodes == Elements(Flat(groups)) by {
      assert remaining.Keys == {};
      assert nodes == (nodes - Elements(Flat(groups))) + Elements(Flat(groups));
    }
    AllGroupedIsAcyclic(nodes, es, groups);
  }

  /** Every edge into a grouped node comes from a strictly earlier group. */
  lemma EdgesGoLater<T(!new)>(es: Edges<T>, groups: seq<seq<T>>, g: nat, h: nat, a: T, b: T)
    requires Depths(es, groups) && g < |groups| && h < |groups| && a in groups[g] && b in groups[h] && (a, b) in es
    ensures g < h
  {
    assert Depth(es, a, g) && Depth(es, b, h);
    var p :| EndsAt(es, p, a) && |p| == g + 1;
    Prolong(es, p, a, b);
  }
}
