/**
 Kahn's algorithm as the compiler, the critical-path pass and the intelligence
 graph validator run it: in-degree map, adjacency lists, work queue. The order
 in which source nodes enter the queue is arbitrary.
 */
module Kahn {
  import opened Prelude
  import opened Graphs

  ghost predicate NoDup<T>(s: seq<T>) {
    forall i, j :: 0 <= i < j < |s| ==> s[i] != s[j]
  }

  function Elements<T>(s: seq<T>): set<T> {
    set x | x in s
  }

  lemma NoDupConcat<T>(s: seq<T>, t: seq<T>)
    requires NoDup(s) && NoDup(t) && forall x :: x in t ==> x !in s
    ensures NoDup(s + t) && Elements(s + t) == Elements(s) + Elements(t)
  {
    forall i, j | 0 <= i < j < |s + t| ensures (s + t)[i] != (s + t)[j] {
      if i < |s| <= j {
        assert t[j - |s|] in t;
      }
    }
  }

  /** Every edge into position i comes from an earlier position. */
  ghost predicate Preceded<T>(es: Edges<T>, order: seq<T>, i: nat)
    requires i < |order|
  {
    forall k :: 0 <= k < |es| && es[k].1 == order[i] ==> es[k].0 in order[..i]
  }

  ghost predicate Topological<T>(es: Edges<T>, order: seq<T>) {
    NoDup(order) && forall i :: 0 <= i < |order| ==> Preceded(es, order, i)
  }

  /** The loop state: degrees count what is still missing, the queue holds what is ready. */
  ghost predicate Progress<T(!new)>(nodes: set<T>, es: Edges<T>, order: seq<T>, queue: seq<T>, degree: map<T, nat>) {
    && Topological(es, order) && Elements(order) <= nodes && NoDup(queue)
    && degree.Keys == nodes
    && (forall b :: b in nodes ==> degree[b] == InCount(es, b, Elements(order)))
    && (forall b :: b in queue <==> b in nodes && b !in order && degree[b] == 0)
  }

  /** The tables after the first k edges. */
  ghost predicate Tabulated<T>(nodes: set<T>, es: Edges<T>, k: nat, adjacency: map<T, seq<T>>, degree: map<T, nat>)
    requires k <= |es|
  {
    && adjacency.Keys == degree.Keys == nodes
    && (forall b :: b in nodes ==> adjacency[b] == Targets(es[..k], b))
    && (forall b :: b in nodes ==> degree[b] == InCount(es[..k], b, {}))
  }

  lemma TabulateEdge<T>(nodes: set<T>, es: Edges<T>, k: nat, adjacency: map<T, seq<T>>, degree: map<T, nat>, a: T, b: T)
    requires k < |es| && es[k] == (a, b) && a in nodes && b in nodes && Tabulated(nodes, es, k, adjacency, degree)
    ensures Tabulated(nodes, es, k + 1, adjacency[a := adjacency[a] + [b]], degree[b := degree[b] + 1])
  {
    assert es[..k + 1] == es[..k] + [es[k]];
    forall n | n in nodes
      ensures adjacency[a := adjacency[a] + [b]][n] == Targets(es[..k + 1], n)
      ensures degree[b := degree[b] + 1][n] == InCount(es[..k + 1], n, {})
    {
      TargetsSnoc(es[..k], es[k], n);
      InCountSnoc(es[..k], es[k], n, {});
    }
  }

  method Tabulate<T(==, !new)>(nodes: set<T>, es: Edges<T>) returns (adjacency: map<T, seq<T>>, degree: map<T, nat>)
    requires Within(nodes, es)
    ensures adjacency.Keys == degree.Keys == nodes
    ensures forall b :: b in nodes ==> adjacency[b] == Targets(es, b)
    ensures forall b :: b in nodes ==> degree[b] == InCount(es, b, {})
  {
    adjacency := map n | n in nodes :: [];
    degree := map n | n in nodes :: 0;
    for k := 0 to |es|
      invariant Tabulated(nodes, es, k, adjacency, degree)
    {
      var (a, b) := es[k];
      TabulateEdge(nodes, es, k, adjacency, degree, a, b);
      adjacency := adjacency[a := adjacency[a] + [b]];
      degree := degree[b := degree[b] + 1];
    }
    assert es[..|es|] == es;
  }

  method Sources<T(==, !new)>(nodes: set<T>, degree: map<T, nat>) returns (queue: seq<T>)
    requires degree.Keys == nodes
    ensures NoDup(queue) && forall b :: b in queue <==> b in nodes && degree[b] == 0
  {
    queue := [];
    var left := nodes;
    while left != {}
      invariant left <= nodes && NoDup(queue)
      invariant forall b :: b in queue <==> b in nodes - left && degree[b] == 0
    {
      var n :| n in left;
      if degree[n] == 0 {
        queue := queue + [n];
      }
      left := left - {n};
    }
  }

  lemma OccurrencesTakeStep<T>(s: seq<T>, j: nat, b: T)
    requires j < |s|
    ensures Occurrences(s[..j + 1], b) == Occurrences(s[..j], b) + if s[j] == b then 1 else 0
  {
    assert s[..j + 1] == s[..j] + [s[j]];
    OccurrencesConcat(s[..j], [s[j]], b);
  }

  lemma OccurrencesTakeBound<T>(s: seq<T>, j: nat, b: T)
    requires j < |s|
    ensures Occurrences(s[..j + 1], b) <= Occurrences(s, b)
  {
    assert s == s[..j + 1] + s[j + 1..];
    OccurrencesConcat(s[..j + 1], s[j + 1..], b);
  }

  /** A finished node waits for nothing, so no edge of `node` goes back to it. */
  lemma FinishedTakesNoMore<T(!new)>(nodes: set<T>, es: Edges<T>, order: seq<T>, queue: seq<T>, degree: map<T, nat>, node: T, b: T)
    requires Progress(nodes, es, order, queue, degree) && node in queue && (b in order || b == node)
    ensures Occurrences(Targets(es, node), b) == 0
  {
    InCountSplit(es, b, Elements(order), node);
    if b in order {
      var i :| 0 <= i < |order| && order[i] == b;
      assert Preceded(es, order, i);
      InCountZero(es, b, Elements(order));
    }
  }

  /** The neighbour loop after j decrements; `done` now includes the node being left. */
  ghost predicate Relaxing<T(!new)>(nodes: set<T>, es: Edges<T>, before: set<T>, node: T, j: nat, queue: seq<T>, degree: map<T, nat>)
    requires j <= |Targets(es, node)|
  {
    && degree.Keys == nodes && NoDup(queue)
    && (forall b :: b in nodes ==> degree[b] + Occurrences(Targets(es, node)[..j], b) == InCount(es, b, before))
    && (forall b :: b in queue <==> b in nodes && b !in before + {node} && degree[b] == 0)
  }

  lemma RelaxStart<T(!new)>(nodes: set<T>, es: Edges<T>, order: seq<T>, node: T, rest: seq<T>, degree: map<T, nat>)
    requires Progress(nodes, es, order, [node] + rest, degree)
    ensures Relaxing(nodes, es, Elements(order), node, 0, rest, degree)
  {
    var queue := [node] + rest;
    forall i | 0 <= i < |rest| ensures rest[i] != node && rest[i] in queue {
      assert queue[0] != queue[i + 1];
    }
    assert NoDup(rest) by {
      forall i, j | 0 <= i < j < |rest| ensures rest[i] != rest[j] {
        assert queue[i + 1] != queue[j + 1];
      }
    }
    forall b ensures b in queue <==> b == node || b in rest {}
  }

  /** Every neighbour still waits for this edge: its degree is positive and it is not finished. */
  lemma NeighbourWaits<T(!new)>(nodes: set<T>, es: Edges<T>, order: seq<T>, rest: seq<T>, degree0: map<T, nat>, node: T, j: nat, queue: seq<T>, degree: map<T, nat>)
    requires Within(nodes, es) && Progress(nodes, es, order, [node] + rest, degree0) && j < |Targets(es, node)|
    requires Relaxing(nodes, es, Elements(order), node, j, queue, degree)
    ensures var b := Targets(es, node)[j]; b in nodes && b !in Elements(order) + {node} && degree[b] > 0
  {
    var targets := Targets(es, node);
    var b := targets[j];
    TargetsAreEdges(es, node, b);
    OccursIffIn(targets, b);
    if b in Elements(order) + {node} {
      assert node in [node] + rest;
      FinishedTakesNoMore(nodes, es, order, [node] + rest, degree0, node, b);
    }
    OccurrencesTakeStep(targets, j, b);
    OccurrencesTakeBound(targets, j, b);
    InCountSplit(es, b, Elements(order), node);
  }

  lemma RelaxEdge<T(!new)>(nodes: set<T>, es: Edges<T>, before: set<T>, node: T, j: nat, queue: seq<T>, degree: map<T, nat>, b: T)
    requires j < |Targets(es, node)| && Relaxing(nodes, es, before, node, j, queue, degree)
    requires b == Targets(es, node)[j] && b in nodes && b !in before + {node} && degree[b] > 0
    ensures var degree' := degree[b := degree[b] - 1];
            Relaxing(nodes, es, before, node, j + 1, if degree'[b] == 0 then queue + [b] else queue, degree')
  {
    forall c ensures Occurrences(Targets(es, node)[..j + 1], c) == Occurrences(Targets(es, node)[..j], c) + if b == c then 1 else 0 {
      OccurrencesTakeStep(Targets(es, node), j, c);
    }
  }

  lemma RelaxEnd<T(!new)>(nodes: set<T>, es: Edges<T>, order: seq<T>, rest: seq<T>, degree0: map<T, nat>, node: T, queue: seq<T>, degree: map<T, nat>)
    requires Progress(nodes, es, order, [node] + rest, degree0)
    requires Relaxing(nodes, es, Elements(order), node, |Targets(es, node)|, queue, degree)
    ensures Progress(nodes, es, order + [node], queue, degree)
  {
    var targets := Targets(es, node);
    assert node in [node] + rest && targets[..|targets|] == targets;
    assert Elements(order + [node]) == Elements(order) + {node};
    forall b | b in nodes ensures degree[b] == InCount(es, b, Elements(order) + {node}) {
      InCountSplit(es, b, Elements(order), node);
    }
    ExtendTopological(es, order, node);
  }

  /** The neighbour loop: one decrement per outgoing edge, never below zero. */
  method Relax<T(==, !new)>(nodes: set<T>, es: Edges<T>, ghost order: seq<T>, node: T, targets: seq<T>, rest: seq<T>, degree0: map<T, nat>)
    returns (queue: seq<T>, degree: map<T, nat>)
    requires Within(nodes, es) && Progress(nodes, es, order, [node] + rest, degree0) && targets == Targets(es, node)
    ensures Progress(nodes, es, order + [node], queue, degree)
  {
    queue, degree := rest, degree0;
    RelaxStart(nodes, es, order, node, rest, degree0);
    for j := 0 to |targets|
      invariant Relaxing(nodes, es, Elements(order), node, j, queue, degree)
    {
      NeighbourWaits(nodes, es, order, rest, degree0, node, j, queue, degree);
      RelaxEdge(nodes, es, Elements(order), node, j, queue, degree, targets[j]);
      var b := targets[j];
      degree := degree[b := degree[b] - 1];
      if degree[b] == 0 {
        queue := queue + [b];
      }
    }
    RelaxEnd(nodes, es, order, rest, degree0, node, queue, degree);
  }

  lemma ExtendTopological<T>(es: Edges<T>, order: seq<T>, node: T)
    requires Topological(es, order) && node !in order && InCount(es, node, Elements(order)) == 0
    ensures Topological(es, order + [node])
  {
    var order' := order + [node];
    InCountZero(es, node, Elements(order));
    forall i | 0 <= i < |order'| ensures Preceded(es, order', i) {
      assert order'[..i] == order[..i];
      assert order[..|order|] == order;
      if i < |order| {
        assert Preceded(es, order, i);
      }
    }
  }

  /**
   The queue runs dry. The result lists distinct nodes, each after all its
   predecessors, and lists every node exactly when the graph has no cycle.
   */
  method Sort<T(==, !new)>(nodes: set<T>, es: Edges<T>) returns (order: seq<T>)
    requires Within(nodes, es)
    ensures Topological(es, order) && Elements(order) <= nodes
    ensures Elements(order) == nodes <==> Acyclic(es)
    ensures |order| == |nodes| <==> Acyclic(es)
  {
    var adjacency, degree := Tabulate(nodes, es);
    var queue := Sources(nodes, degree);
    order := [];
    assert Elements(order) == {};
    while queue != []
      invariant Progress(nodes, es, order, queue, degree)
      decreases nodes - Elements(order)
    {
      var node := queue[0];
      assert node in queue && queue == [node] + queue[1..];
      ghost var before := order;
      queue, degree := Relax(nodes, es, order, node, adjacency[node], queue[1..], degree);
      order := order + [node];
      assert Elements(order) == Elements(before) + {node};
    }
    DryQueue(nodes, es, order, degree);
    LengthCountsElements(order, nodes);
  }

  lemma LengthCountsElements<T>(s: seq<T>, nodes: set<T>)
    requires NoDup(s) && Elements(s) <= nodes
    ensures |s| == |Elements(s)| && (|s| == |nodes| <==> Elements(s) == nodes)
  {
    CountDistinct(s);
    if |s| == |nodes| {
      assert nodes == Elements(s) + (nodes - Elements(s));
    }
  }

  lemma {:induction false} CountDistinct<T>(s: seq<T>)
    requires NoDup(s)
    ensures |Elements(s)| == |s|
  {
    if s != [] {
      var init, last := s[..|s| - 1], s[|s| - 1];
      CountDistinct(init);
      assert last !in init && s == init + [last];
      assert Elements(s) == Elements(init) + {last};
    }
  }

  lemma DryQueue<T(!new)>(nodes: set<T>, es: Edges<T>, order: seq<T>, degree: map<T, nat>)
    requires Within(nodes, es) && Progress(nodes, es, order, [], degree)
    ensures Elements(order) == nodes <==> Acyclic(es)
  {
    var left := nodes - Elements(order);
    if left != {} {
      forall b | b in left ensures HasPredecessor(es, left, b) {
        InCountZero(es, b, Elements(order));
        var i :| 0 <= i < |es| && es[i].1 == b && es[i].0 !in Elements(order);
        assert (es[i].0, b) in es;
      }
      PredecessorsMakeACycle(es, left);
    } else {
      assert nodes == Elements(order) + left;
      OrderedIsAcyclic(nodes, es, order);
    }
  }

  /** Along a path, positions in a topological order increase. */
  lemma {:induction false} PathsGoForward<T(!new)>(es: Edges<T>, order: seq<T>, p: seq<T>, i: nat, j: nat)
    requires Topological(es, order) && IsPath(es, p) && i < |order| && j < |order|
    requires p[0] == order[i] && p[|p| - 1] == order[j]
    requires forall k :: 0 <= k < |es| ==> es[k].0 in order
    ensures i <= j && (|p| > 1 ==> i < j)
    decreases |p|
  {
    if |p| == 1 {
      assert order[i] == order[j];
    } else {
      var n := |p| - 1;
      assert Hop(es, p, n - 1);
      var k :| 0 <= k < |es| && es[k] == (p[n - 1], p[n]);
      assert Preceded(es, order, j);
      var m :| 0 <= m < j && order[m] == p[n - 1];
      SubPath(es, p, 0, n - 1);
      PathsGoForward(es, order, p[0..n], i, m);
    }
  }

  lemma OrderedIsAcyclic<T(!new)>(nodes: set<T>, es: Edges<T>, order: seq<T>)
    requires Within(nodes, es) && Topological(es, order) && Elements(order) == nodes
    ensures Acyclic(es)
  {
    assert forall n :: n in order <==> n in nodes;
    forall a ensures !Reaches(es, a, a) {
      if Reaches(es, a, a) {
        var p :| |p| > 1 && PathFromTo(es, p, a, a);
        assert Hop(es, p, 0);
        assert a in order;
        var i :| 0 <= i < |order| && order[i] == a;
        PathsGoForward(es, order, p, i, i);
      }
    }
  }
}
