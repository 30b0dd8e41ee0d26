/** The heaviest chain of nodes: a table over the topological order, read back through predecessors. */
module CriticalPath {
  import opened Prelude
  import opened Graphs
  import opened Kahn

  /** A node's duration; an id that names no node counts nothing. */
  function Time<T>(d: map<T, nat>, x: T): nat {
    if x in d then d[x] else 0
  }

  /** The estimate of a path: the sum of its nodes' durations. */
  function Estimate<T>(d: map<T, nat>, p: seq<T>): nat {
    if p == [] then 0 else Estimate(d, p[..|p| - 1]) + Time(d, p[|p| - 1])
  }

  lemma {:induction false} EstimateCons<T>(d: map<T, nat>, x: T, p: seq<T>)
    ensures Estimate(d, [x] + p) == Time(d, x) + Estimate(d, p)
  {
    if p == [] {
      assert [x] + p == [x];
    } else {
      assert ([x] + p)[..|p|] == [x] + p[..|p| - 1];
      EstimateCons(d, x, p[..|p| - 1]);
    }
  }

  /** The table entry of the i-th node: reached through its predecessor, at least as heavy as through any edge. */
  ghost predicate SolvedAt<T>(es: Edges<T>, d: map<T, nat>, order: seq<T>, i: nat, longest: map<T, nat>, pred: map<T, Option<T>>)
    requires i < |order|
  {
    var b := order[i];
    && b in longest && b in pred && Time(d, b) <= longest[b]
    && (pred[b].None? ==> longest[b] == Time(d, b))
    && (pred[b].Some? ==>
          var a := pred[b].value;
          a in order[..i] && a in longest && (a, b) in es && 0 < longest[a] && longest[b] == longest[a] + Time(d, b))
    && (forall m :: 0 <= m < |es| && es[m].1 == b ==> es[m].0 in longest && longest[es[m].0] + Time(d, b) <= longest[b])
  }

  ghost predicate Solved<T>(es: Edges<T>, d: map<T, nat>, order: seq<T>, k: nat, longest: map<T, nat>, pred: map<T, Option<T>>)
    requires k <= |order|
  {
    longest.Keys == pred.Keys == Elements(order[..k]) && forall i :: 0 <= i < k ==> SolvedAt(es, d, order, i, longest, pred)
  }

  /** No path into a listed node outweighs its table entry. */
  lemma {:induction false} Bounded<T>(es: Edges<T>, d: map<T, nat>, order: seq<T>, longest: map<T, nat>, pred: map<T, Option<T>>, p: seq<T>)
    requires Solved(es, d, order, |order|, longest, pred) && IsPath(es, p) && p[|p| - 1] in longest
    ensures Estimate(d, p) <= longest[p[|p| - 1]]
    decreases |p|
  {
    var n := |p| - 1;
    assert order[..|order|] == order;
    var i :| 0 <= i < |order| && order[i] == p[n];
    assert SolvedAt(es, d, order, i, longest, pred);
    if n == 0 {
      assert p[..0] == [];
    } else {
      assert Hop(es, p, n - 1);
      SubPath(es, p, 0, n - 1);
      assert p[0..n] == p[..n];
      Bounded(es, d, order, longest, pred, p[..n]);
    }
  }

  /** The k-th edge is the first way into `node` of this weight, and none before it is heavier. */
  ghost predicate FirstBest<T>(es: Edges<T>, node: T, len: nat, longest: map<T, nat>, best: nat, a: T, k: nat) {
    && k < |es| && es[k] == (a, node)
    && forall m :: 0 <= m < k && es[m].1 == node && es[m].0 in longest ==> longest[es[m].0] + len < best
  }

  /** The edge scan: the first of the heaviest ways into `node` from the table so far; one of no weight is none. */
  method Best<T(==)>(es: Edges<T>, node: T, len: nat, longest: map<T, nat>) returns (best: nat, pred: Option<T>)
    ensures len <= best && (pred.None? <==> best == len)
    ensures pred.Some? ==> exists k: nat :: FirstBest(es, node, len, longest, best, pred.value, k)
    ensures pred.Some? ==> (pred.value, node) in es && pred.value in longest && best == longest[pred.value] + len
    ensures forall m :: 0 <= m < |es| && es[m].1 == node && es[m].0 in longest ==> longest[es[m].0] + len <= best
  {
    best, pred := len, None;
    for k := 0 to |es|
      invariant len <= best && (pred.None? <==> best == len)
      invariant pred.Some? ==> exists j: nat :: FirstBest(es, node, len, longest, best, pred.value, j)
      invariant pred.Some? ==> (pred.value, node) in es && pred.value in longest && best == longest[pred.value] + len
      invariant forall m :: 0 <= m < k && es[m].1 == node && es[m].0 in longest ==> longest[es[m].0] + len <= best
    {
      if es[k].1 == node && es[k].0 in longest {
        var candidate := longest[es[k].0] + len;
        if candidate > best {
          assert es[k] == (es[k].0, node);
          best, pred := candidate, Some(es[k].0);
          assert FirstBest(es, node, len, longest, best, es[k].0, k);
        }
      }
    }
  }

  lemma Solve<T>(es: Edges<T>, d: map<T, nat>, order: seq<T>, k: nat, longest: map<T, nat>, pred: map<T, Option<T>>, best: nat, from: Option<T>)
    requires Topological(es, order) && k < |order| && Solved(es, d, order, k, longest, pred)
    requires Time(d, order[k]) <= best && (from.None? <==> best == Time(d, order[k]))
    requires from.Some? ==> (from.value, order[k]) in es && from.value in longest && best == longest[from.value] + Time(d, order[k])
    requires forall m :: 0 <= m < |es| && es[m].1 == order[k] && es[m].0 in longest ==> longest[es[m].0] + Time(d, order[k]) <= best
    ensures Solved(es, d, order, k + 1, longest[order[k] := best], pred[order[k] := from])
  {
    var b := order[k];
    var longest', pred' := longest[b := best], pred[b := from];
    assert order[..k + 1] == order[..k] + [b];
    assert b !in longest;
    forall i | 0 <= i <= k ensures SolvedAt(es, d, order, i, longest', pred') {
      if i < k {
        assert SolvedAt(es, d, order, i, longest, pred) && order[i] in longest;
      } else {
        assert Preceded(es, order, k);
        forall m | 0 <= m < |es| && es[m].1 == b ensures es[m].0 in longest && es[m].0 != b {}
      }
    }
  }

  /** The node at position `at` is the first of its weight in the order, and none before it is heavier. */
  ghost predicate FirstHeaviest<T>(order: seq<T>, longest: map<T, nat>, weight: nat, at: nat) {
    at <= |order| && forall i :: 0 <= i < at ==> Lighter(longest, order[i], weight)
  }

  ghost predicate Lighter<T>(longest: map<T, nat>, x: T, weight: nat) {
    x in longest && longest[x] < weight
  }

  lemma FirstHeaviestOn<T>(order: seq<T>, k: nat, longest: map<T, nat>, best: nat, weight: nat, at: nat)
    requires k < |order| && at <= k && order[k] !in longest && longest.Keys == Elements(order[..k])
    requires FirstHeaviest(order, longest, weight, at) && forall x :: x in longest ==> longest[x] <= weight
    ensures FirstHeaviest(order, longest[order[k] := best], weight, at)
    ensures best > weight ==> FirstHeaviest(order, longest[order[k] := best], best, k)
  {
    forall i | 0 <= i < at ensures Lighter(longest[order[k] := best], order[i], weight) {
      assert Lighter(longest, order[i], weight);
    }
    forall i | 0 <= i < k && best > weight ensures Lighter(longest[order[k] := best], order[i], best) {
      assert order[..k][i] in Elements(order[..k]);
    }
  }

  /** The table loop, with the first node of greatest weight. */
  method Tabulated<T(==, !new)>(es: Edges<T>, d: map<T, nat>, order: seq<T>)
    returns (longest: map<T, nat>, pred: map<T, Option<T>>, maxNode: T, maxLen: nat)
    requires Topological(es, order) && order != []
    ensures Solved(es, d, order, |order|, longest, pred)
    ensures maxNode in longest && longest[maxNode] == maxLen && forall x :: x in longest ==> longest[x] <= maxLen
    ensures exists k :: 0 <= k < |order| && order[k] == maxNode && FirstHeaviest(order, longest, maxLen, k)
  {
    ghost var at := 0;
    longest, pred, maxLen, maxNode := map[], map[], 0, order[0];
    for k := 0 to |order|
      invariant Solved(es, d, order, k, longest, pred)
      invariant k == 0 ==> maxNode == order[0] && maxLen == 0
      invariant k > 0 ==> maxNode in longest && longest[maxNode] == maxLen
      invariant at < |order| && order[at] == maxNode && at <= k && FirstHeaviest(order, longest, maxLen, at)
      invariant forall x :: x in longest ==> longest[x] <= maxLen
    {
      var node := order[k];
      var best, from := Best(es, node, Time(d, node), longest);
      Solve(es, d, order, k, longest, pred, best, from);
      assert node !in longest;
      FirstHeaviestOn(order, k, longest, best, maxLen, at);
      longest, pred := longest[node := best], pred[node := from];
      if best > maxLen {
        maxLen, maxNode, at := best, node, k;
      }
    }
  }

  lemma PathCons<T>(es: Edges<T>, x: T, p: seq<T>)
    requires p != [] ==> IsPath(es, p) && (x, p[0]) in es
    ensures IsPath(es, [x] + p)
  {
    var q := [x] + p;
    forall i | 0 <= i < |q| - 1 ensures Hop(es, q, i) {
      if i > 0 {
        assert Hop(es, p, i - 1);
      }
    }
  }

  /** Reading the table back yields a real path of the entry's weight. */
  method ReadBack<T(==, !new)>(es: Edges<T>, d: map<T, nat>, ghost order: seq<T>, ghost longest: map<T, nat>, pred: map<T, Option<T>>, end: T)
    returns (path: seq<T>)
    requires Solved(es, d, order, |order|, longest, pred) && end in longest && NoDup(order)
    ensures IsPath(es, path) && path[|path| - 1] == end && Elements(path) <= longest.Keys && Estimate(d, path) == longest[end]
    ensures NoDup(path) && (|path| > 1 ==> Time(d, path[0]) > 0)
  {
    path := [];
    var current := Some(end);
    assert order[..|order|] == order;
    ghost var at: nat :| at < |order| && order[at] == end;
    while current.Some?
      invariant current.Some? ==> at < |order| && order[at] == current.value && current.value in longest && longest[current.value] + Estimate(d, path) == longest[end]
      invariant current.None? ==> path != [] && Estimate(d, path) == longest[end]
      invariant path == [] ==> current == Some(end)
      invariant path != [] ==> IsPath(es, path) && path[|path| - 1] == end
      invariant path != [] && current.Some? ==> (current.value, path[0]) in es && longest[current.value] > 0
      invariant |path| > 1 && current.None? ==> Time(d, path[0]) > 0
      invariant Elements(path) <= longest.Keys
      invariant NoDup(path) && (current.Some? ==> forall x :: x in path ==> x in order[at + 1..])
      decreases if current.Some? then at + 1 else 0
    {
      var node := current.value;
      assert SolvedAt(es, d, order, at, longest, pred);
      EstimateCons(d, node, path);
      PathCons(es, node, path);
      assert node !in order[at + 1..];
      NoDupConcat([node], path);
      path := [node] + path;
      current := pred[node];
      if current.Some? {
        ghost var before: nat :| before < at && order[before] == current.value;
        at := before;
      }
    }
  }

  /**
   A real path without repetitions, or the placeholder alone; one of several nodes
   begins with a node that takes time. On an acyclic
   graph with nodes it is a path that no path outweighs; without nodes it is
   the placeholder.
   */
  method ComputeCriticalPath<T(==, !new)>(nodes: set<T>, es: Edges<T>, d: map<T, nat>, placeholder: T) returns (path: seq<T>)
    requires Within(nodes, es)
    ensures NoDup(path) && (path == [placeholder] || (IsPath(es, path) && Elements(path) <= nodes))
    ensures |path| > 1 ==> Time(d, path[0]) > 0
    ensures nodes == {} ==> path == [placeholder]
    ensures nodes != {} && Acyclic(es) ==> IsPath(es, path) && Elements(path) <= nodes
    ensures nodes != {} && Acyclic(es) ==> forall p :: IsPath(es, p) && Elements(p) <= nodes ==> Estimate(d, p) <= Estimate(d, path)
  {
    var order := Sort(nodes, es);
    if order == [] {
      return [placeholder];
    }
    assert order[0] in nodes by {
      assert order[0] in Elements(order);
    }
    var longest, pred, end, len := Tabulated(es, d, order);
    path := ReadBack(es, d, order, longest, pred, end);
    assert order[..|order|] == order;
    if Acyclic(es) {
      forall p | IsPath(es, p) && Elements(p) <= nodes ensures Estimate(d, p) <= Estimate(d, path) {
        assert p[|p| - 1] in Elements(p);
        Bounded(es, d, order, longest, pred, p);
      }
    }
  }
}
