/** Directed graphs given as edge lists: paths, reachability, cycles, in-degrees. */
module Graphs {
  import opened Prelude

  type Edges<T> = seq<(T, T)>

  ghost predicate Hop<T>(es: Edges<T>, p: seq<T>, i: nat)
    requires i + 1 < |p|
  {
    (p[i], p[i + 1]) in es
  }

  /** A nonempty node sequence whose neighbours are joined by edges. */
  ghost predicate IsPath<T>(es: Edges<T>, p: seq<T>) {
    |p| > 0 && forall i :: 0 <= i < |p| - 1 ==> Hop(es, p, i)
  }

  ghost predicate PathFromTo<T>(es: Edges<T>, p: seq<T>, a: T, b: T) {
    IsPath(es, p) && p[0] == a && p[|p| - 1] == b
  }

  /** One or more edges lead from `a` to `b`. */
  ghost predicate Reaches<T(!new)>(es: Edges<T>, a: T, b: T) {
    exists p :: |p| > 1 && PathFromTo(es, p, a, b)
  }

  ghost predicate Acyclic<T(!new)>(es: Edges<T>) {
    forall a :: !Reaches(es, a, a)
  }

  lemma EdgeReaches<T(!new)>(es: Edges<T>, a: T, b: T)
    requires (a, b) in es
    ensures Reaches(es, a, b)
  {
    assert Hop(es, [a, b], 0);
    assert PathFromTo(es, [a, b], a, b);
  }

  /** Two paths that share their joint concatenate. */
  lemma Concatenate<T(!new)>(es: Edges<T>, p: seq<T>, q: seq<T>)
    requires IsPath(es, p) && IsPath(es, q) && p[|p| - 1] == q[0]
    ensures PathFromTo(es, p + q[1..], p[0], q[|q| - 1])
  {
    var r := p + q[1..];
    forall i | 0 <= i < |r| - 1 ensures Hop(es, r, i) {
      if i < |p| - 1 {
        assert Hop(es, p, i);
      } else {
        assert Hop(es, q, i - (|p| - 1));
      }
    }
  }

  lemma ReachesTransitive<T(!new)>(es: Edges<T>, a: T, b: T, c: T)
    requires Reaches(es, a, b) && Reaches(es, b, c)
    ensures Reaches(es, a, c)
  {
    var p :| |p| > 1 && PathFromTo(es, p, a, b);
    var q :| |q| > 1 && PathFromTo(es, q, b, c);
    Concatenate(es, p, q);
    assert PathFromTo(es, p + q[1..], a, c);
  }

  lemma SubPath<T>(es: Edges<T>, p: seq<T>, i: nat, j: nat)
    requires IsPath(es, p) && i <= j < |p|
    ensures PathFromTo(es, p[i..j + 1], p[i], p[j])
  {
    var q := p[i..j + 1];
    forall k | 0 <= k < |q| - 1 ensures Hop(es, q, k) {
      assert Hop(es, p, i + k);
    }
  }

  ghost predicate Within<T>(nodes: set<T>, es: Edges<T>) {
    forall i :: 0 <= i < |es| ==> es[i].0 in nodes && es[i].1 in nodes
  }

  // ---------------------------------------------------------------------------
  // In-degrees, counted with multiplicity
  // ---------------------------------------------------------------------------

  /** How many edges enter `b` from nodes outside `done`. */
  function InCount<T(==)>(es: Edges<T>, b: T, done: set<T>): nat {
    if es == [] then 0
    else InCount(es[1..], b, done) + if es[0].1 == b && es[0].0 !in done then 1 else 0
  }

  /** The targets of the edges leaving `a`, in edge order. */
  function Targets<T(==)>(es: Edges<T>, a: T): seq<T> {
    if es == [] then []
    else (if es[0].0 == a then [es[0].1] else []) + Targets(es[1..], a)
  }

  function Occurrences<T(==)>(s: seq<T>, b: T): nat {
    if s == [] then 0 else Occurrences(s[1..], b) + if s[0] == b then 1 else 0
  }

  lemma OccurrencesConcat<T>(s: seq<T>, t: seq<T>, b: T)
    ensures Occurrences(s + t, b) == Occurrences(s, b) + Occurrences(t, b)
  {
    if s == [] {
      assert s + t == t;
    } else {
      assert (s + t)[1..] == s[1..] + t;
      OccurrencesConcat(s[1..], t, b);
    }
  }

  lemma {:induction false} OccursIffIn<T>(s: seq<T>, b: T)
    ensures Occurrences(s, b) > 0 <==> b in s
  {
    if s != [] {
      OccursIffIn(s[1..], b);
    }
  }

  /** Finishing `a` removes exactly the edges it sends to `b`. */
  lemma {:induction false} InCountSplit<T>(es: Edges<T>, b: T, done: set<T>, a: T)
    requires a !in done
    ensures InCount(es, b, done) == InCount(es, b, done + {a}) + Occurrences(Targets(es, a), b)
  {
    if es != [] {
      InCountSplit(es[1..], b, done, a);
      OccurrencesConcat(if es[0].0 == a then [es[0].1] else [], Targets(es[1..], a), b);
    }
  }

  lemma {:induction false} InCountZero<T>(es: Edges<T>, b: T, done: set<T>)
    ensures InCount(es, b, done) == 0 <==> forall i :: 0 <= i < |es| && es[i].1 == b ==> es[i].0 in done
  {
    if es != [] {
      InCountZero(es[1..], b, done);
      assert forall i :: 0 < i < |es| ==> es[i] == es[1..][i - 1];
      assert forall i :: 0 <= i < |es| - 1 ==> es[1..][i] == es[i + 1];
    }
  }

  lemma {:induction false} InCountSnoc<T>(es: Edges<T>, e: (T, T), b: T, done: set<T>)
    ensures InCount(es + [e], b, done) == InCount(es, b, done) + if e.1 == b && e.0 !in done then 1 else 0
  {
    if es == [] {
      assert es + [e] == [e];
    } else {
      assert (es + [e])[1..] == es[1..] + [e];
      InCountSnoc(es[1..], e, b, done);
    }
  }

  lemma {:induction false} TargetsSnoc<T>(es: Edges<T>, e: (T, T), a: T)
    ensures Targets(es + [e], a) == Targets(es, a) + if e.0 == a then [e.1] else []
  {
    if es == [] {
      assert es + [e] == [e] && [e][1..] == [];
    } else {
      var head := if es[0].0 == a then [es[0].1] else [];
      var tail := if e.0 == a then [e.1] else [];
      assert (es + [e])[1..] == es[1..] + [e] && (es + [e])[0] == es[0];
      TargetsSnoc(es[1..], e, a);
      assert head + (Targets(es[1..], a) + tail) == (head + Targets(es[1..], a)) + tail;
    }
  }

  lemma {:induction false} TargetsAreEdges<T>(es: Edges<T>, a: T, b: T)
    ensures b in Targets(es, a) <==> (a, b) in es
  {
    if es != [] {
      TargetsAreEdges(es[1..], a, b);
      assert es == [es[0]] + es[1..];
    }
  }

  // ---------------------------------------------------------------------------
  // Cycles
  // ---------------------------------------------------------------------------

  lemma {:induction false} Pigeonhole<T>(p: seq<T>, pool: set<T>) returns (i: nat, j: nat)
    requires |p| > |pool| && forall k :: 0 <= k < |p| ==> p[k] in pool
    ensures i < j < |p| && p[i] == p[j]
    decreases |p|
  {
    var last := p[|p| - 1];
    if k :| 0 <= k < |p| - 1 && p[k] == last {
      i, j := k, |p| - 1;
    } else {
      var rest := p[..|p| - 1];
      forall k | 0 <= k < |rest| ensures rest[k] in pool - {last} {
        assert p[k] in pool && p[k] != last;
      }
      i, j := Pigeonhole(rest, pool - {last});
    }
  }

  ghost predicate HasPredecessor<T(!new)>(es: Edges<T>, pool: set<T>, b: T) {
    exists a :: a in pool && (a, b) in es
  }

  ghost predicate EachHasPredecessor<T(!new)>(es: Edges<T>, pool: set<T>) {
    forall b {:trigger HasPredecessor(es, pool, b)} :: b in pool ==> HasPredecessor(es, pool, b)
  }

  /** Where every node has a predecessor, there are backward walks of any length. */
  lemma {:induction false} BackwardWalk<T(!new)>(es: Edges<T>, pool: set<T>, n: T, k: nat) returns (p: seq<T>)
    requires n in pool
    requires EachHasPredecessor(es, pool)
    ensures |p| == k + 1 && IsPath(es, p) && p[k] == n && forall i :: 0 <= i <= k ==> p[i] in pool
  {
    if k == 0 {
      p := [n];
    } else {
      assert HasPredecessor(es, pool, n);
      var a :| a in pool && (a, n) in es;
      var q := BackwardWalk(es, pool, a, k - 1);
      p := q + [n];
      forall i | 0 <= i < |p| - 1 ensures Hop(es, p, i) {
        if i < k - 1 {
          assert Hop(es, q, i);
        }
      }
    }
  }

  /** A nonempty finite set in which every node has a predecessor contains a cycle. */
  lemma PredecessorsMakeACycle<T(!new)>(es: Edges<T>, pool: set<T>)
    requires pool != {}
    requires EachHasPredecessor(es, pool)
    ensures !Acyclic(es)
  {
    var n :| n in pool;
    var p := BackwardWalk(es, pool, n, |pool|);
    var i, j := Pigeonhole(p, pool);
    SubPath(es, p, i, j);
    assert PathFromTo(es, p[i..j + 1], p[i], p[i]);
    assert Reaches(es, p[i], p[i]);
  }
}
