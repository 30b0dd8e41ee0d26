/** Validation of a portable intelligence graph. */
module IntelligenceGraph {
  import opened Prelude
  import opened Graphs
  import opened Kahn

  /** `wellFormed` stands for the node's own field checks; types are absent when the schema names none. */
  datatype Node = Node(id: string, wellFormed: bool, input: Option<string>, output: Option<string>)

  datatype Fault =
    | NoNodes | BadNode(id: string) | DuplicateNode(id: string)
    | SelfCycle(id: string) | UnknownSource(id: string) | UnknownTarget(id: string)
    | DuplicateEdge(from: string, to: string) | TypeMismatch(from: string, to: string) | Cycle

  function NodeIds(nodes: seq<Node>): seq<string> {
    seq(|nodes|, i requires 0 <= i < |nodes| => nodes[i].id)
  }

  predicate Connects(output: Option<string>, input: Option<string>) {
    output.Some? && input.Some? ==> output.value == input.value
  }

  ghost predicate GoodNodes(nodes: seq<Node>, n: nat)
    requires n <= |nodes|
  {
    NoDup(NodeIds(nodes)[..n]) && forall i :: 0 <= i < n ==> nodes[i].wellFormed
  }

  /** The edge joins two different known nodes of compatible types. */
  ghost predicate GoodEdge(nodes: seq<Node>, e: (string, string)) {
    && e.0 != e.1
    && exists i, j :: 0 <= i < |nodes| && 0 <= j < |nodes| && nodes[i].id == e.0 && nodes[j].id == e.1
                      && (nodes[i].output == nodes[j].input || nodes[i].output.None? || nodes[j].input.None?)
  }

  ghost predicate GoodEdges(nodes: seq<Node>, edges: Edges<string>, n: nat)
    requires n <= |edges|
  {
    NoDup(edges[..n]) && forall k :: 0 <= k < n ==> GoodEdge(nodes, edges[k])
  }

  /** Why node i is refused, all earlier ones being good. */
  ghost predicate NodeFault(nodes: seq<Node>, i: nat, f: Fault)
    requires i < |nodes|
  {
    if !nodes[i].wellFormed then f == BadNode(nodes[i].id)
    else nodes[i].id in NodeIds(nodes)[..i] && f == DuplicateNode(nodes[i].id)
  }

  /** Why edge k is refused, all nodes and all earlier edges being good. */
  ghost predicate EdgeFault(nodes: seq<Node>, edges: Edges<string>, k: nat, f: Fault)
    requires k < |edges|
  {
    var (a, b) := edges[k];
    if a == b then f == SelfCycle(a)
    else if a !in NodeIds(nodes) then f == UnknownSource(a)
    else if b !in NodeIds(nodes) then f == UnknownTarget(b)
    else if edges[k] in edges[..k] then f == DuplicateEdge(a, b)
    else !GoodEdge(nodes, edges[k]) && f == TypeMismatch(a, b)
  }

  method IndexNodes(nodes: seq<Node>) returns (index: map<string, Node>, fault: Option<Fault>)
    ensures fault.None? <==> GoodNodes(nodes, |nodes|)
    ensures fault.Some? ==> exists i: nat :: i < |nodes| && GoodNodes(nodes, i) && NodeFault(nodes, i, fault.value)
    ensures fault.None? ==> index.Keys == Elements(NodeIds(nodes)) && forall i :: 0 <= i < |nodes| ==> nodes[i].id in index && index[nodes[i].id] == nodes[i]
  {
    index, fault := map[], None;
    var ids := NodeIds(nodes);
    for i := 0 to |nodes|
      invariant GoodNodes(nodes, i) && index.Keys == Elements(ids[..i])
      invariant forall k :: 0 <= k < i ==> nodes[k].id in index && index[nodes[k].id] == nodes[k]
    {
      var node := nodes[i];
      if !node.wellFormed {
        assert NodeFault(nodes, i, BadNode(node.id));
        return index, Some(BadNode(node.id));
      }
      if node.id in index {
        assert NodeFault(nodes, i, DuplicateNode(node.id));
        DuplicateStays(ids, i);
        return index, Some(DuplicateNode(node.id));
      }
      assert ids[..i + 1] == ids[..i] + [node.id];
      assert forall k :: 0 <= k < i ==> ids[..i][k] == nodes[k].id;
      index := index[node.id := node];
    }
    assert ids[..|nodes|] == ids;
  }

  lemma DuplicateStays<T>(s: seq<T>, i: nat)
    requires i < |s| && s[i] in s[..i]
    ensures !NoDup(s) && !NoDup(s[..|s|])
  {
    var j :| 0 <= j < i && s[..i][j] == s[i];
    assert s[j] == s[i] && s[..|s|] == s;
  }

  method CheckEdges(nodes: seq<Node>, index: map<string, Node>, edges: Edges<string>) returns (fault: Option<Fault>)
    requires GoodNodes(nodes, |nodes|)
    requires index.Keys == Elements(NodeIds(nodes)) && forall i :: 0 <= i < |nodes| ==> nodes[i].id in index && index[nodes[i].id] == nodes[i]
    ensures fault.None? <==> GoodEdges(nodes, edges, |edges|)
    ensures fault.Some? ==> exists k: nat :: k < |edges| && GoodEdges(nodes, edges, k) && EdgeFault(nodes, edges, k, fault.value)
  {
    for k := 0 to |edges|
      invariant GoodEdges(nodes, edges, k)
    {
      var (a, b) := edges[k];
      assert (a, b) == edges[k];
      if a == b {
        assert !GoodEdge(nodes, edges[k]) && EdgeFault(nodes, edges, k, SelfCycle(a));
        return Some(SelfCycle(a));
      }
      if a !in index {
        UnknownEnd(nodes, edges[k]);
        assert EdgeFault(nodes, edges, k, UnknownSource(a));
        return Some(UnknownSource(a));
      }
      if b !in index {
        UnknownEnd(nodes, edges[k]);
        assert EdgeFault(nodes, edges, k, UnknownTarget(b));
        return Some(UnknownTarget(b));
      }
      if edges[k] in edges[..k] {
        assert EdgeFault(nodes, edges, k, DuplicateEdge(a, b));
        DuplicateStays(edges, k);
        return Some(DuplicateEdge(a, b));
      }
      JoinsKnown(nodes, index, edges[k]);
      if !Connects(index[a].output, index[b].input) {
        assert EdgeFault(nodes, edges, k, TypeMismatch(a, b));
        return Some(TypeMismatch(a, b));
      }
      assert edges[..k + 1] == edges[..k] + [edges[k]];
    }
    fault := None;
  }

  lemma UnknownEnd(nodes: seq<Node>, e: (string, string))
    requires e.0 !in NodeIds(nodes) || e.1 !in NodeIds(nodes)
    ensures !GoodEdge(nodes, e)
  {
    forall i | 0 <= i < |nodes| ensures nodes[i].id in NodeIds(nodes) {
      assert NodeIds(nodes)[i] == nodes[i].id;
    }
  }

  lemma JoinsKnown(nodes: seq<Node>, index: map<string, Node>, e: (string, string))
    requires e.0 != e.1 && e.0 in index && e.1 in index
    requires index.Keys == Elements(NodeIds(nodes)) && forall i :: 0 <= i < |nodes| ==> nodes[i].id in index && index[nodes[i].id] == nodes[i]
    ensures GoodEdge(nodes, e) <==> Connects(index[e.0].output, index[e.1].input)
  {
    var i :| 0 <= i < |nodes| && NodeIds(nodes)[i] == e.0;
    var j :| 0 <= j < |nodes| && NodeIds(nodes)[j] == e.1;
    assert index[e.0] == nodes[i] && index[e.1] == nodes[j];
  }

  /**
   Accepts exactly the nonempty graphs of distinct good nodes and distinct good
   edges without a cycle; otherwise names the first fault in checking order.
   */
  method Validate(nodes: seq<Node>, edges: Edges<string>) returns (fault: Option<Fault>)
    ensures fault.None? <==> nodes != [] && GoodNodes(nodes, |nodes|) && GoodEdges(nodes, edges, |edges|) && Acyclic(edges)
    ensures fault == Some(Cycle) <==> nodes != [] && GoodNodes(nodes, |nodes|) && GoodEdges(nodes, edges, |edges|) && !Acyclic(edges)
    ensures fault.Some? && fault.value != Cycle ==>
              || (nodes == [] && fault.value == NoNodes)
              || (exists i: nat :: i < |nodes| && GoodNodes(nodes, i) && NodeFault(nodes, i, fault.value))
              || (GoodNodes(nodes, |nodes|) && exists k: nat :: k < |edges| && GoodEdges(nodes, edges, k) && EdgeFault(nodes, edges, k, fault.value))
  {
    if nodes == [] {
      return Some(NoNodes);
    }
    var index;
    index, fault := IndexNodes(nodes);
    if fault.Some? {
      return;
    }
    fault := CheckEdges(nodes, index, edges);
    if fault.Some? {
      return;
    }
    forall k | 0 <= k < |edges| ensures edges[k].0 in index.Keys && edges[k].1 in index.Keys {
      assert GoodEdge(nodes, edges[k]);
    }
    var visited := Sort(index.Keys, edges);
    fault := if |visited| != |index.Keys| then Some(Cycle) else None;
  }
}
