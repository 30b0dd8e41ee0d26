/** From ordered steps to phase nodes and edges, with node ids as the strings they are. */
module Lowering {
  import opened Prelude
  import opened Graphs
  import opened Kahn
  import opened Steps
  import opened Segments

  datatype Kind =
    | Thinking | Retrieval | Checkpoint | Tool | Compensation | Tokenize | Decode
    | Verification | Approving | Committing | AutoVerify

  datatype Settings = Settings(autoCheckpoint: bool, autoVerify: bool)

  datatype PhaseNode = PhaseNode(id: string, kind: Kind, duration: nat)

  function Suffix(k: Kind): string {
    match k
    case Thinking => "-think"
    case Retrieval => "-retrieve"
    case Checkpoint => "-checkpoint"
    case Tool => "-tool"
    case Compensation => "-compensate"
    case Tokenize => "-tokenize"
    case Decode => "-generate"
    case Verification => "-verify"
    case Approving => "-approval"
    case Committing => "-commit"
    case AutoVerify => "-auto-verify"
  }

  function MainKinds(c: Settings, s: Step): (ks: seq<Kind>)
    ensures |ks| > 0
  {
    match s.kind
    case Think => [Thinking]
    case Retrieve => [Retrieval]
    case ToolCall =>
      (if c.autoCheckpoint && s.hasSideEffects then [Checkpoint] else [])
      + [Tool]
      + (if s.reversible then [Compensation] else [])
    case Generate => [Tokenize, Decode]
    case Verify => [Verification]
    case Approval => [Approving]
    case Commit => [Committing]
    case Compensate => [Compensation]
  }

  function Kinds(c: Settings, s: Step): (ks: seq<Kind>)
    ensures |ks| > 0
  {
    MainKinds(c, s) + (if c.autoVerify && s.requiresVerification then [AutoVerify] else [])
  }

  function Duration(s: Step, k: Kind): nat {
    match k
    case Thinking => s.duration
    case Decode => s.duration
    case Retrieval => 500
    case Tokenize => 10
    case _ => 0
  }

  function Nodes(s: Step, ks: seq<Kind>): seq<PhaseNode> {
    seq(|ks|, i requires 0 <= i < |ks| => PhaseNode(s.id + Suffix(ks[i]), ks[i], Duration(s, ks[i])))
  }

  /** The phase nodes of one step, in chain order. */
  function PhaseNodes(c: Settings, s: Step): seq<PhaseNode> {
    Nodes(s, Kinds(c, s))
  }

  function Chain(c: Settings, s: Step): (ids: seq<string>)
    ensures |ids| > 0
  {
    var ks := Kinds(c, s);
    seq(|ks|, i requires 0 <= i < |ks| => s.id + Suffix(ks[i]))
  }

  /** The arm of `step_to_phase_nodes` for a tool call. */
  method ToolCallNodes(c: Settings, s: Step) returns (nodes: seq<PhaseNode>)
    requires s.kind.ToolCall?
    ensures nodes == Nodes(s, MainKinds(c, s))
  {
    nodes := [];
    if c.autoCheckpoint && s.hasSideEffects {
      nodes := nodes + [PhaseNode(s.id + "-checkpoint", Checkpoint, 0)];
    }
    nodes := nodes + [PhaseNode(s.id + "-tool", Tool, 0)];
    if s.reversible {
      nodes := nodes + [PhaseNode(s.id + "-compensate", Compensation, 0)];
    }
  }

  /** `step_to_phase_nodes`: the phases of one step, pushed one by one. */
  method StepToPhaseNodes(c: Settings, s: Step) returns (nodes: seq<PhaseNode>)
    ensures nodes == PhaseNodes(c, s)
  {
    match s.kind {
      case Think => nodes := [PhaseNode(s.id + "-think", Thinking, s.duration)];
      case Retrieve => nodes := [PhaseNode(s.id + "-retrieve", Retrieval, 500)];
      case ToolCall => nodes := ToolCallNodes(c, s);
      case Generate =>
        nodes := [PhaseNode(s.id + "-tokenize", Tokenize, 10), PhaseNode(s.id + "-generate", Decode, s.duration)];
      case Verify => nodes := [PhaseNode(s.id + "-verify", Verification, 0)];
      case Approval => nodes := [PhaseNode(s.id + "-approval", Approving, 0)];
      case Commit => nodes := [PhaseNode(s.id + "-commit", Committing, 0)];
      case Compensate => nodes := [PhaseNode(s.id + "-compensate", Compensation, 0)];
    }
    assert nodes == Nodes(s, MainKinds(c, s));
    if c.autoVerify && s.requiresVerification {
      nodes := nodes + [PhaseNode(s.id + "-auto-verify", AutoVerify, 0)];
    }
  }

  // ---------------------------------------------------------------------------
  // Which phases a step gets, and in which order
  // ---------------------------------------------------------------------------

  /** The node is called after its step and phase, and lasts as long as the phase does. */
  ghost predicate Named(s: Step, n: PhaseNode) {
    match n.kind
    case Thinking => n.id == s.id + "-think" && n.duration == s.duration
    case Retrieval => n.id == s.id + "-retrieve" && n.duration == 500
    case Checkpoint => n.id == s.id + "-checkpoint" && n.duration == 0
    case Tool => n.id == s.id + "-tool" && n.duration == 0
    case Compensation => n.id == s.id + "-compensate" && n.duration == 0
    case Tokenize => n.id == s.id + "-tokenize" && n.duration == 10
    case Decode => n.id == s.id + "-generate" && n.duration == s.duration
    case Verification => n.id == s.id + "-verify" && n.duration == 0
    case Approving => n.id == s.id + "-approval" && n.duration == 0
    case Committing => n.id == s.id + "-commit" && n.duration == 0
    case AutoVerify => n.id == s.id + "-auto-verify" && n.duration == 0
  }

  /** Whether a step has a phase: a checkpoint before risky tool calls, a compensation for reversible ones, and so on. */
  ghost predicate Needs(c: Settings, s: Step, k: Kind) {
    match k
    case Thinking => s.kind.Think?
    case Retrieval => s.kind.Retrieve?
    case Checkpoint => s.kind.ToolCall? && c.autoCheckpoint && s.hasSideEffects
    case Tool => s.kind.ToolCall?
    case Compensation => s.kind.Compensate? || (s.kind.ToolCall? && s.reversible)
    case Tokenize => s.kind.Generate?
    case Decode => s.kind.Generate?
    case Verification => s.kind.Verify?
    case Approving => s.kind.Approval?
    case Committing => s.kind.Commit?
    case AutoVerify => c.autoVerify && s.requiresVerification
  }

  /** The order of phases within a step: a checkpoint comes before the tool, its compensation after it, tokenizing before generating, auto-verification last. */
  ghost predicate Before(k: Kind, m: Kind) {
    || (k.Checkpoint? && m.Tool?) || (k.Checkpoint? && m.Compensation?) || (k.Tool? && m.Compensation?) || (k.Tokenize? && m.Decode?)
    || (m.AutoVerify? && !k.AutoVerify?)
  }

  /** The phases of a step: exactly those it needs, once each, in order. */
  ghost predicate Shape(c: Settings, s: Step, nodes: seq<PhaseNode>) {
    && (forall i :: 0 <= i < |nodes| ==> Named(s, nodes[i]) && Needs(c, s, nodes[i].kind))
    && (forall k :: Needs(c, s, k) ==> exists i :: 0 <= i < |nodes| && nodes[i].kind == k)
    && (forall i, j :: 0 <= i < j < |nodes| ==> Before(nodes[i].kind, nodes[j].kind))
  }

  lemma PhasesHaveShape(c: Settings, s: Step)
    ensures Shape(c, s, PhaseNodes(c, s))
  {
    var ks := Kinds(c, s);
    forall k | Needs(c, s, k) ensures exists i :: 0 <= i < |ks| && PhaseNodes(c, s)[i].kind == k {
      KindPosition(c, s, k);
    }
    forall i, j | 0 <= i < j < |ks| ensures Before(ks[i], ks[j]) {
      KindsInOrder(c, s, i, j);
    }
    forall i | 0 <= i < |ks| ensures Named(s, PhaseNodes(c, s)[i]) && Needs(c, s, ks[i]) {
      KindIsNeeded(c, s, i);
      KindIsNamed(s, ks[i]);
    }
  }

  lemma KindIsNamed(s: Step, k: Kind)
    ensures Named(s, PhaseNode(s.id + Suffix(k), k, Duration(s, k)))
  {}

  lemma KindPosition(c: Settings, s: Step, k: Kind)
    requires Needs(c, s, k)
    ensures exists i :: 0 <= i < |Kinds(c, s)| && Kinds(c, s)[i] == k && PhaseNodes(c, s)[i].kind == k
  {
    assert k in Kinds(c, s);
    var i :| 0 <= i < |Kinds(c, s)| && Kinds(c, s)[i] == k;
    assert PhaseNodes(c, s)[i].kind == k;
  }

  lemma KindsInOrder(c: Settings, s: Step, i: nat, j: nat)
    requires i < j < |Kinds(c, s)|
    ensures Before(Kinds(c, s)[i], Kinds(c, s)[j])
  {
  }

  lemma KindIsNeeded(c: Settings, s: Step, i: nat)
    requires i < |Kinds(c, s)|
    ensures Needs(c, s, Kinds(c, s)[i])
  {
  }

  // ---------------------------------------------------------------------------
  // Colliding node ids
  // ---------------------------------------------------------------------------

  /** Step `t`'s own verify node gets the id of the verify node inserted after `s`. */
  predicate Collides(c: Settings, s: Step, t: Step) {
    c.autoVerify && s.requiresVerification && t.kind.Verify? && t.id == s.id + "-auto"
  }

  ghost predicate HasCollision(c: Settings, plan: seq<Step>) {
    exists i, j :: 0 <= i < |plan| && 0 <= j < |plan| && Collides(c, plan[i], plan[j])
  }

  /** The last four letters tell all suffixes apart but the two that verify. */
  function Ending(k: Kind): string {
    match k
    case Thinking => "hink"
    case Retrieval => "ieve"
    case Checkpoint => "oint"
    case Tool => "tool"
    case Compensation => "sate"
    case Tokenize => "nize"
    case Decode => "rate"
    case Verification => "rify"
    case Approving => "oval"
    case Committing => "mmit"
    case AutoVerify => "rify"
  }

  lemma EndingOf(id: string, k: Kind)
    ensures |Suffix(k)| >= 4 && (id + Suffix(k))[|id + Suffix(k)| - 4..] == Ending(k)
  {
    SuffixEnding(k);
    LastFour(id, Suffix(k));
  }

  lemma SuffixEnding(k: Kind)
    ensures |Suffix(k)| >= 4 && Suffix(k)[|Suffix(k)| - 4..] == Ending(k)
  {}

  lemma LastFour(a: string, s: string)
    requires |s| >= 4
    ensures (a + s)[|a + s| - 4..] == s[|s| - 4..]
  {}

  lemma EndingsDiffer(k: Kind, m: Kind)
    requires Ending(k) == Ending(m)
    ensures k == m || (k in {Verification, AutoVerify} && m in {Verification, AutoVerify})
  {
    assert Ending(k)[0] == Ending(m)[0] && Ending(k)[1] == Ending(m)[1] && Ending(k)[2] == Ending(m)[2] && Ending(k)[3] == Ending(m)[3];
  }

  lemma Cancel(a: string, b: string, s: string)
    requires a + s == b + s
    ensures a == b
  {
    assert |a| == |b| && a == (a + s)[..|a|] && b == (b + s)[..|a|];
  }

  lemma VerifyClash(a: string, b: string)
    ensures a + "-auto-verify" == b + "-verify" <==> b == a + "-auto"
  {
    assert "-auto-verify" == "-auto" + "-verify";
    assert a + "-auto-verify" == (a + "-auto") + "-verify";
    if a + "-auto-verify" == b + "-verify" {
      Cancel(a + "-auto", b, "-verify");
    }
  }

  lemma SuffixesClash(a: string, k: Kind, b: string, m: Kind)
    requires a + Suffix(k) == b + Suffix(m)
    ensures (a == b && k == m) || (k == AutoVerify && m == Verification && b == a + "-auto") || (k == Verification && m == AutoVerify && a == b + "-auto")
  {
    EndingOf(a, k);
    EndingOf(b, m);
    EndingsDiffer(k, m);
    if k == m {
      Cancel(a, b, Suffix(k));
    } else {
      VerifyClash(a, b);
      VerifyClash(b, a);
    }
  }

  lemma KindsOccurOnce(c: Settings, s: Step)
    ensures NoDup(Kinds(c, s))
    ensures Verification in Kinds(c, s) <==> s.kind.Verify?
    ensures AutoVerify in Kinds(c, s) <==> c.autoVerify && s.requiresVerification
  {}

  lemma ChainOccursOnce(c: Settings, s: Step)
    ensures NoDup(Chain(c, s))
  {
    KindsOccurOnce(c, s);
    var ks := Kinds(c, s);
    forall i, j | 0 <= i < j < |ks| ensures Chain(c, s)[i] != Chain(c, s)[j] {
      if Chain(c, s)[i] == Chain(c, s)[j] {
        SuffixesClash(s.id, ks[i], s.id, ks[j]);
      }
    }
  }

  /** Two steps share a node id only by colliding. */
  lemma SharedNode(c: Settings, s: Step, t: Step, x: string)
    requires x in Chain(c, s) && x in Chain(c, t)
    ensures s.id == t.id || Collides(c, s, t) || Collides(c, t, s)
  {
    var i :| 0 <= i < |Chain(c, s)| && Chain(c, s)[i] == x;
    var j :| 0 <= j < |Chain(c, t)| && Chain(c, t)[j] == x;
    KindsOccurOnce(c, s);
    KindsOccurOnce(c, t);
    assert Kinds(c, s)[i] in Kinds(c, s) && Kinds(c, t)[j] in Kinds(c, t);
    SuffixesClash(s.id, Kinds(c, s)[i], t.id, Kinds(c, t)[j]);
  }

  /** A collision is one node id in two chains. */
  lemma CollisionShares(c: Settings, s: Step, t: Step) returns (x: string)
    requires Collides(c, s, t)
    ensures x in Chain(c, s) && x in Chain(c, t) && s.id != t.id && |Chain(c, s)| > 1 && x == End(Chain(c, s))
  {
    var n := |Chain(c, s)| - 1;
    x := End(Chain(c, s));
    assert Kinds(c, s)[n] == AutoVerify && Kinds(c, t)[0] == Verification;
    VerifyClash(s.id, t.id);
    assert x == Chain(c, t)[0];
    assert |t.id| == |s.id| + 5;
  }

  // ---------------------------------------------------------------------------
  // The lowering loop
  // ---------------------------------------------------------------------------

  function Chains(c: Settings, plan: seq<Step>): (chains: seq<seq<string>>)
    ensures Fits(plan, chains)
  {
    seq(|plan|, i requires 0 <= i < |plan| => Chain(c, plan[i]))
  }

  function PhaseLists(c: Settings, plan: seq<Step>): seq<seq<PhaseNode>> {
    seq(|plan|, i requires 0 <= i < |plan| => PhaseNodes(c, plan[i]))
  }

  function Concat(lists: seq<seq<PhaseNode>>, n: nat): seq<PhaseNode>
    requires n <= |lists|
  {
    if n == 0 then [] else Concat(lists, n - 1) + lists[n - 1]
  }

  /** The node list the compiler builds. */
  function LoweredNodes(c: Settings, plan: seq<Step>): seq<PhaseNode> {
    Concat(PhaseLists(c, plan), |plan|)
  }

  /** The edge list the compiler builds. */
  ghost function LoweredEdges(c: Settings, plan: seq<Step>): Edges<string> {
    AllEdges(plan, Chains(c, plan))
  }

  function NodeIds(nodes: seq<PhaseNode>): seq<string> {
    seq(|nodes|, i requires 0 <= i < |nodes| => nodes[i].id)
  }

  lemma ChainIds(c: Settings, s: Step)
    ensures NodeIds(PhaseNodes(c, s)) == Chain(c, s)
  {}

  method Link(lasts: map<string, string>, deps: seq<string>, first: string, edges0: Edges<string>) returns (edges: Edges<string>)
    ensures edges == edges0 + DependencyLinks(lasts, deps, first)
  {
    edges := edges0;
    for k := 0 to |deps|
      invariant edges == edges0 + DependencyLinks(lasts, deps[..k], first)
    {
      assert deps[..k + 1][..k] == deps[..k];
      if deps[k] in lasts {
        edges := edges + [(lasts[deps[k]], first)];
      }
    }
    assert deps[..|deps|] == deps;
  }

  /** One step's inner loop: the previous node decides between chain edge and dependency links. */
  method LowerStep(phases: seq<PhaseNode>, deps: seq<string>, lasts: map<string, string>, nodes0: seq<PhaseNode>, edges0: Edges<string>)
    returns (nodes: seq<PhaseNode>, edges: Edges<string>, last: string)
    requires |phases| > 0
    ensures nodes == nodes0 + phases && last == phases[|phases| - 1].id
    ensures edges == edges0 + (DependencyLinks(lasts, deps, phases[0].id) + ChainEdges(NodeIds(phases)))
  {
    ghost var chain := NodeIds(phases);
    ghost var links := DependencyLinks(lasts, deps, chain[0]);
    nodes, edges := nodes0, edges0;
    var prev: Option<string> := None;
    for i := 0 to |phases|
      invariant prev == if i == 0 then None else Some(chain[i - 1])
      invariant nodes == nodes0 + phases[..i]
      invariant edges == edges0 + if i == 0 then [] else links + ChainEdges(chain[..i])
    {
      var id := phases[i].id;
      if prev.Some? {
        edges := edges + [(prev.value, id)];
        assert ChainEdges(chain[..i + 1]) == ChainEdges(chain[..i]) + [(chain[i - 1], id)];
      } else {
        edges := Link(lasts, deps, id, edges);
        assert ChainEdges(chain[..1]) == [];
      }
      prev := Some(id);
      nodes := nodes + [phases[i]];
    }
    assert chain[..|phases|] == chain && phases[..|phases|] == phases;
    last := prev.value;
  }

  /** Each list is the phases of its step, and each chain their ids. */
  ghost predicate Elaborates(c: Settings, plan: seq<Step>, lists: seq<seq<PhaseNode>>, chains: seq<seq<string>>) {
    && |lists| == |chains| == |plan|
    && forall i {:trigger PhaseNodes(c, plan[i])} :: 0 <= i < |plan| ==>
      lists[i] == PhaseNodes(c, plan[i]) && NodeIds(lists[i]) == chains[i]
  }

  /** A step's turn in the outer loop. */
  method LowerNext(c: Settings, plan: seq<Step>, ghost lists: seq<seq<PhaseNode>>, ghost chains: seq<seq<string>>, i: nat,
                   nodes0: seq<PhaseNode>, edges0: Edges<string>, lasts0: map<string, string>)
    returns (nodes: seq<PhaseNode>, edges: Edges<string>, lasts: map<string, string>)
    requires Fits(plan, chains) && Elaborates(c, plan, lists, chains) && i < |plan|
    ensures nodes == nodes0 + lists[i] && edges == edges0 + StepEdges(lasts0, plan[i].dependsOn, chains[i])
    ensures lasts == lasts0[plan[i].id := End(chains[i])]
  {
    var phases := StepToPhaseNodes(c, plan[i]);
    var last;
    nodes, edges, last := LowerStep(phases, plan[i].dependsOn, lasts0, nodes0, edges0);
    lasts := lasts0[plan[i].id := last];
  }

  /** The outer loop, over the steps of the plan. */
  method LowerAll(c: Settings, plan: seq<Step>, ghost lists: seq<seq<PhaseNode>>, ghost chains: seq<seq<string>>) returns (nodes: seq<PhaseNode>, edges: Edges<string>)
    requires Fits(plan, chains) && Elaborates(c, plan, lists, chains)
    ensures nodes == Concat(lists, |lists|) && edges == AllEdges(plan, chains)
  {
    nodes, edges := [], [];
    var lasts: map<string, string> := map[];
    for i := 0 to |plan|
      invariant nodes == Concat(lists, i) && edges == LaidEdges(plan, chains, i) && lasts == Lasts(plan, chains, i)
    {
      nodes, edges, lasts := LowerNext(c, plan, lists, chains, i, nodes, edges, lasts);
    }
  }

  method Lower(c: Settings, plan: seq<Step>) returns (nodes: seq<PhaseNode>, edges: Edges<string>)
    ensures nodes == LoweredNodes(c, plan) && edges == LoweredEdges(c, plan)
  {
    forall i | 0 <= i < |plan| ensures NodeIds(PhaseLists(c, plan)[i]) == Chains(c, plan)[i] {
      ChainIds(c, plan[i]);
    }
    nodes, edges := LowerAll(c, plan, PhaseLists(c, plan), Chains(c, plan));
  }

  lemma {:induction false} ConcatIds(lists: seq<seq<PhaseNode>>, chains: seq<seq<string>>, n: nat)
    requires n <= |lists| == |chains| && forall i :: 0 <= i < |lists| ==> NodeIds(lists[i]) == chains[i]
    ensures NodeIds(Concat(lists, n)) == LaidIds(chains, n)
  {
    if n > 0 {
      ConcatIds(lists, chains, n - 1);
    }
  }

  lemma NodeIdsAre(c: Settings, plan: seq<Step>)
    ensures NodeIds(LoweredNodes(c, plan)) == LaidIds(Chains(c, plan), |plan|)
  {
    forall i | 0 <= i < |plan| ensures NodeIds(PhaseLists(c, plan)[i]) == Chains(c, plan)[i] {
      ChainIds(c, plan[i]);
    }
    ConcatIds(PhaseLists(c, plan), Chains(c, plan), |plan|);
  }

  /** The nodes from `from` to `to` are the phases of the step, each joined to the next. */
  ghost predicate StepLaid(c: Settings, s: Step, nodes: seq<PhaseNode>, edges: Edges<string>, from: nat, to: nat) {
    && from < to <= |nodes| && Shape(c, s, nodes[from..to])
    && forall i :: from <= i < to - 1 ==> (nodes[i].id, nodes[i + 1].id) in edges
  }

  /** The node list is the phases of the steps, one step after the other, and nothing else. */
  ghost predicate PhasesLaid(c: Settings, plan: seq<Step>, nodes: seq<PhaseNode>, edges: Edges<string>) {
    exists at: seq<nat> ::
      && |at| == |plan| + 1 && at[0] == 0 && at[|plan|] == |nodes|
      && forall j :: 0 <= j < |plan| ==> StepLaid(c, plan[j], nodes, edges, at[j], at[j + 1])
  }

  /** Where each step's nodes begin. */
  function Starts(lists: seq<seq<PhaseNode>>): seq<nat> {
    seq(|lists| + 1, j requires 0 <= j <= |lists| => |Concat(lists, j)|)
  }

  lemma {:induction false} ConcatSegment(lists: seq<seq<PhaseNode>>, n: nat, j: nat)
    requires j < n <= |lists|
    ensures |Concat(lists, j)| + |lists[j]| == |Concat(lists, j + 1)| <= |Concat(lists, n)|
    ensures Concat(lists, n)[|Concat(lists, j)|..|Concat(lists, j + 1)|] == lists[j]
    decreases n
  {
    if j < n - 1 {
      ConcatSegment(lists, n - 1, j);
      assert Concat(lists, n)[..|Concat(lists, n - 1)|] == Concat(lists, n - 1);
    }
  }

  lemma ChainIsJoined(c: Settings, plan: seq<Step>, j: nat, k: nat)
    requires Ordered(plan) && j < |plan| && k + 1 < |PhaseNodes(c, plan[j])|
    ensures (PhaseNodes(c, plan[j])[k].id, PhaseNodes(c, plan[j])[k + 1].id) in LoweredEdges(c, plan)
  {
    var x, y := PhaseNodes(c, plan[j])[k].id, PhaseNodes(c, plan[j])[k + 1].id;
    ChainIds(c, plan[j]);
    assert x == Chains(c, plan)[j][k] && y == Chains(c, plan)[j][k + 1];
    assert ChainHop(Chains(c, plan)[j], x, y) && SomeHop(plan, Chains(c, plan), j, x, y);
    EdgesAre(plan, Chains(c, plan), |plan|, x, y);
  }

  ghost predicate Joined(list: seq<PhaseNode>, edges: Edges<string>) {
    forall k :: 0 <= k < |list| - 1 ==> (list[k].id, list[k + 1].id) in edges
  }

  lemma SegmentIsLaid(c: Settings, s: Step, list: seq<PhaseNode>, nodes: seq<PhaseNode>, edges: Edges<string>, from: nat, to: nat)
    requires from < to <= |nodes| && nodes[from..to] == list && Shape(c, s, list) && Joined(list, edges)
    ensures StepLaid(c, s, nodes, edges, from, to)
  {
    forall i | from <= i < to - 1 ensures (nodes[i].id, nodes[i + 1].id) in edges {
      assert nodes[i] == list[i - from] && nodes[i + 1] == list[i + 1 - from];
    }
  }

  lemma ListIsLaid(c: Settings, s: Step, lists: seq<seq<PhaseNode>>, j: nat, edges: Edges<string>)
    requires j < |lists| && |lists[j]| > 0 && Shape(c, s, lists[j]) && Joined(lists[j], edges)
    ensures StepLaid(c, s, Concat(lists, |lists|), edges, Starts(lists)[j], Starts(lists)[j + 1])
  {
    ConcatSegment(lists, |lists|, j);
    SegmentIsLaid(c, s, lists[j], Concat(lists, |lists|), edges, Starts(lists)[j], Starts(lists)[j + 1]);
  }

  lemma StepIsJoined(c: Settings, plan: seq<Step>, j: nat)
    requires Ordered(plan) && j < |plan|
    ensures Joined(PhaseNodes(c, plan[j]), LoweredEdges(c, plan))
  {
    forall k | 0 <= k < |PhaseNodes(c, plan[j])| - 1
      ensures (PhaseNodes(c, plan[j])[k].id, PhaseNodes(c, plan[j])[k + 1].id) in LoweredEdges(c, plan)
    {
      ChainIsJoined(c, plan, j, k);
    }
  }

  lemma StepIsLaid(c: Settings, plan: seq<Step>, j: nat)
    requires Ordered(plan) && j < |plan|
    ensures var at := Starts(PhaseLists(c, plan));
            StepLaid(c, plan[j], LoweredNodes(c, plan), LoweredEdges(c, plan), at[j], at[j + 1])
  {
    PhasesHaveShape(c, plan[j]);
    StepIsJoined(c, plan, j);
    ListIsLaid(c, plan[j], PhaseLists(c, plan), j, LoweredEdges(c, plan));
  }

  lemma LoweredIsLaid(c: Settings, plan: seq<Step>)
    requires Ordered(plan)
    ensures PhasesLaid(c, plan, LoweredNodes(c, plan), LoweredEdges(c, plan))
  {
    var nodes, edges, at := LoweredNodes(c, plan), LoweredEdges(c, plan), Starts(PhaseLists(c, plan));
    forall j | 0 <= j < |plan| ensures StepLaid(c, plan[j], nodes, edges, at[j], at[j + 1]) {
      StepIsLaid(c, plan, j);
    }
  }

  // ---------------------------------------------------------------------------
  // Dependency meaning
  // ---------------------------------------------------------------------------

  lemma NoCollisionIsDisjoint(c: Settings, plan: seq<Step>)
    requires Ordered(plan) && !HasCollision(c, plan)
    ensures Disjoint(Chains(c, plan))
  {
    var chains := Chains(c, plan);
    forall i | 0 <= i < |chains| ensures NoDup(chains[i]) {
      ChainOccursOnce(c, plan[i]);
    }
    forall i, j, x | 0 <= i < |chains| && 0 <= j < |chains| && x in chains[i] && x in chains[j] ensures i == j {
      SharedNode(c, plan[i], plan[j], x);
      SameId(plan, i, j);
    }
  }

  /** The compiler preserves dependency meaning exactly when no two node ids collide. */
  lemma MeaningIffNoCollision(c: Settings, plan: seq<Step>)
    requires Ordered(plan)
    ensures Meaning(plan, Chains(c, plan)) <==> !HasCollision(c, plan)
  {
    if HasCollision(c, plan) {
      var i, j :| 0 <= i < |plan| && 0 <= j < |plan| && Collides(c, plan[i], plan[j]);
      var x := CollisionShares(c, plan[i], plan[j]);
      SharedBreaksMeaning(plan, Chains(c, plan), i, j, x);
    } else {
      NoCollisionIsDisjoint(c, plan);
      DisjointMeaning(plan, Chains(c, plan));
    }
  }

  /** Two steps whose ids differ by "-auto" make an accepted program with a wrong graph. */
  lemma CollisionExists() returns (c: Settings, plan: seq<Step>)
    ensures Ordered(plan) && HasCollision(c, plan) && !Meaning(plan, Chains(c, plan))
  {
    c := Settings(true, true);
    var a := Step("a", Generate, [], 50, false, false, true, false, 10);
    var b := Step("a-auto", Verify, [], 0, false, false, false, false, 10);
    plan := [a, b];
    assert Ids(plan) == ["a", "a-auto"];
    assert "a" + "-auto" == "a-auto" && Collides(c, plan[0], plan[1]);
    MeaningIffNoCollision(c, plan);
  }

  lemma CollisionRepeats(c: Settings, plan: seq<Step>)
    requires Ordered(plan) && HasCollision(c, plan)
    ensures !NoDup(LaidIds(Chains(c, plan), |plan|))
  {
    var chains := Chains(c, plan);
    var i, j :| 0 <= i < |plan| && 0 <= j < |plan| && Collides(c, plan[i], plan[j]);
    var x := CollisionShares(c, plan[i], plan[j]);
    if i < j {
      SharedTwice(chains, |chains|, i, j, x);
    } else {
      SharedTwice(chains, |chains|, j, i, x);
    }
  }

  /** Node ids are distinct exactly when nothing collides. */
  lemma NodeIdsDistinct(c: Settings, plan: seq<Step>)
    requires Ordered(plan)
    ensures NoDup(NodeIds(LoweredNodes(c, plan))) <==> !HasCollision(c, plan)
  {
    NodeIdsAre(c, plan);
    if HasCollision(c, plan) {
      CollisionRepeats(c, plan);
    } else {
      NoCollisionIsDisjoint(c, plan);
      LaidOnce(Chains(c, plan), |plan|);
    }
  }

  /** Without a collision every edge goes forward in the node list, so the graph is acyclic. */
  lemma NodeListInOrder(c: Settings, plan: seq<Step>)
    requires Ordered(plan) && !HasCollision(c, plan)
    ensures var ids := NodeIds(LoweredNodes(c, plan));
            && Topological(LoweredEdges(c, plan), ids)
            && Within(Elements(ids), LoweredEdges(c, plan)) && Acyclic(LoweredEdges(c, plan))
  {
    NodeIdsAre(c, plan);
    NoCollisionIsDisjoint(c, plan);
    LaidInOrder(plan, Chains(c, plan));
  }
}
