/** Paths in an evidence graph: there is no cycle, and the nodes with a path to the verdict are
    exactly those that are not unresolved references. */
module GraphReach {
  import opened Strings
  import opened Json
  import opened EvidenceGraph
  import opened GraphProperties

  predicate UniqueIds(nodes: seq<Node>) {
    forall m, n :: m in nodes && n in nodes && m.id == n.id ==> m == n
  }

  predicate NoDangling(nodes: seq<Node>, edges: seq<Edge>) {
    forall e :: e in edges ==> e.source in NodeIds(nodes) && e.target in NodeIds(nodes)
  }

  /** Edges each of which starts where the one before ends. */
  predicate IsPath(edges: seq<Edge>, path: seq<Edge>) {
    && (forall i :: 0 <= i < |path| ==> path[i] in edges)
    && (forall i :: 0 <= i < |path| - 1 ==> path[i].target == path[i + 1].source)
  }

  ghost predicate IsPathFromTo(edges: seq<Edge>, path: seq<Edge>, source: string, target: string) {
    path != [] && IsPath(edges, path) && path[0].source == source && path[|path| - 1].target == target
  }

  ghost predicate Reaches(edges: seq<Edge>, source: string, target: string) {
    exists path :: IsPathFromTo(edges, path, source, target)
  }

  ghost predicate Acyclic(edges: seq<Edge>) {
    forall id :: !Reaches(edges, id, id)
  }

  /** An edge from the node towards the verdict. */
  ghost predicate Leads(nodes: seq<Node>, edges: seq<Edge>, n: Node) {
    exists e, t :: e in edges && t in nodes && t.kind != UnresolvedReference && Connects(e, n, t)
  }

  predicate IsInner(n: Node) {
    n.kind != HarnessVerdict && n.kind != UnresolvedReference
  }

  ghost predicate Sound(nodes: seq<Node>, edges: seq<Edge>, verdict: Node) {
    && UniqueIds(nodes) && AllRaise(nodes, edges)
    && verdict in nodes && (forall n :: n in nodes && n.kind == HarnessVerdict ==> n == verdict)
    && (forall n :: n in nodes && IsInner(n) ==> Leads(nodes, edges, n))
  }

  // ------------------------------------------------------ consequences of soundness

  lemma RaiseEnds(nodes: seq<Node>, edges: seq<Edge>, e: Edge) returns (s: Node, t: Node)
    requires AllRaise(nodes, edges) && e in edges
    ensures s in nodes && t in nodes && s.id == e.source && t.id == e.target && Rank(s.kind) < Rank(t.kind)
  {
    hide Rank;
    assert Raises(nodes, e);
    s, t :| s in nodes && t in nodes && Connects(e, s, t);
  }

  /** Along a path the rank goes up by at least one an edge. */
  lemma {:induction false} PathRises(nodes: seq<Node>, edges: seq<Edge>, path: seq<Edge>) returns (s: Node, t: Node)
    requires UniqueIds(nodes) && AllRaise(nodes, edges) && path != [] && IsPath(edges, path)
    ensures s in nodes && t in nodes && s.id == path[0].source && t.id == path[|path| - 1].target
    ensures Rank(s.kind) + |path| <= Rank(t.kind)
    decreases |path|
  {
    hide Rank, AllRaise;
    var last := |path| - 1;
    s, t := RaiseEnds(nodes, edges, path[last]);
    if last > 0 {
      assert path[..last][last - 1].target == path[last].source;
      var s', t' := PathRises(nodes, edges, path[..last]);
      s := s';
    }
  }

  lemma NeverBack(nodes: seq<Node>, edges: seq<Edge>)
    requires UniqueIds(nodes) && AllRaise(nodes, edges)
    ensures Acyclic(edges)
  {
    hide Rank, UniqueIds, AllRaise;
    forall id | Reaches(edges, id, id) ensures false {
      var path :| IsPathFromTo(edges, path, id, id);
      var s, t := PathRises(nodes, edges, path);
      assert s == t by { SameNode(nodes, s, t); }
    }
  }

  lemma SameNode(nodes: seq<Node>, m: Node, n: Node)
    requires UniqueIds(nodes) && m in nodes && n in nodes && m.id == n.id
    ensures m == n
  {
  }

  lemma {:induction false} InnerReaches(nodes: seq<Node>, edges: seq<Edge>, verdict: Node, n: Node)
    requires Sound(nodes, edges, verdict) && n in nodes && IsInner(n)
    ensures Reaches(edges, n.id, verdict.id)
    decreases 5 - Rank(n.kind)
  {
    hide AllRaise, UniqueIds, Leads, Rank, Reaches;
    var e, t := LeadStep(nodes, edges, n);
    UnresolvedTop(t.kind);
    if t.kind == HarnessVerdict {
      OneStep(edges, e);
    } else {
      InnerReaches(nodes, edges, verdict, t);
      FirstStep(edges, e, verdict.id);
    }
  }

  lemma LeadStep(nodes: seq<Node>, edges: seq<Edge>, n: Node) returns (e: Edge, t: Node)
    requires Leads(nodes, edges, n)
    ensures e in edges && t in nodes && t.kind != UnresolvedReference
    ensures e.source == n.id && e.target == t.id && Rank(n.kind) < Rank(t.kind)
  {
    hide Rank;
    e, t :| e in edges && t in nodes && t.kind != UnresolvedReference && Connects(e, n, t);
  }

  lemma OneStep(edges: seq<Edge>, e: Edge)
    requires e in edges
    ensures Reaches(edges, e.source, e.target)
  {
    assert IsPathFromTo(edges, [e], e.source, e.target);
  }

  lemma FirstStep(edges: seq<Edge>, e: Edge, target: string)
    requires e in edges && Reaches(edges, e.target, target)
    ensures Reaches(edges, e.source, target)
  {
    var path :| IsPathFromTo(edges, path, e.target, target);
    assert IsPathFromTo(edges, [e] + path, e.source, target);
  }

  /** A node other than the verdict has a path to it exactly when it is no unresolved reference. */
  lemma ReachesVerdict(nodes: seq<Node>, edges: seq<Edge>, verdict: Node, n: Node)
    requires Sound(nodes, edges, verdict) && n in nodes && n != verdict
    ensures Reaches(edges, n.id, verdict.id) <==> n.kind != UnresolvedReference
  {
    if n.kind != UnresolvedReference {
      InnerReaches(nodes, edges, verdict, n);
    } else if Reaches(edges, n.id, verdict.id) {
      hide AllRaise, Rank, UniqueIds;
      var path :| IsPathFromTo(edges, path, n.id, verdict.id);
      var s, t := PathRises(nodes, edges, path);
      SameNode(nodes, s, n);
      UnresolvedTop(t.kind);
    }
  }

  lemma UnresolvedTop(kind: NodeKind)
    ensures Rank(kind) <= Rank(UnresolvedReference) == 5
  {
  }

  lemma NothingDangles(nodes: seq<Node>, edges: seq<Edge>)
    requires AllRaise(nodes, edges)
    ensures NoDangling(nodes, edges)
  {
    hide AllRaise, Rank;
    forall e | e in edges ensures e.source in NodeIds(nodes) && e.target in NodeIds(nodes) {
      var s, t := RaiseEnds(nodes, edges, e);
      IdOf(nodes, s);
      IdOf(nodes, t);
    }
  }

  lemma IdOf(nodes: seq<Node>, n: Node)
    requires n in nodes
    ensures n.id in NodeIds(nodes)
  {
    var i :| 0 <= i < |nodes| && nodes[i] == n;
    assert NodeIds(nodes)[i] == n.id;
  }

  /** Soundness is a matter of which nodes and edges there are. */
  lemma SoundSame(nodes: seq<Node>, edges: seq<Edge>, verdict: Node, nodes': seq<Node>, edges': seq<Edge>)
    requires Sound(nodes, edges, verdict)
    requires (forall n :: n in nodes' <==> n in nodes) && (forall e :: e in edges' <==> e in edges)
    ensures Sound(nodes', edges', verdict)
  {
    hide Connects, Rank;
    forall e | e in edges' ensures Raises(nodes', e) {
      assert Raises(nodes, e);
      var s, t :| s in nodes && t in nodes && Connects(e, s, t);
      assert s in nodes' && t in nodes';
    }
    forall n | n in nodes' && IsInner(n) ensures Leads(nodes', edges', n) {
      LeadsMore(nodes, edges, n, nodes', edges');
    }
  }

  lemma LeadsMore(nodes: seq<Node>, edges: seq<Edge>, n: Node, nodes': seq<Node>, edges': seq<Edge>)
    requires Leads(nodes, edges, n)
    requires (forall m :: m in nodes ==> m in nodes') && (forall e :: e in edges ==> e in edges')
    ensures Leads(nodes', edges', n)
  {
    hide Connects, Rank;
    var e, t :| e in edges && t in nodes && t.kind != UnresolvedReference && Connects(e, n, t);
    assert e in edges' && t in nodes';
  }

  // ------------------------------------------------------- the built graph is sound

  lemma DistinctUnique(nodes: seq<Node>)
    requires Distinct(NodeIds(nodes))
    ensures UniqueIds(nodes)
  {
    forall m, n | m in nodes && n in nodes && m.id == n.id ensures m == n {
      var i :| 0 <= i < |nodes| && nodes[i] == m;
      var j :| 0 <= j < |nodes| && nodes[j] == n;
      assert NodeIds(nodes)[i] == NodeIds(nodes)[j];
    }
  }

  lemma LinkLeads(env: Env, nodes: seq<Node>, edges: seq<Edge>, s: Node, t: Node, relation: Relation)
    requires t in nodes && Link(env, s, t, relation) in edges
    requires Rank(s.kind) < Rank(t.kind) && t.kind != UnresolvedReference
    ensures Leads(nodes, edges, s)
  {
    hide Link;
    assert Connects(Link(env, s, t, relation), s, t);
  }

  lemma FixedEdgeMembers(env: Env, x: Inputs)
    ensures var edges := FixedEdges(env, x);
            && Link(env, AuthorityNode(env, x), PlanNode(env, x), Authorizes) in edges
            && Link(env, SkillNode(env, x), PlanNode(env, x), InputTo) in edges
            && Link(env, RuntimeNode(env, x), PlanNode(env, x), Configures) in edges
            && Link(env, AgentNode(env, x), PlanNode(env, x), Configures) in edges
            && Link(env, ModelNode(env, x), PlanNode(env, x), Configures) in edges
            && Link(env, PlanNode(env, x), EvidenceNode(env, x), Produces) in edges
            && Link(env, EvidenceNode(env, x), VerdictNode(env, x), EvaluatedBy) in edges
  {
    hide AuthorityNode, PlanNode, SkillNode, RuntimeNode, AgentNode, ModelNode, EvidenceNode, VerdictNode, Link;
  }

  lemma FixedRanks(env: Env, x: Inputs)
    ensures Rank(AuthorityNode(env, x).kind) == Rank(SkillNode(env, x).kind) == Rank(RuntimeNode(env, x).kind) == 0
    ensures Rank(AgentNode(env, x).kind) == Rank(ModelNode(env, x).kind) == 0
    ensures Rank(PlanNode(env, x).kind) == 1 && Rank(EvidenceNode(env, x).kind) == 3
    ensures Rank(VerdictNode(env, x).kind) == 4 && !IsInner(VerdictNode(env, x))
  {
    FixedKinds(env, x);
    hide AuthorityNode, PlanNode, SkillNode, RuntimeNode, AgentNode, ModelNode, EvidenceNode, VerdictNode;
  }

  lemma FixedLeads(env: Env, x: Inputs, n: Node)
    requires n in FixedNodes(env, x) && IsInner(n)
    ensures Leads(FixedNodes(env, x), FixedEdges(env, x), n)
  {
    hide *;
    FixedMembers(env, x);
    FixedKinds(env, x);
    FixedEdgeMembers(env, x);
    FixedRanks(env, x);
    FixedCases(env, x, n);
    var nodes, edges := FixedNodes(env, x), FixedEdges(env, x);
    var plan, evidence := PlanNode(env, x), EvidenceNode(env, x);
    LinkLeads(env, nodes, edges, AuthorityNode(env, x), plan, Authorizes);
    LinkLeads(env, nodes, edges, SkillNode(env, x), plan, InputTo);
    LinkLeads(env, nodes, edges, RuntimeNode(env, x), plan, Configures);
    LinkLeads(env, nodes, edges, AgentNode(env, x), plan, Configures);
    LinkLeads(env, nodes, edges, ModelNode(env, x), plan, Configures);
    LinkLeads(env, nodes, edges, plan, evidence, Produces);
    LinkLeads(env, nodes, edges, evidence, VerdictNode(env, x), EvaluatedBy);
  }

  lemma FixedCases(env: Env, x: Inputs, n: Node)
    requires n in FixedNodes(env, x)
    ensures || n == AuthorityNode(env, x) || n == PlanNode(env, x) || n == SkillNode(env, x) || n == RuntimeNode(env, x)
            || n == AgentNode(env, x) || n == ModelNode(env, x) || n == EvidenceNode(env, x) || n == VerdictNode(env, x)
  {
    hide AuthorityNode, PlanNode, SkillNode, RuntimeNode, AgentNode, ModelNode, EvidenceNode, VerdictNode;
  }

  lemma {:induction false} ItemOf(env: Env, x: Inputs, items: seq<Item>, n: Node) returns (j: nat)
    requires n in ItemNodes(env, items)
    ensures j < |items| && n == ItemNode(env, items[j]) && ItemEdge(env, x, items[j]) in ItemEdges(env, x, items)
    decreases |items|
  {
    hide ItemNode, ItemEdge;
    var last := |items| - 1;
    if n == ItemNode(env, items[last]) {
      j := last;
    } else {
      j := ItemOf(env, x, items[..last], n);
    }
  }

  lemma {:induction false} CheckOf(env: Env, x: Inputs, checks: seq<Json>, sources: map<string, string>, n: Node)
    returns (j: nat)
    requires n in CheckNodes(env, checks)
    ensures j < |checks| && n == CheckNode(env, Members(checks[j]))
    ensures Link(env, n, VerdictNode(env, x), Supports) in AllCheckEdges(env, x, checks, sources)
    decreases |checks|
  {
    hide CheckNode, VerdictNode, AuthorityNode, Link, ReferenceEdges, CheckReferences, Members;
    var last := |checks| - 1;
    if n == CheckNode(env, Members(checks[last])) {
      j := last;
    } else {
      j := CheckOf(env, x, checks[..last], sources, n);
    }
  }

  lemma {:induction false} FindingOf(env: Env, x: Inputs, findings: seq<Json>, sources: map<string, string>, n: Node)
    returns (j: nat)
    requires n in AllFindingNodes(env, findings, sources)
    ensures j < |findings| && n in FindingNodes(env, Members(findings[j]), sources)
    ensures Link(env, FindingNode(env, Members(findings[j])), VerdictNode(env, x), Constrains)
            in AllFindingEdges(env, x, findings, sources)
    decreases |findings|
  {
    hide FindingNodes, FindingNode, VerdictNode, Link, Named, MakeEdge, UnresolvedNode, Members;
    var last := |findings| - 1;
    if n in FindingNodes(env, Members(findings[last]), sources) {
      j := last;
    } else {
      j := FindingOf(env, x, findings[..last], sources, n);
    }
  }

  lemma FindingCases(env: Env, finding: Object, sources: map<string, string>, n: Node)
    requires n in FindingNodes(env, finding, sources)
    ensures n == FindingNode(env, finding) || (IsMissing(env, finding, sources) && n.kind == UnresolvedReference)
  {
    hide FindingNode, Named;
  }

  lemma NodeCases(env: Env, x: Inputs, n: Node)
    requires n in AllNodes(env, x)
    ensures var items := Items(env, x.evidence);
            || n in FixedNodes(env, x) || n in ItemNodes(env, items) || n in CheckNodes(env, CheckList(x))
            || n in AllFindingNodes(env, ListOf(Findings(x)), Sources(env, items))
  {
    hide FixedNodes, ItemNodes, CheckNodes, AllFindingNodes, Items, Sources, CheckList, Findings, ListOf;
  }

  lemma EdgesInside(env: Env, x: Inputs)
    ensures var items, edges := Items(env, x.evidence), AllEdges(env, x);
            && (forall e :: e in FixedEdges(env, x) || e in ItemEdges(env, x, items) ==> e in edges)
            && (forall e :: e in AllCheckEdges(env, x, CheckList(x), Sources(env, items)) ==> e in edges)
            && (forall e :: e in AllFindingEdges(env, x, ListOf(Findings(x)), Sources(env, items)) ==> e in edges)
  {
    hide FixedEdges, ItemEdges, AllCheckEdges, AllFindingEdges, Items, Sources, CheckList, Findings, ListOf;
  }

  lemma FixedIn(env: Env, x: Inputs)
    ensures forall n :: n in FixedNodes(env, x) ==> n in AllNodes(env, x)
    ensures EvidenceNode(env, x) in AllNodes(env, x) && VerdictNode(env, x) in AllNodes(env, x)
  {
    FixedMembers(env, x);
    hide FixedNodes, ItemNodes, CheckNodes, AllFindingNodes, Items, Sources, CheckList, Findings, ListOf;
  }

  lemma ItemLeads(env: Env, x: Inputs, n: Node)
    requires n in ItemNodes(env, Items(env, x.evidence))
    ensures n.kind == EvidenceObject && Leads(AllNodes(env, x), AllEdges(env, x), n)
  {
    hide *;
    var items := Items(env, x.evidence);
    FixedIn(env, x);
    EdgesInside(env, x);
    var j := ItemOf(env, x, items, n);
    var e := ItemEdge(env, x, items[j]);
    ItemConnects(env, x, items[j]);
    OneLeads(AllNodes(env, x), AllEdges(env, x), e, n, EvidenceNode(env, x));
  }

  lemma OneLeads(nodes: seq<Node>, edges: seq<Edge>, e: Edge, n: Node, t: Node)
    requires e in edges && t in nodes && t.kind != UnresolvedReference && Connects(e, n, t)
    ensures Leads(nodes, edges, n)
  {
    hide Connects;
  }

  lemma AllLead(env: Env, x: Inputs, n: Node)
    requires n in AllNodes(env, x) && IsInner(n)
    ensures Leads(AllNodes(env, x), AllEdges(env, x), n)
  {
    hide *;
    var items, nodes, edges := Items(env, x.evidence), AllNodes(env, x), AllEdges(env, x);
    var sources := Sources(env, items);
    FixedIn(env, x);
    EdgesInside(env, x);
    NodeCases(env, x, n);
    FixedKinds(env, x);
    KindRanks(env, x);
    if n in FixedNodes(env, x) {
      FixedLeads(env, x, n);
      LeadsMore(FixedNodes(env, x), FixedEdges(env, x), n, nodes, edges);
    } else if n in ItemNodes(env, items) {
      ItemLeads(env, x, n);
    } else if n in CheckNodes(env, CheckList(x)) {
      var j := CheckOf(env, x, CheckList(x), sources, n);
      LinkLeads(env, nodes, edges, n, VerdictNode(env, x), Supports);
    } else {
      var j := FindingOf(env, x, ListOf(Findings(x)), sources, n);
      FindingCases(env, Members(ListOf(Findings(x))[j]), sources, n);
      NotUnresolved(n);
      LinkLeads(env, nodes, edges, n, VerdictNode(env, x), Constrains);
    }
  }

  lemma NotUnresolved(n: Node)
    requires IsInner(n)
    ensures n.kind != UnresolvedReference
  {
  }

  lemma OneVerdict(env: Env, x: Inputs, n: Node)
    requires n in AllNodes(env, x) && n.kind == HarnessVerdict
    ensures n == VerdictNode(env, x)
  {
    hide *;
    var items := Items(env, x.evidence);
    NodeCases(env, x, n);
    FixedKinds(env, x);
    if n in FixedNodes(env, x) {
      FixedCases(env, x, n);
    } else if n in ItemNodes(env, items) {
      ItemLeads(env, x, n);
    } else if n in CheckNodes(env, CheckList(x)) {
      var j := CheckOf(env, x, CheckList(x), Sources(env, items), n);
    } else {
      var j := FindingOf(env, x, ListOf(Findings(x)), Sources(env, items), n);
      FindingCases(env, Members(ListOf(Findings(x))[j]), Sources(env, items), n);
    }
  }

  lemma BuildableSound(env: Env, x: Inputs)
    requires Buildable(env, x)
    ensures Sound(AllNodes(env, x), AllEdges(env, x), VerdictNode(env, x))
  {
    EdgesRaise(env, x);
    DistinctUnique(AllNodes(env, x)) by { hide AllNodes, AllEdges; }
    hide *;
    FixedIn(env, x);
    forall n | n in AllNodes(env, x) && n.kind == HarnessVerdict ensures n == VerdictNode(env, x) {
      OneVerdict(env, x, n);
    }
    forall n | n in AllNodes(env, x) && IsInner(n) ensures Leads(AllNodes(env, x), AllEdges(env, x), n) {
      AllLead(env, x, n);
    }
    MakeSound(AllNodes(env, x), AllEdges(env, x), VerdictNode(env, x));
  }

  lemma MakeSound(nodes: seq<Node>, edges: seq<Edge>, verdict: Node)
    requires UniqueIds(nodes) && AllRaise(nodes, edges)
    requires verdict in nodes && (forall n :: n in nodes && n.kind == HarnessVerdict ==> n == verdict)
    requires forall n :: n in nodes && IsInner(n) ==> Leads(nodes, edges, n)
    ensures Sound(nodes, edges, verdict)
  {
    hide UniqueIds, AllRaise, IsInner, Leads;
  }
}
