/** What holds of every evidence graph that is built: no dangling edge, no cycle, a path to the
    verdict from everything but unresolved references, and evidence ids that resolve to one object. */
module GraphProperties {
  import opened Wrappers
  import opened Strings
  import opened Json
  import opened EvidenceGraph

  /** Every edge goes from a lower to a higher rank. */
  function Rank(kind: NodeKind): nat {
    match kind
    case EvaluatorAuthority => 0
    case SkillProvenance => 0
    case RuntimeKind => 0
    case AgentKind => 0
    case ModelKind => 0
    case HarnessPlan => 1
    case VerificationCheck => 1
    case SecurityFinding => 1
    case EvidenceObject => 2
    case EvidenceBundle => 3
    case HarnessVerdict => 4
    case UnresolvedReference => 5
  }

  ghost predicate Connects(e: Edge, s: Node, t: Node) {
    e.source == s.id && e.target == t.id && Rank(s.kind) < Rank(t.kind)
  }

  ghost predicate Raises(nodes: seq<Node>, e: Edge) {
    exists s, t :: s in nodes && t in nodes && Connects(e, s, t)
  }

  ghost predicate AllRaise(nodes: seq<Node>, edges: seq<Edge>) {
    forall e :: e in edges ==> Raises(nodes, e)
  }

  ghost predicate Contains(nodes: seq<Node>, part: seq<Node>) {
    forall n :: n in part ==> n in nodes
  }

  // --------------------------------------------------------------- the index of ids

  lemma {:induction false} SourceIsItem(env: Env, items: seq<Item>, raw: string) returns (j: nat)
    requires raw in Sources(env, items)
    ensures j < |items| && SourceId(items[j]) == Some(raw) && Sources(env, items)[raw] == ItemNode(env, items[j]).id
  {
    hide ItemNode, SourceId;
    var last := |items| - 1;
    if SourceId(items[last]) == Some(raw) {
      j := last;
    } else {
      j := SourceIsItem(env, items[..last], raw);
    }
  }

  lemma {:induction false} ItemIsSource(env: Env, items: seq<Item>, j: nat)
    requires j < |items| && SourceId(items[j]).Some? && UnambiguousIds(items)
    ensures SourceId(items[j]).value in Sources(env, items)
    ensures Sources(env, items)[SourceId(items[j]).value] == ItemNode(env, items[j]).id
    decreases |items|
  {
    hide ItemNode, SourceId;
    var last := |items| - 1;
    if j < last {
      ItemIsSource(env, items[..last], j);
      assert SourceId(items[j]) != SourceId(items[last]);
    }
  }

  lemma {:induction false} ItemNodeIn(env: Env, items: seq<Item>, j: nat)
    requires j < |items|
    ensures ItemNode(env, items[j]) in ItemNodes(env, items)
    decreases |items|
  {
    hide ItemNode;
    if j < |items| - 1 {
      ItemNodeIn(env, items[..|items| - 1], j);
    }
  }

  // -------------------------------------------------------------- every edge raises

  lemma LinkRaises(env: Env, nodes: seq<Node>, s: Node, t: Node, relation: Relation)
    requires s in nodes && t in nodes && Rank(s.kind) < Rank(t.kind)
    ensures Raises(nodes, Link(env, s, t, relation))
  {
    hide Link;
    assert Connects(Link(env, s, t, relation), s, t);
  }

  lemma FixedRaise(env: Env, x: Inputs, nodes: seq<Node>)
    requires Contains(nodes, FixedNodes(env, x))
    ensures AllRaise(nodes, FixedEdges(env, x))
  {
    FixedKinds(env, x);
    hide AuthorityNode, PlanNode, SkillNode, RuntimeNode, AgentNode, ModelNode, EvidenceNode, VerdictNode, Link;
    FixedMembers(env, x);
    var a, p, s, r, g, m, v, d := AuthorityNode(env, x), PlanNode(env, x), SkillNode(env, x), RuntimeNode(env, x),
      AgentNode(env, x), ModelNode(env, x), EvidenceNode(env, x), VerdictNode(env, x);
    hide Raises, FixedNodes;
    LinkRaises(env, nodes, a, p, Authorizes);
    LinkRaises(env, nodes, s, p, InputTo);
    LinkRaises(env, nodes, r, p, Configures);
    LinkRaises(env, nodes, g, p, Configures);
    LinkRaises(env, nodes, m, p, Configures);
    LinkRaises(env, nodes, p, v, Produces);
    LinkRaises(env, nodes, v, d, EvaluatedBy);
    LinkRaises(env, nodes, a, d, AuthorizesEvaluation);
  }

  lemma FixedKinds(env: Env, x: Inputs)
    ensures AuthorityNode(env, x).kind == EvaluatorAuthority && PlanNode(env, x).kind == HarnessPlan
    ensures SkillNode(env, x).kind == SkillProvenance && RuntimeNode(env, x).kind == RuntimeKind
    ensures AgentNode(env, x).kind == AgentKind && ModelNode(env, x).kind == ModelKind
    ensures EvidenceNode(env, x).kind == EvidenceBundle && VerdictNode(env, x).kind == HarnessVerdict
  {
  }

  lemma FixedMembers(env: Env, x: Inputs)
    ensures var f := FixedNodes(env, x);
            && AuthorityNode(env, x) in f && PlanNode(env, x) in f && SkillNode(env, x) in f && RuntimeNode(env, x) in f
            && AgentNode(env, x) in f && ModelNode(env, x) in f && EvidenceNode(env, x) in f && VerdictNode(env, x) in f
  {
    hide AuthorityNode, PlanNode, SkillNode, RuntimeNode, AgentNode, ModelNode, EvidenceNode, VerdictNode;
  }

  lemma {:induction false} ItemsRaise(env: Env, x: Inputs, nodes: seq<Node>, items: seq<Item>)
    requires EvidenceNode(env, x) in nodes && Contains(nodes, ItemNodes(env, items))
    ensures AllRaise(nodes, ItemEdges(env, x, items))
    decreases |items|
  {
    hide ItemNode, EvidenceNode, ItemEdge, Raises;
    if items != [] {
      ItemRaises(env, x, nodes, items[|items| - 1]);
      ItemsRaise(env, x, nodes, items[..|items| - 1]);
    }
  }

  lemma ItemRaises(env: Env, x: Inputs, nodes: seq<Node>, item: Item)
    requires EvidenceNode(env, x) in nodes && ItemNode(env, item) in nodes
    ensures Raises(nodes, ItemEdge(env, x, item))
  {
    hide ItemNode, EvidenceNode, ItemEdge, Connects;
    ItemConnects(env, x, item);
  }

  lemma ItemConnects(env: Env, x: Inputs, item: Item)
    ensures Connects(ItemEdge(env, x, item), ItemNode(env, item), EvidenceNode(env, x))
    ensures EvidenceNode(env, x).kind == EvidenceBundle
  {
    hide EvidenceNode, ItemNode, ItemAttributes, MakeEdge, MakeNode;
    FixedKinds(env, x);
  }

  /** The targets of references: each known evidence id leads to a node for an evidence object. */
  ghost predicate Targets(nodes: seq<Node>, sources: map<string, string>) {
    forall raw :: raw in sources ==> exists t :: t in nodes && t.id == sources[raw] && t.kind == EvidenceObject
  }

  lemma TargetsOfSources(env: Env, nodes: seq<Node>, items: seq<Item>)
    requires Contains(nodes, ItemNodes(env, items))
    ensures Targets(nodes, Sources(env, items))
  {
    forall raw | raw in Sources(env, items)
      ensures exists t :: t in nodes && t.id == Sources(env, items)[raw] && t.kind == EvidenceObject
    {
      var j := SourceIsItem(env, items, raw);
      ItemNodeIn(env, items, j);
    }
  }

  lemma CheckRaises(env: Env, x: Inputs, nodes: seq<Node>, check: Json, sources: map<string, string>)
    requires Contains(nodes, FixedNodes(env, x)) && Targets(nodes, sources)
    requires GoodCheck(env, check, sources) && CheckNode(env, check.members) in nodes
    ensures AllRaise(nodes, CheckEdges(env, x, check.members, sources))
  {
    assert check.JObject?;
    FixedInside(env, x, nodes);
    hide *;
    var c := check.members;
    LinkRaises(env, nodes, CheckNode(env, c), VerdictNode(env, x), Supports) by { KindRanks(env, x); }
    LinkRaises(env, nodes, AuthorityNode(env, x), CheckNode(env, c), Authorizes) by { KindRanks(env, x); }
    forall e | e in CheckEdges(env, x, c, sources) ensures Raises(nodes, e) {
      CheckEdgeCases(env, x, c, sources, e);
      if e in ReferenceEdges(env, c, CheckReferences(c), sources) {
        ReferenceRaises(env, nodes, check, sources, e);
      }
    }
    RaiseEach(nodes, CheckEdges(env, x, c, sources));
  }

  lemma RaiseEach(nodes: seq<Node>, edges: seq<Edge>)
    requires forall e :: e in edges ==> Raises(nodes, e)
    ensures AllRaise(nodes, edges)
  {
  }

  lemma CheckEdgeCases(env: Env, x: Inputs, c: Object, sources: map<string, string>, e: Edge)
    requires e in CheckEdges(env, x, c, sources)
    ensures || e == Link(env, CheckNode(env, c), VerdictNode(env, x), Supports)
            || e == Link(env, AuthorityNode(env, x), CheckNode(env, c), Authorizes)
            || e in ReferenceEdges(env, c, CheckReferences(c), sources)
  {
    hide CheckNode, VerdictNode, AuthorityNode, Link, ReferenceEdges, CheckReferences;
  }

  lemma KindRanks(env: Env, x: Inputs)
    ensures forall c :: Rank(AuthorityNode(env, x).kind) < Rank(CheckNode(env, c).kind) < Rank(VerdictNode(env, x).kind)
    ensures forall f :: Rank(FindingNode(env, f).kind) < Rank(VerdictNode(env, x).kind)
    ensures forall f, raw :: Rank(FindingNode(env, f).kind) < Rank(UnresolvedNode(env, raw).kind)
  {
    hide AuthorityNode, VerdictNode, CheckNode, FindingNode, UnresolvedNode, PlanNode, SkillNode, RuntimeNode,
         AgentNode, ModelNode, EvidenceNode;
    FixedKinds(env, x);
  }

  lemma FixedInside(env: Env, x: Inputs, nodes: seq<Node>)
    requires Contains(nodes, FixedNodes(env, x))
    ensures AuthorityNode(env, x) in nodes && PlanNode(env, x) in nodes && VerdictNode(env, x) in nodes
    ensures EvidenceNode(env, x) in nodes
  {
    FixedMembers(env, x);
    hide FixedNodes;
  }

  lemma ReferenceRaises(env: Env, nodes: seq<Node>, check: Json, sources: map<string, string>, e: Edge)
    requires GoodCheck(env, check, sources) && CheckNode(env, check.members) in nodes && Targets(nodes, sources)
    requires e in ReferenceEdges(env, check.members, CheckReferences(check.members), sources)
    ensures Raises(nodes, e)
  {
    hide CheckNode, MakeEdge, CheckReferences, Distinct;
    var ids := CheckReferences(check.members);
    var i :| 0 <= i < |ids| && e == ReferenceEdges(env, check.members, ids, sources)[i];
    hide ReferenceEdges;
    var raw := ids[i].s;
    var t :| t in nodes && t.id == sources[raw] && t.kind == EvidenceObject;
    assert Connects(e, CheckNode(env, check.members), t);
  }

  lemma {:induction false} ChecksRaise(env: Env, x: Inputs, nodes: seq<Node>, checks: seq<Json>,
                                       sources: map<string, string>)
    requires Contains(nodes, FixedNodes(env, x)) && Targets(nodes, sources)
    requires Contains(nodes, CheckNodes(env, checks))
    requires forall i :: 0 <= i < |checks| ==> GoodCheck(env, checks[i], sources)
    ensures AllRaise(nodes, AllCheckEdges(env, x, checks, sources))
    decreases |checks|
  {
    hide CheckNode, CheckEdges, FixedNodes, Targets, Raises;
    if checks != [] {
      var last := |checks| - 1;
      assert GoodCheck(env, checks[last], sources);
      assert CheckNode(env, Members(checks[last])) in CheckNodes(env, checks);
      CheckRaises(env, x, nodes, checks[last], sources);
      hide GoodCheck;
      ChecksRaise(env, x, nodes, checks[..last], sources);
    }
  }

  lemma FindingRaises(env: Env, x: Inputs, nodes: seq<Node>, finding: Object, sources: map<string, string>)
    requires Contains(nodes, FixedNodes(env, x)) && Targets(nodes, sources)
    requires Contains(nodes, FindingNodes(env, finding, sources))
    ensures AllRaise(nodes, FindingEdges(env, x, finding, sources))
  {
    hide *;
    FixedInside(env, x, nodes);
    FindingMembers(env, finding, sources);
    FindingIn(env, nodes, finding, sources);
    var edges := FindingEdges(env, x, finding, sources);
    forall e | e in edges ensures Raises(nodes, e) {
      FindingEdgeCases(env, x, finding, sources, e);
      if e == Link(env, FindingNode(env, finding), VerdictNode(env, x), Constrains) {
        LinkRaises(env, nodes, FindingNode(env, finding), VerdictNode(env, x), Constrains) by { KindRanks(env, x); }
      } else if Named(env, finding).value in sources {
        DerivedRaises(env, nodes, finding, sources, Named(env, finding).value);
      } else {
        var u := UnresolvedNode(env, Named(env, finding).value);
        LinkRaises(env, nodes, FindingNode(env, finding), u, ReferencesMissing) by { KindRanks(env, x); }
      }
    }
    RaiseEach(nodes, edges);
  }

  lemma FindingEdgeCases(env: Env, x: Inputs, finding: Object, sources: map<string, string>, e: Edge)
    requires e in FindingEdges(env, x, finding, sources)
    ensures || e == Link(env, FindingNode(env, finding), VerdictNode(env, x), Constrains)
            || (Named(env, finding).Some?
                && var raw := Named(env, finding).value;
                   if raw in sources
                   then e == MakeEdge(env, FindingNode(env, finding).id, sources[raw], DerivedFrom, JObject([]))
                   else e == Link(env, FindingNode(env, finding), UnresolvedNode(env, raw), ReferencesMissing))
  {
    hide FindingNode, VerdictNode, UnresolvedNode, Link, MakeEdge, Named;
  }

  lemma FindingIn(env: Env, nodes: seq<Node>, finding: Object, sources: map<string, string>)
    requires Contains(nodes, FindingNodes(env, finding, sources))
    ensures FindingNode(env, finding) in nodes
    ensures Named(env, finding).Some? && Named(env, finding).value !in sources ==>
              UnresolvedNode(env, Named(env, finding).value) in nodes
  {
    FindingMembers(env, finding, sources);
    hide FindingNodes, FindingNode, UnresolvedNode, Named;
  }

  lemma DerivedRaises(env: Env, nodes: seq<Node>, finding: Object, sources: map<string, string>, raw: string)
    requires FindingNode(env, finding) in nodes && Targets(nodes, sources) && raw in sources
    ensures Raises(nodes, MakeEdge(env, FindingNode(env, finding).id, sources[raw], DerivedFrom, JObject([])))
  {
    hide FindingNode, MakeEdge;
    var t :| t in nodes && t.id == sources[raw] && t.kind == EvidenceObject;
    assert Connects(MakeEdge(env, FindingNode(env, finding).id, sources[raw], DerivedFrom, JObject([])),
                    FindingNode(env, finding), t);
  }

  lemma FindingMembers(env: Env, finding: Object, sources: map<string, string>)
    ensures FindingNode(env, finding) in FindingNodes(env, finding, sources)
    ensures IsMissing(env, finding, sources) ==>
              UnresolvedNode(env, Named(env, finding).value) in FindingNodes(env, finding, sources)
  {
    hide FindingNode, UnresolvedNode, Named;
  }

  lemma {:induction false} FindingsRaise(env: Env, x: Inputs, nodes: seq<Node>, findings: seq<Json>,
                                         sources: map<string, string>)
    requires Contains(nodes, FixedNodes(env, x)) && Targets(nodes, sources)
    requires Contains(nodes, AllFindingNodes(env, findings, sources))
    ensures AllRaise(nodes, AllFindingEdges(env, x, findings, sources))
    decreases |findings|
  {
    hide FindingNodes, FindingEdges, FixedNodes, Targets, Raises;
    if findings != [] {
      var last := |findings| - 1;
      FindingRaises(env, x, nodes, Members(findings[last]), sources);
      FindingsRaise(env, x, nodes, findings[..last], sources);
    }
  }

  /** Every edge of a buildable graph joins two of its nodes, the second of higher rank. */
  lemma EdgesRaise(env: Env, x: Inputs)
    requires Buildable(env, x)
    ensures AllRaise(AllNodes(env, x), AllEdges(env, x))
  {
    hide FixedNodes, FixedEdges, ItemNodes, ItemEdges, CheckNodes, AllCheckEdges, AllFindingNodes, AllFindingEdges,
         GoodCheck, GoodFinding, Items, Sources, HasSections, Checks, CheckList, Findings, NodeIds, EdgeIds,
         UnambiguousIds, Raises;
    var nodes, items := AllNodes(env, x), Items(env, x.evidence);
    var sources := Sources(env, items);
    FixedMembers(env, x);
    TargetsOfSources(env, nodes, items);
    FixedRaise(env, x, nodes);
    ItemsRaise(env, x, nodes, items);
    ChecksRaise(env, x, nodes, CheckList(x), sources);
    FindingsRaise(env, x, nodes, ListOf(Findings(x)), sources);
  }
}
