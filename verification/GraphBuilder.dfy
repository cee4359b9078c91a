/** The loops that build the evidence graph (src/skill_native/run_artifact_graph.py,
    `_build_graph`) and the graph validator that its result goes through. */
module GraphBuilder {
  import opened Wrappers
  import opened Strings
  import opened Json
  import opened EvidenceGraph
  import opened GraphProperties
  import opened GraphReach
  import opened GraphReferences

  /** The graph holds exactly the expected nodes and edges, each once, in the order of their ids. */
  ghost predicate IsGraphOf(env: Env, x: Inputs, g: Graph) {
    && g.runId == Text(x.plan, "run_id")
    && (forall n :: n in g.nodes <==> n in AllNodes(env, x)) && StrictlySorted(NodeIds(g.nodes))
    && (forall e :: e in g.edges <==> e in AllEdges(env, x)) && StrictlySorted(EdgeIds(g.edges))
  }

  lemma {:induction false} SourcesSnoc(env: Env, items: seq<Item>, i: nat)
    requires i < |items| && UnambiguousIds(items[..i])
    ensures UnambiguousIds(items[..i + 1]) <==>
            SourceId(items[i]) == None || SourceId(items[i]).value !in Sources(env, items[..i])
  {
    hide SourceId, ItemNode, Sources;
    var head := items[..i];
    assert items[..i + 1] == head + [items[i]];
    if SourceId(items[i]).Some? {
      var raw := SourceId(items[i]).value;
      if raw in Sources(env, head) {
        var j := SourceIsItem(env, head, raw);
        assert SourceId(items[..i + 1][j]) == SourceId(items[..i + 1][i]);
      } else {
        forall j | 0 <= j < i && SourceId(head[j]).Some? ensures SourceId(head[j]) != SourceId(items[i]) {
          ItemIsSource(env, head, j);
        }
      }
    }
  }

  lemma UnambiguousPrefix(items: seq<Item>, i: nat)
    requires i <= |items| && !UnambiguousIds(items[..i])
    ensures !UnambiguousIds(items)
  {
    hide SourceId;
    assert forall j :: 0 <= j < i ==> items[..i][j] == items[j];
  }

  /** The loop over the evidence objects, with the index of their ids. */
  method AddItems(env: Env, x: Inputs, items: seq<Item>, nodes0: seq<Node>, edges0: seq<Edge>)
    returns (ok: bool, nodes: seq<Node>, edges: seq<Edge>, sources: map<string, string>)
    ensures ok <==> UnambiguousIds(items)
    ensures ok ==> nodes == nodes0 + ItemNodes(env, items) && edges == edges0 + ItemEdges(env, x, items)
    ensures ok ==> sources == Sources(env, items)
  {
    hide ItemNode, ItemEdge, SourceId, UnambiguousIds;
    nodes, edges, sources := nodes0, edges0, map[];
    assert UnambiguousIds([]) by { EmptyUnambiguous(); }
    assert items[..0] == [];
    for i := 0 to |items|
      invariant nodes == nodes0 + ItemNodes(env, items[..i]) && edges == edges0 + ItemEdges(env, x, items[..i])
      invariant sources == Sources(env, items[..i]) && UnambiguousIds(items[..i])
    {
      assert items[..i + 1][..i] == items[..i] && items[..i + 1][i] == items[i];
      SourcesSnoc(env, items, i);
      var id := SourceId(items[i]);
      nodes := nodes + [ItemNode(env, items[i])];
      edges := edges + [ItemEdge(env, x, items[i])];
      if id.Some? {
        if id.value in sources {
          UnambiguousPrefix(items, i + 1);
          return false, nodes, edges, sources;
        }
        sources := sources[id.value := ItemNode(env, items[i]).id];
      }
    }
    assert items[..|items|] == items;
    ok := true;
  }

  lemma EmptyUnambiguous()
    ensures UnambiguousIds([])
  {
  }

  /** The loop over the evidence ids of a check. */
  method AddReferences(env: Env, check: Object, ids: seq<Json>, sources: map<string, string>, edges0: seq<Edge>)
    returns (ok: bool, edges: seq<Edge>)
    ensures ok <==> forall k :: 0 <= k < |ids| ==> ids[k].JString? && ids[k].s != "" && ids[k].s in sources
    ensures ok ==> edges == edges0 + ReferenceEdges(env, check, ids, sources)
  {
    hide CheckNode, MakeEdge, ReferenceEdges;
    edges := edges0;
    ghost var all := ReferenceEdges(env, check, ids, sources);
    for i := 0 to |ids|
      invariant edges == edges0 + all[..i]
      invariant forall k :: 0 <= k < i ==> ids[k].JString? && ids[k].s != "" && ids[k].s in sources
    {
      if !ids[i].JString? || ids[i].s == "" || ids[i].s !in sources {
        return false, edges;
      }
      edges := edges + [MakeEdge(env, CheckNode(env, check).id, sources[ids[i].s], References, JObject([]))];
      assert all[..i + 1] == all[..i] + [all[i]];
    }
    ok := true;
  }

  /** The body of the loop over the checks. */
  method AddCheck(env: Env, x: Inputs, check: Json, sources: map<string, string>, nodes0: seq<Node>, edges0: seq<Edge>)
    returns (ok: bool, nodes: seq<Node>, edges: seq<Edge>)
    ensures ok <==> GoodCheck(env, check, sources)
    ensures ok ==> nodes == nodes0 + [CheckNode(env, Members(check))]
    ensures ok ==> edges == edges0 + CheckEdges(env, x, Members(check), sources)
  {
    hide CheckNode, MakeEdge, Link, AuthorityNode, VerdictNode, Distinct, GetOr;
    ok, nodes, edges := false, nodes0, edges0;
    if !check.JObject? {
      return;
    }
    var node := CheckNode(env, check.members);
    nodes := nodes + [node];
    edges := edges + [Link(env, node, VerdictNode(env, x), Supports),
                      Link(env, AuthorityNode(env, x), node, Authorizes)];
    var value := GetOr(check.members, "evidence_ids", JList([]));
    if !value.JList? {
      return;
    }
    var ids := value.items;
    if !Distinct(StrAll(env, ids)) {
      return;
    }
    ok, edges := AddReferences(env, check.members, ids, sources, edges);
    hide ReferenceEdges;
  }

  /** The body of the loop over the findings. */
  method AddFinding(env: Env, x: Inputs, finding: Json, sources: map<string, string>,
                    nodes0: seq<Node>, edges0: seq<Edge>)
    returns (ok: bool, nodes: seq<Node>, edges: seq<Edge>)
    ensures ok <==> GoodFinding(env, x, finding, sources)
    ensures ok ==> nodes == nodes0 + FindingNodes(env, Members(finding), sources)
    ensures ok ==> edges == edges0 + FindingEdges(env, x, Members(finding), sources)
  {
    hide FindingNode, UnresolvedNode, MakeEdge, Link, VerdictNode, GetOr, Passing, Str;
    ok, nodes, edges := false, nodes0, edges0;
    if !finding.JObject? {
      return;
    }
    var node := FindingNode(env, finding.members);
    nodes := nodes + [node];
    edges := edges + [Link(env, node, VerdictNode(env, x), Constrains)];
    var id := Get(finding.members, "evidence_id");
    if id == JNull || id == JString("") {
      return true, nodes, edges;
    }
    var raw := Str(env, id);
    if raw !in sources {
      if Passing(x) {
        return;
      }
      var unresolved := UnresolvedNode(env, raw);
      nodes := nodes + [unresolved];
      edges := edges + [Link(env, node, unresolved, ReferencesMissing)];
    } else {
      edges := edges + [MakeEdge(env, node.id, sources[raw], DerivedFrom, JObject([]))];
    }
    ok := true;
  }

  method AddChecks(env: Env, x: Inputs, checks: seq<Json>, sources: map<string, string>,
                   nodes0: seq<Node>, edges0: seq<Edge>)
    returns (ok: bool, nodes: seq<Node>, edges: seq<Edge>)
    ensures ok <==> forall i :: 0 <= i < |checks| ==> GoodCheck(env, checks[i], sources)
    ensures ok ==> nodes == nodes0 + CheckNodes(env, checks) && edges == edges0 + AllCheckEdges(env, x, checks, sources)
  {
    hide CheckNode, CheckEdges, GoodCheck, Members;
    nodes, edges := nodes0, edges0;
    assert checks[..0] == [];
    for i := 0 to |checks|
      invariant nodes == nodes0 + CheckNodes(env, checks[..i])
      invariant edges == edges0 + AllCheckEdges(env, x, checks[..i], sources)
      invariant forall k :: 0 <= k < i ==> GoodCheck(env, checks[k], sources)
    {
      ok, nodes, edges := AddCheck(env, x, checks[i], sources, nodes, edges);
      if !ok {
        return;
      }
      assert checks[..i + 1][..i] == checks[..i] && checks[..i + 1][i] == checks[i];
    }
    assert checks[..|checks|] == checks;
    ok := true;
  }

  method AddFindings(env: Env, x: Inputs, findings: seq<Json>, sources: map<string, string>,
                     nodes0: seq<Node>, edges0: seq<Edge>)
    returns (ok: bool, nodes: seq<Node>, edges: seq<Edge>)
    ensures ok <==> forall i :: 0 <= i < |findings| ==> GoodFinding(env, x, findings[i], sources)
    ensures ok ==> nodes == nodes0 + AllFindingNodes(env, findings, sources)
    ensures ok ==> edges == edges0 + AllFindingEdges(env, x, findings, sources)
  {
    hide FindingNodes, FindingEdges, GoodFinding, Members;
    nodes, edges := nodes0, edges0;
    assert findings[..0] == [];
    for i := 0 to |findings|
      invariant nodes == nodes0 + AllFindingNodes(env, findings[..i], sources)
      invariant edges == edges0 + AllFindingEdges(env, x, findings[..i], sources)
      invariant forall k :: 0 <= k < i ==> GoodFinding(env, x, findings[k], sources)
    {
      ok, nodes, edges := AddFinding(env, x, findings[i], sources, nodes, edges);
      if !ok {
        return;
      }
      assert findings[..i + 1][..i] == findings[..i] && findings[..i + 1][i] == findings[i];
    }
    assert findings[..|findings|] == findings;
    ok := true;
  }

  function NodeId(n: Node): string { n.id }

  function EdgeId(e: Edge): string { e.id }

  lemma NodeIdsAreKeys(nodes: seq<Node>)
    ensures NodeIds(nodes) == Keys(nodes, NodeId)
  {
    hide Keys, NodeIds;
  }

  lemma NodeKeys(nodes: seq<Node>)
    ensures Distinct(NodeIds(SortBy(nodes, NodeId))) <==> Distinct(NodeIds(nodes))
    ensures Distinct(NodeIds(nodes)) ==> StrictlySorted(NodeIds(SortBy(nodes, NodeId)))
  {
    SortDistinct(nodes, NodeId);
    hide *;
    NodeIdsAreKeys(nodes);
    NodeIdsAreKeys(SortBy(nodes, NodeId));
  }

  lemma EdgeIdsAreKeys(edges: seq<Edge>)
    ensures EdgeIds(edges) == Keys(edges, EdgeId)
  {
    hide Keys, EdgeIds;
  }

  lemma EdgeKeys(edges: seq<Edge>)
    ensures Distinct(EdgeIds(SortBy(edges, EdgeId))) <==> Distinct(EdgeIds(edges))
    ensures Distinct(EdgeIds(edges)) ==> StrictlySorted(EdgeIds(SortBy(edges, EdgeId)))
  {
    SortDistinct(edges, EdgeId);
    hide *;
    EdgeIdsAreKeys(edges);
    EdgeIdsAreKeys(SortBy(edges, EdgeId));
  }

  /** The graph validator, apart from the digests. */
  predicate ValidGraph(g: Graph) {
    Distinct(NodeIds(g.nodes)) && Distinct(EdgeIds(g.edges)) && NoDangling(g.nodes, g.edges)
  }

  /** A graph is built exactly when the verdict can be bundled; the refusal of dangling edges never
      comes into it. The graph that is built has no cycle, and exactly its unresolved references
      have no path to the verdict; they occur only where neither the status nor the gate passes. */
  method BuildGraph(env: Env, x: Inputs) returns (r: Option<Graph>)
    ensures r.Some? <==> Buildable(env, x)
    ensures r.Some? ==> IsGraphOf(env, x, r.value) && ValidGraph(r.value) && Acyclic(r.value.edges)
    ensures r.Some? ==> forall n :: n in r.value.nodes && n != VerdictNode(env, x) ==>
              (Reaches(r.value.edges, n.id, VerdictNode(env, x).id) <==> n.kind != UnresolvedReference)
    ensures r.Some? ==> forall n :: n in r.value.nodes && n.kind == UnresolvedReference ==> !Passing(x)
  {
    AllParts(env, x);
    hide HasSections, UnambiguousIds, Items, Sources, Checks, Iterate, CheckList, Findings, GoodCheck, GoodFinding,
         Distinct, AllNodes, AllEdges, FixedNodes, FixedEdges, ItemNodes, ItemEdges, CheckNodes, AllCheckEdges,
         AllFindingNodes, AllFindingEdges, SortBy, SortedBy, StrictlySorted, Reaches, Acyclic, IsGraphOf, ValidGraph,
         Passing, VerdictNode, Text, NodeIds, EdgeIds;
    if !HasSections(x.plan) {
      return None;
    }
    var nodes, edges := FixedNodes(env, x), FixedEdges(env, x);
    var ok, sources;
    ok, nodes, edges, sources := AddItems(env, x, Items(env, x.evidence), nodes, edges);
    if !ok {
      return None;
    }
    if Iterate(Checks(x)) == None {
      return None;
    }
    ok, nodes, edges := AddChecks(env, x, CheckList(x), sources, nodes, edges);
    if !ok || !Findings(x).JList? {
      return None;
    }
    ok, nodes, edges := AddFindings(env, x, ListOf(Findings(x)), sources, nodes, edges);
    if !ok {
      return None;
    }
    assert nodes == AllNodes(env, x) && edges == AllEdges(env, x);
    var g := Graph(Text(x.plan, "run_id"), SortBy(nodes, NodeId), SortBy(edges, EdgeId));
    NodeKeys(nodes);
    EdgeKeys(edges);
    if Buildable(env, x) {
      Finished(env, x, g);
    }
    NotValid(g);
    if !ValidGraph(g) {
      return None;
    }
    return Some(g);
  }

  lemma NotValid(g: Graph)
    ensures ValidGraph(g) ==> Distinct(NodeIds(g.nodes)) && Distinct(EdgeIds(g.edges))
  {
  }

  lemma AllParts(env: Env, x: Inputs)
    ensures var items := Items(env, x.evidence);
            var sources := Sources(env, items);
            && AllNodes(env, x) == FixedNodes(env, x) + ItemNodes(env, items) + CheckNodes(env, CheckList(x))
                                   + AllFindingNodes(env, ListOf(Findings(x)), sources)
            && AllEdges(env, x) == FixedEdges(env, x) + ItemEdges(env, x, items)
                                   + AllCheckEdges(env, x, CheckList(x), sources)
                                   + AllFindingEdges(env, x, ListOf(Findings(x)), sources)
  {
    hide FixedNodes, FixedEdges, ItemNodes, ItemEdges, CheckNodes, AllCheckEdges, AllFindingNodes, AllFindingEdges,
         Items, Sources, CheckList, Findings, ListOf;
  }

  lemma Finished(env: Env, x: Inputs, g: Graph)
    requires Buildable(env, x) && g.runId == Text(x.plan, "run_id")
    requires g.nodes == SortBy(AllNodes(env, x), NodeId) && g.edges == SortBy(AllEdges(env, x), EdgeId)
    ensures IsGraphOf(env, x, g) && ValidGraph(g) && Acyclic(g.edges)
    ensures forall n :: n in g.nodes && n != VerdictNode(env, x) ==>
              (Reaches(g.edges, n.id, VerdictNode(env, x).id) <==> n.kind != UnresolvedReference)
    ensures forall n :: n in g.nodes && n.kind == UnresolvedReference ==> !Passing(x)
  {
    hide *;
    BuildableUnfold(env, x);
    NodeKeys(AllNodes(env, x));
    EdgeKeys(AllEdges(env, x));
    BuildableSound(env, x);
    SoundSame(AllNodes(env, x), AllEdges(env, x), VerdictNode(env, x), g.nodes, g.edges);
    SoundParts(g.nodes, g.edges, VerdictNode(env, x));
    NeverBack(g.nodes, g.edges);
    NothingDangles(g.nodes, g.edges);
    IsGraph(env, x, g);
    forall n | n in g.nodes && n != VerdictNode(env, x)
      ensures Reaches(g.edges, n.id, VerdictNode(env, x).id) <==> n.kind != UnresolvedReference
    {
      ReachesVerdict(g.nodes, g.edges, VerdictNode(env, x), n);
    }
    forall n | n in g.nodes && n.kind == UnresolvedReference ensures !Passing(x) {
      UnresolvedMeansFailing(env, x, n);
    }
  }

  lemma SoundParts(nodes: seq<Node>, edges: seq<Edge>, verdict: Node)
    requires Sound(nodes, edges, verdict)
    ensures UniqueIds(nodes) && AllRaise(nodes, edges)
  {
    hide UniqueIds, AllRaise, IsInner, Leads;
  }

  lemma IsGraph(env: Env, x: Inputs, g: Graph)
    requires g.runId == Text(x.plan, "run_id")
    requires (forall n :: n in g.nodes <==> n in AllNodes(env, x)) && StrictlySorted(NodeIds(g.nodes))
    requires (forall e :: e in g.edges <==> e in AllEdges(env, x)) && StrictlySorted(EdgeIds(g.edges))
    requires Distinct(NodeIds(g.nodes)) && Distinct(EdgeIds(g.edges)) && NoDangling(g.nodes, g.edges)
    ensures IsGraphOf(env, x, g) && ValidGraph(g)
  {
    hide Distinct, NoDangling, StrictlySorted, AllNodes, AllEdges, NodeIds, EdgeIds, Text;
  }
}
