/** What the references in an evidence graph come to: an evidence id named by a check is carried by
    one evidence object, and an unresolved reference needs a verdict that passes in no respect. */
module GraphReferences {
  import opened Wrappers
  import opened Strings
  import opened Json
  import opened EvidenceGraph
  import opened GraphProperties
  import opened GraphReach

  /** The node stands for an evidence object with the id `raw`. */
  predicate Carries(n: Node, raw: string) {
    n.kind == EvidenceObject && n.attributes.JObject? && Get(n.attributes.members, "source_evidence_id") == JString(raw)
  }

  lemma ItemCarries(env: Env, item: Item, raw: string)
    ensures Carries(ItemNode(env, item), raw) <==> SourceId(item) == Some(raw)
  {
    hide SourceId;
    var channel := Member("channel", JString(item.channel));
    var id := if SourceId(item).Some? then [Member("source_evidence_id", JString(SourceId(item).value))] else [];
    var index := if item.index.Some? then [Member("index", JNumber(item.index.value as real))] else [];
    assert ItemAttributes(item).members == [channel] + (index + id);
    SkipOther(channel, index + id);
    if item.index.Some? {
      SkipOther(index[0], id);
    } else {
      assert index + id == id;
    }
  }

  lemma SkipOther(m: Member, rest: Object)
    requires m.key != "source_evidence_id"
    ensures Get([m] + rest, "source_evidence_id") == Get(rest, "source_evidence_id")
  {
  }

  lemma OneItem(items: seq<Item>, i: nat, j: nat, raw: string)
    requires UnambiguousIds(items) && i < |items| && j < |items|
    requires SourceId(items[i]) == Some(raw) && SourceId(items[j]) == Some(raw)
    ensures i == j
  {
    hide SourceId;
  }

  /** A node of the graph that carries an id stands for the item that the index leads to. */
  lemma CarrierIsItem(env: Env, x: Inputs, n: Node, raw: string) returns (j: nat)
    requires n in AllNodes(env, x) && Carries(n, raw)
    ensures j < |Items(env, x.evidence)| && n == ItemNode(env, Items(env, x.evidence)[j])
    ensures SourceId(Items(env, x.evidence)[j]) == Some(raw)
  {
    hide *;
    var items := Items(env, x.evidence);
    CarrierKind(n, raw);
    NodeCases(env, x, n);
    FixedKinds(env, x);
    if n in FixedNodes(env, x) {
      FixedCases(env, x, n);
    } else if n in ItemNodes(env, items) {
      j := ItemOf(env, x, items, n);
      ItemCarries(env, items[j], raw);
    } else if n in CheckNodes(env, CheckList(x)) {
      var k := CheckOf(env, x, CheckList(x), Sources(env, items), n);
    } else {
      var k := FindingOf(env, x, ListOf(Findings(x)), Sources(env, items), n);
      FindingCases(env, Members(ListOf(Findings(x))[k]), Sources(env, items), n);
    }
  }

  lemma CarrierKind(n: Node, raw: string)
    requires Carries(n, raw)
    ensures n.kind == EvidenceObject
  {
  }

  lemma {:induction false} CheckEdgesIn(env: Env, x: Inputs, checks: seq<Json>, sources: map<string, string>, k: nat)
    requires k < |checks|
    ensures forall e :: e in CheckEdges(env, x, Members(checks[k]), sources) ==>
                          e in AllCheckEdges(env, x, checks, sources)
    decreases |checks|
  {
    hide CheckEdges, Members;
    if k < |checks| - 1 {
      CheckEdgesIn(env, x, checks[..|checks| - 1], sources, k);
    }
  }

  lemma ReferenceIn(env: Env, x: Inputs, check: Object, sources: map<string, string>, i: nat)
    requires i < |CheckReferences(check)|
    requires CheckReferences(check)[i].JString? && CheckReferences(check)[i].s in sources
    ensures MakeEdge(env, CheckNode(env, check).id, sources[CheckReferences(check)[i].s], References, JObject([]))
            in CheckEdges(env, x, check, sources)
  {
    hide CheckNode, VerdictNode, AuthorityNode, Link, MakeEdge, CheckReferences;
    var ids := CheckReferences(check);
    assert ReferenceEdges(env, check, ids, sources)[i] in ReferenceEdges(env, check, ids, sources);
    hide ReferenceEdges;
  }

  lemma {:induction false} CheckNodeIn(env: Env, checks: seq<Json>, k: nat)
    requires k < |checks|
    ensures CheckNode(env, Members(checks[k])) in CheckNodes(env, checks)
    decreases |checks|
  {
    hide CheckNode, Members;
    if k < |checks| - 1 {
      CheckNodeIn(env, checks[..|checks| - 1], k);
    }
  }

  lemma ItemNodesIn(env: Env, x: Inputs)
    ensures forall n :: n in ItemNodes(env, Items(env, x.evidence)) ==> n in AllNodes(env, x)
    ensures forall n :: n in CheckNodes(env, CheckList(x)) ==> n in AllNodes(env, x)
  {
    hide FixedNodes, ItemNodes, CheckNodes, AllFindingNodes, Items, Sources, CheckList, Findings, ListOf;
  }

  lemma BuildableUnfold(env: Env, x: Inputs)
    ensures Buildable(env, x) <==>
            Acceptable(env, x) && Distinct(NodeIds(AllNodes(env, x))) && Distinct(EdgeIds(AllEdges(env, x)))
  {
    hide Acceptable, Distinct, AllNodes, AllEdges;
  }

  lemma GoodObject(env: Env, check: Json, sources: map<string, string>)
    requires GoodCheck(env, check, sources)
    ensures check.JObject? && Members(check) == check.members
  {
    hide CheckReferences, Distinct;
  }

  lemma GoodReference(env: Env, check: Json, sources: map<string, string>, i: nat)
    requires GoodCheck(env, check, sources) && i < |CheckReferences(Members(check))|
    ensures check == JObject(Members(check))
    ensures CheckReferences(Members(check))[i].JString? && CheckReferences(Members(check))[i].s in sources
  {
    hide CheckReferences, Distinct;
  }

  lemma BuildableParts(env: Env, x: Inputs, k: nat)
    requires Buildable(env, x) && k < |CheckList(x)|
    ensures UnambiguousIds(Items(env, x.evidence))
    ensures GoodCheck(env, CheckList(x)[k], Sources(env, Items(env, x.evidence)))
  {
    hide UnambiguousIds, Items, CheckList, Sources, GoodCheck, GoodFinding, AllNodes, AllEdges, HasSections, Distinct;
  }

  /** Every evidence id named by a check is carried by exactly one node of the graph, and the check
      has an edge to it. */
  lemma CheckResolves(env: Env, x: Inputs, k: nat, i: nat) returns (target: Node)
    requires Buildable(env, x)
    requires k < |CheckList(x)| && i < |CheckReferences(Members(CheckList(x)[k]))|
    ensures var check := Members(CheckList(x)[k]);
            && CheckReferences(check)[i].JString?
            && var raw := CheckReferences(check)[i].s;
               && target in AllNodes(env, x) && Carries(target, raw)
               && (forall n :: n in AllNodes(env, x) && Carries(n, raw) ==> n == target)
               && CheckNode(env, check) in AllNodes(env, x)
               && MakeEdge(env, CheckNode(env, check).id, target.id, References, JObject([])) in AllEdges(env, x)
  {
    hide *;
    var items, check := Items(env, x.evidence), Members(CheckList(x)[k]);
    var sources := Sources(env, items);
    BuildableParts(env, x, k);
    GoodReference(env, CheckList(x)[k], sources, i);
    var raw := CheckReferences(check)[i].s;
    var j := SourceIsItem(env, items, raw);
    target := ItemNode(env, items[j]);
    ItemNodeIn(env, items, j);
    ItemNodesIn(env, x);
    ItemCarries(env, items[j], raw);
    forall n | n in AllNodes(env, x) && Carries(n, raw) ensures n == target {
      var j' := CarrierIsItem(env, x, n, raw);
      OneItem(items, j, j', raw);
    }
    CheckNodeIn(env, CheckList(x), k);
    ReferenceIn(env, x, check, sources, i);
    CheckEdgesIn(env, x, CheckList(x), sources, k);
    EdgesInside(env, x);
  }

  // ------------------------------------------------------------ unresolved references

  predicate SomeMissing(env: Env, x: Inputs) {
    exists j :: 0 <= j < |ListOf(Findings(x))|
                && IsMissing(env, Members(ListOf(Findings(x))[j]), Sources(env, Items(env, x.evidence)))
  }

  lemma {:induction false} FindingNodesIn(env: Env, findings: seq<Json>, sources: map<string, string>, k: nat)
    requires k < |findings|
    ensures forall n :: n in FindingNodes(env, Members(findings[k]), sources) ==>
                          n in AllFindingNodes(env, findings, sources)
    decreases |findings|
  {
    hide FindingNodes, Members;
    if k < |findings| - 1 {
      FindingNodesIn(env, findings[..|findings| - 1], sources, k);
    }
  }

  lemma AllFindingNodesIn(env: Env, x: Inputs)
    ensures forall n :: n in AllFindingNodes(env, ListOf(Findings(x)), Sources(env, Items(env, x.evidence))) ==>
                          n in AllNodes(env, x)
  {
    hide FixedNodes, ItemNodes, CheckNodes, AllFindingNodes, Items, Sources, CheckList, Findings, ListOf;
  }

  lemma UnresolvedIsMissing(env: Env, x: Inputs, n: Node) returns (j: nat)
    requires n in AllNodes(env, x) && n.kind == UnresolvedReference
    ensures j < |ListOf(Findings(x))|
    ensures IsMissing(env, Members(ListOf(Findings(x))[j]), Sources(env, Items(env, x.evidence)))
  {
    hide *;
    var items := Items(env, x.evidence);
    NodeCases(env, x, n);
    FixedKinds(env, x);
    if n in FixedNodes(env, x) {
      FixedCases(env, x, n);
    } else if n in ItemNodes(env, items) {
      ItemLeads(env, x, n);
    } else if n in CheckNodes(env, CheckList(x)) {
      var k := CheckOf(env, x, CheckList(x), Sources(env, items), n);
    } else {
      j := FindingOf(env, x, ListOf(Findings(x)), Sources(env, items), n);
      FindingCases(env, Members(ListOf(Findings(x))[j]), Sources(env, items), n);
    }
  }

  /** There is an unresolved reference exactly when some finding names an id that nothing carries. */
  lemma UnresolvedExact(env: Env, x: Inputs)
    ensures (exists n :: n in AllNodes(env, x) && n.kind == UnresolvedReference) <==> SomeMissing(env, x)
  {
    var findings, sources := ListOf(Findings(x)), Sources(env, Items(env, x.evidence));
    if SomeMissing(env, x) {
      var j :| 0 <= j < |findings| && IsMissing(env, Members(findings[j]), sources);
      hide *;
      FindingMembers(env, Members(findings[j]), sources);
      FindingNodesIn(env, findings, sources, j);
      AllFindingNodesIn(env, x);
    }
    if n :| n in AllNodes(env, x) && n.kind == UnresolvedReference {
      hide AllNodes, Sources, Findings, ListOf, Items, IsMissing;
      var j := UnresolvedIsMissing(env, x, n);
    }
  }

  lemma FindingGood(env: Env, x: Inputs, j: nat)
    requires Buildable(env, x) && j < |ListOf(Findings(x))|
    ensures GoodFinding(env, x, ListOf(Findings(x))[j], Sources(env, Items(env, x.evidence)))
  {
    hide UnambiguousIds, Items, CheckList, Sources, GoodCheck, GoodFinding, AllNodes, AllEdges, HasSections, Distinct;
  }

  /** In a graph that is built, an unresolved reference means that neither the status nor the gate
      is a pass. */
  lemma UnresolvedMeansFailing(env: Env, x: Inputs, n: Node)
    requires Buildable(env, x) && n in AllNodes(env, x) && n.kind == UnresolvedReference
    ensures !Passing(x)
  {
    hide *;
    var j := UnresolvedIsMissing(env, x, n);
    FindingGood(env, x, j);
    MissingFails(env, x, ListOf(Findings(x))[j], Sources(env, Items(env, x.evidence)));
  }

  lemma MissingFails(env: Env, x: Inputs, finding: Json, sources: map<string, string>)
    requires GoodFinding(env, x, finding, sources) && IsMissing(env, Members(finding), sources)
    ensures !Passing(x)
  {
    hide Passing, IsMissing;
  }

  // ------------------------------------------- where a failing verdict cannot be bundled

  lemma {:induction false} FindingNodesPrefix(env: Env, findings: seq<Json>, sources: map<string, string>, k: nat)
    requires k <= |findings|
    ensures AllFindingNodes(env, findings[..k], sources) <= AllFindingNodes(env, findings, sources)
    decreases |findings|
  {
    hide FindingNodes, Members;
    if k == |findings| {
      assert findings[..k] == findings;
    } else {
      var rest := findings[..|findings| - 1];
      FindingNodesPrefix(env, rest, sources, k);
      assert rest[..k] == findings[..k];
    }
  }

  lemma DistinctParts(a: seq<Node>, b: seq<Node>, c: seq<Node>, n: Node)
    requires Distinct(NodeIds(a + b + c)) && n in b
    ensures n !in c
  {
    var ids := NodeIds(a + b + c);
    var i :| 0 <= i < |b| && b[i] == n;
    forall j | 0 <= j < |c| ensures c[j] != n {
      assert ids[|a| + i] != ids[|a| + |b| + j];
    }
  }

  /** The node for the id is among those for the earlier findings, and again for the later one. */
  lemma RepeatedNode(env: Env, findings: seq<Json>, sources: map<string, string>, i: nat, j: nat, n: Node)
    requires i < j < |findings| && IsMissing(env, Members(findings[i]), sources)
    requires Named(env, Members(findings[i])) == Named(env, Members(findings[j]))
    requires n == UnresolvedNode(env, Named(env, Members(findings[i])).value)
    ensures n in AllFindingNodes(env, findings[..j], sources) && n in FindingNodes(env, Members(findings[j]), sources)
  {
    MissingToo(env, Members(findings[i]), Members(findings[j]), sources);
    hide *;
    FindingMembers(env, Members(findings[j]), sources);
    FindingMembers(env, Members(findings[i]), sources);
    FindingNodesIn(env, findings[..j], sources, i);
  }

  lemma NodesUpTo(env: Env, findings: seq<Json>, sources: map<string, string>, j: nat) returns (after: seq<Node>)
    requires j < |findings|
    ensures AllFindingNodes(env, findings, sources) ==
            AllFindingNodes(env, findings[..j], sources) + FindingNodes(env, Members(findings[j]), sources) + after
  {
    hide *;
    AllFindingNodesSnoc(env, findings, sources, j);
    FindingNodesPrefix(env, findings, sources, j + 1);
    var all, part := AllFindingNodes(env, findings, sources), AllFindingNodes(env, findings[..j + 1], sources);
    after := all[|part|..];
    assert all == part + after;
  }

  lemma MissingToo(env: Env, f: Object, g: Object, sources: map<string, string>)
    requires IsMissing(env, f, sources) && Named(env, f) == Named(env, g)
    ensures Named(env, f).Some? && IsMissing(env, g, sources)
  {
    hide Named;
  }

  lemma AllFindingNodesSnoc(env: Env, findings: seq<Json>, sources: map<string, string>, j: nat)
    requires j < |findings|
    ensures AllFindingNodes(env, findings[..j + 1], sources) ==
            AllFindingNodes(env, findings[..j], sources) + FindingNodes(env, Members(findings[j]), sources)
  {
    hide FindingNodes, Members;
    assert findings[..j + 1][..j] == findings[..j];
  }

  /** Two findings that name the same unknown evidence id give two nodes with the same id, so the
      graph of such a verdict is refused even though each finding alone would be let through. */
  lemma RepeatedMissing(env: Env, x: Inputs, i: nat, j: nat)
    requires i < j < |ListOf(Findings(x))|
    requires IsMissing(env, Members(ListOf(Findings(x))[i]), Sources(env, Items(env, x.evidence)))
    requires Named(env, Members(ListOf(Findings(x))[i])) == Named(env, Members(ListOf(Findings(x))[j]))
    ensures !Buildable(env, x)
  {
    hide *;
    var findings, sources := ListOf(Findings(x)), Sources(env, Items(env, x.evidence));
    if Buildable(env, x) {
      MissingToo(env, Members(findings[i]), Members(findings[j]), sources);
      var n := UnresolvedNode(env, Named(env, Members(findings[i])).value);
      RepeatedNode(env, findings, sources, i, j, n);
      var before := AllFindingNodes(env, findings[..j], sources);
      var last := FindingNodes(env, Members(findings[j]), sources);
      var after := NodesUpTo(env, findings, sources, j);
      Split(env, x, before, last, after);
      var head := FixedNodes(env, x) + ItemNodes(env, Items(env, x.evidence)) + CheckNodes(env, CheckList(x));
      DistinctParts(head, before, last + after, n);
    }
  }

  lemma Split(env: Env, x: Inputs, a: seq<Node>, b: seq<Node>, c: seq<Node>)
    requires Buildable(env, x)
    requires AllFindingNodes(env, ListOf(Findings(x)), Sources(env, Items(env, x.evidence))) == a + b + c
    ensures Distinct(NodeIds(FixedNodes(env, x) + ItemNodes(env, Items(env, x.evidence)) + CheckNodes(env, CheckList(x))
                             + a + (b + c)))
  {
    hide FixedNodes, ItemNodes, CheckNodes, AllFindingNodes, Items, Sources, CheckList, Findings, ListOf, GoodCheck,
         GoodFinding, UnambiguousIds, HasSections, Distinct, AllEdges, NodeIds;
    var head := FixedNodes(env, x) + ItemNodes(env, Items(env, x.evidence)) + CheckNodes(env, CheckList(x));
    assert head + (a + b + c) == head + a + (b + c);
  }
}
