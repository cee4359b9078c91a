/** When a verdict can be made into a graph, in terms of its inputs: with a digest that has no
    collisions, the refusal of repeated ids comes down to repeated checks, repeated findings, and
    findings that name the same unknown evidence id. */
module GraphDistinct {
  import opened Strings
  import opened Json
  import opened EvidenceGraph
  import opened GraphProperties
  import opened GraphReach
  import opened GraphReferences
  import opened GraphIds

  // ------------------------------------------------------------------------ the nodes

  lemma IdIn(nodes: seq<Node>, id: string) returns (n: Node)
    requires id in NodeIds(nodes)
    ensures n in nodes && n.id == id
  {
    var i :| 0 <= i < |nodes| && NodeIds(nodes)[i] == id;
    n := nodes[i];
  }

  /** Nodes that are pairwise not alike have different ids. */
  lemma UnlikeIds(nodes: seq<Node>, part: seq<Node>)
    requires Identified(nodes) && Contains(nodes, part)
    requires forall i, j :: 0 <= i < j < |part| ==> !Alike(part[i], part[j])
    ensures Distinct(NodeIds(part))
  {
    hide Alike;
    forall i, j | 0 <= i < j < |part| ensures part[i].id != part[j].id {
      assert part[i] in part && part[j] in part;
    }
  }

  /** So do nodes of different kinds. */
  lemma KindsApart(nodes: seq<Node>, a: seq<Node>, b: seq<Node>)
    requires Identified(nodes) && Contains(nodes, a) && Contains(nodes, b)
    requires forall m, n :: m in a && n in b ==> m.kind != n.kind
    ensures forall id :: id in NodeIds(b) ==> id !in NodeIds(a)
  {
    hide NodeIds, Alike;
    forall id | id in NodeIds(b) ensures id !in NodeIds(a) {
      if id in NodeIds(a) {
        var m := IdIn(a, id);
        var n := IdIn(b, id);
        AlikeKinds(m, n);
      }
    }
  }

  lemma NodeIdsConcat(a: seq<Node>, b: seq<Node>)
    ensures NodeIds(a + b) == NodeIds(a) + NodeIds(b)
  {
  }

  lemma FixedIds(env: Env, x: Inputs, nodes: seq<Node>)
    requires Identified(nodes) && Contains(nodes, FixedNodes(env, x))
    ensures Distinct(NodeIds(FixedNodes(env, x)))
  {
    FixedUnlike(env, x);
    hide FixedNodes, Alike;
    UnlikeIds(nodes, FixedNodes(env, x));
  }

  lemma FixedUnlike(env: Env, x: Inputs)
    ensures var f := FixedNodes(env, x); forall i, j :: 0 <= i < j < |f| ==> !Alike(f[i], f[j])
  {
    FixedKinds(env, x);
    hide AuthorityNode, PlanNode, SkillNode, RuntimeNode, AgentNode, ModelNode, EvidenceNode, VerdictNode;
  }

  lemma {:induction false} ItemNodesAt(env: Env, items: seq<Item>)
    ensures |ItemNodes(env, items)| == |items|
    ensures forall i :: 0 <= i < |items| ==> ItemNodes(env, items)[i] == ItemNode(env, items[i])
    decreases |items|
  {
    hide ItemNode;
    if items != [] {
      ItemNodesAt(env, items[..|items| - 1]);
    }
  }

  lemma ItemFields(env: Env, item: Item)
    ensures ItemNode(env, item).attributes == ItemAttributes(item)
    ensures var o := ItemAttributes(item).members;
            && ItemAttributes(item) == JObject(o)
            && Get(o, "channel") == JString(item.channel)
            && Get(o, "index") == if item.index.Some? then JNumber(item.index.value as real) else JNull
  {
    hide SourceId;
    var o := ItemAttributes(item).members;
    assert |"channel"| != |"index"| && |"source_evidence_id"| != |"index"|;
    assert o[0].key == "channel" && GetOr(o, "index", JNull) == GetOr(o[1..], "index", JNull);
    if item.index.Some? {
      assert o[1..][0] == Member("index", JNumber(item.index.value as real));
    } else if SourceId(item).Some? {
      assert o[1..][0].key == "source_evidence_id" && o[1..][1..] == [];
      assert GetOr(o[1..], "index", JNull) == GetOr(o[1..][1..], "index", JNull);
    } else {
      assert o[1..] == [];
    }
  }

  /** The node of an item tells its channel and position. */
  lemma ItemNodeTells(env: Env, a: Item, b: Item)
    requires Alike(ItemNode(env, a), ItemNode(env, b))
    ensures a.channel == b.channel && a.index == b.index
  {
    ItemFields(env, a);
    ItemFields(env, b);
    hide ItemNode, ItemAttributes, GetOr;
    var m, n := ItemAttributes(a).members, ItemAttributes(b).members;
    SameGet(m, n, "channel");
    SameGet(m, n, "index");
    assert Same(Get(m, "channel"), Get(n, "channel")) && Same(Get(m, "index"), Get(n, "index"));
  }

  lemma ItemIds(env: Env, items: seq<Item>, nodes: seq<Node>)
    requires Placed(items) && Identified(nodes) && Contains(nodes, ItemNodes(env, items))
    ensures Distinct(NodeIds(ItemNodes(env, items)))
  {
    ItemNodesAt(env, items);
    hide ItemNode, ItemNodes, Alike;
    forall i, j | 0 <= i < j < |items| ensures !Alike(ItemNode(env, items[i]), ItemNode(env, items[j])) {
      if Alike(ItemNode(env, items[i]), ItemNode(env, items[j])) {
        ItemNodeTells(env, items[i], items[j]);
      }
    }
    UnlikeIds(nodes, ItemNodes(env, items));
  }

  predicate AllObjects(items: seq<Json>) {
    forall i :: 0 <= i < |items| ==> items[i].JObject?
  }

  ghost predicate ToldApart(env: Env, items: seq<Json>) {
    forall a, b :: a in items && b in items ==> (env.digest(a) == env.digest(b) <==> Same(a, b))
  }

  /** No two are the same, up to the order of members. */
  ghost predicate NoneSame(items: seq<Json>) {
    forall i, j :: 0 <= i < j < |items| ==> !Same(items[i], items[j])
  }

  lemma {:induction false} CheckNodesAt(env: Env, checks: seq<Json>)
    ensures |CheckNodes(env, checks)| == |checks|
    ensures forall i :: 0 <= i < |checks| ==> CheckNodes(env, checks)[i] == CheckNode(env, Members(checks[i]))
    decreases |checks|
  {
    hide CheckNode, Members;
    if checks != [] {
      CheckNodesAt(env, checks[..|checks| - 1]);
    }
  }

  lemma SameBool(a: bool)
    ensures Same(JBool(a), JBool(a))
  {
  }

  lemma SameTruth(a: Json, b: Json)
    requires Same(a, b)
    ensures a == JBool(true) <==> b == JBool(true)
  {
  }

  /** The nodes of two checks are alike exactly when the checks are the same. */
  lemma CheckNodesAlike(env: Env, a: Json, b: Json)
    requires a.JObject? && b.JObject? && (env.digest(a) == env.digest(b) <==> Same(a, b))
    ensures Alike(CheckNode(env, Members(a)), CheckNode(env, Members(b))) <==> Same(a, b)
  {
    assert CheckNode(env, Members(a)).payload == env.digest(a) by { hide GetOr; }
    assert CheckNode(env, Members(b)).payload == env.digest(b) by { hide GetOr; }
    if Same(a, b) {
      var m, n := Members(a), Members(b);
      SameGet(m, n, "id");
      SameGet(m, n, "kind");
      SameGet(m, n, "passed");
      hide GetOr, Same;
      SameTruth(Get(m, "passed"), Get(n, "passed"));
      SameBool(Get(m, "passed") == JBool(true));
      SameObjects(CheckNode(env, m).attributes.members, CheckNode(env, n).attributes.members);
    }
  }

  lemma CheckIds(env: Env, checks: seq<Json>, nodes: seq<Node>)
    requires AllObjects(checks) && ToldApart(env, checks)
    requires Identified(nodes) && Contains(nodes, CheckNodes(env, checks))
    ensures Distinct(NodeIds(CheckNodes(env, checks))) <==> NoneSame(checks)
  {
    CheckNodesAt(env, checks);
    hide CheckNode, CheckNodes, Members, Same, Alike;
    var cs := CheckNodes(env, checks);
    forall i, j | 0 <= i < j < |checks| ensures cs[i].id == cs[j].id <==> Same(checks[i], checks[j]) {
      assert cs[i] in cs && cs[j] in cs && checks[i] in checks && checks[j] in checks;
      CheckNodesAlike(env, checks[i], checks[j]);
    }
    hide Identified, ToldApart, Contains;
    SameRepeats(NodeIds(cs), checks);
  }

  lemma SameRepeats(ids: seq<string>, items: seq<Json>)
    requires |ids| == |items|
    requires forall i, j :: 0 <= i < j < |items| ==> (ids[i] == ids[j] <==> Same(items[i], items[j]))
    ensures Distinct(ids) <==> NoneSame(items)
  {
    hide Same;
  }

  /** No two findings name the same unknown id. */
  predicate NoTwoMissing(env: Env, findings: seq<Json>, sources: map<string, string>) {
    forall i, j :: 0 <= i < j < |findings| && IsMissing(env, Members(findings[i]), sources) ==>
      Named(env, Members(findings[i])) != Named(env, Members(findings[j]))
  }

  lemma FindingNodesAlike(env: Env, a: Json, b: Json)
    requires a.JObject? && b.JObject? && (env.digest(a) == env.digest(b) <==> Same(a, b))
    ensures Alike(FindingNode(env, Members(a)), FindingNode(env, Members(b))) <==> Same(a, b)
  {
    assert FindingNode(env, Members(a)).payload == env.digest(a) by { hide GetOr; }
    assert FindingNode(env, Members(b)).payload == env.digest(b) by { hide GetOr; }
    if Same(a, b) {
      var m, n := Members(a), Members(b);
      SameGet(m, n, "severity");
      SameGet(m, n, "rule");
      hide GetOr, Same;
      SameObjects(FindingNode(env, m).attributes.members, FindingNode(env, n).attributes.members);
    }
  }

  lemma UnresolvedTells(env: Env, a: string, b: string)
    requires Alike(UnresolvedNode(env, a), UnresolvedNode(env, b))
    ensures a == b
  {
    var m, n := UnresolvedNode(env, a).attributes.members, UnresolvedNode(env, b).attributes.members;
    SameGet(m, n, "source_evidence_id");
    assert m[0] == Member("source_evidence_id", JString(a)) && n[0] == Member("source_evidence_id", JString(b));
    assert Same(JString(a), JString(b));
  }

  lemma FindingIdsShort(env: Env, finding: Object, sources: map<string, string>, nodes: seq<Node>)
    requires Identified(nodes) && Contains(nodes, FindingNodes(env, finding, sources))
    ensures Distinct(NodeIds(FindingNodes(env, finding, sources)))
  {
    hide FindingNode, UnresolvedNode, Named;
    UnlikeIds(nodes, FindingNodes(env, finding, sources));
  }

  lemma HasId(nodes: seq<Node>, n: Node)
    requires n in nodes
    ensures n.id in NodeIds(nodes)
  {
    IdOf(nodes, n);
  }

  /** What holds of the nodes of one more finding, and of those before it. */
  ghost predicate FindingsFit(env: Env, rest: seq<Json>, last: Json, sources: map<string, string>, nodes: seq<Node>) {
    && AllObjects(rest + [last]) && ToldApart(env, rest + [last]) && Identified(nodes)
    && Contains(nodes, AllFindingNodes(env, rest, sources))
    && Contains(nodes, FindingNodes(env, Members(last), sources))
  }

  lemma FitParts(env: Env, rest: seq<Json>, last: Json, sources: map<string, string>, nodes: seq<Node>, j: nat)
    requires FindingsFit(env, rest, last, sources, nodes) && j < |rest|
    ensures rest[j].JObject? && last.JObject? && (env.digest(rest[j]) == env.digest(last) <==> Same(rest[j], last))
    ensures FindingNode(env, Members(last)) in nodes && FindingNode(env, Members(rest[j])) in nodes
    ensures FindingNode(env, Members(rest[j])) in AllFindingNodes(env, rest, sources)
  {
    assert (rest + [last])[j] == rest[j] && (rest + [last])[|rest|] == last;
    assert rest[j] in rest + [last] && last in rest + [last];
    FindingMembers(env, Members(last), sources);
    FindingMembers(env, Members(rest[j]), sources);
    FindingNodesIn(env, rest, sources, j);
    hide FindingNode, FindingNodes, AllFindingNodes, Members, Same, Identified;
  }

  lemma AlikeIds(nodes: seq<Node>, m: Node, n: Node)
    requires Identified(nodes) && m in nodes && n in nodes
    ensures m.id == n.id <==> Alike(m, n)
  {
    hide Alike;
  }

  /** A finding that was there before, or an unknown id that was, repeats an id. */
  lemma LastFindingOld(env: Env, rest: seq<Json>, last: Json, sources: map<string, string>, nodes: seq<Node>, j: nat)
    requires FindingsFit(env, rest, last, sources, nodes) && j < |rest|
    requires Same(rest[j], last) || (IsMissing(env, Members(rest[j]), sources)
                                     && Named(env, Members(rest[j])) == Named(env, Members(last)))
    ensures exists id :: id in NodeIds(FindingNodes(env, Members(last), sources))
                         && id in NodeIds(AllFindingNodes(env, rest, sources))
  {
    hide *;
    var f, g := Members(last), Members(rest[j]);
    FitParts(env, rest, last, sources, nodes, j);
    FindingMembers(env, f, sources);
    if Same(rest[j], last) {
      FindingNodesAlike(env, rest[j], last);
      assert Identified(nodes) by { FitIdentified(env, rest, last, sources, nodes); }
      AlikeIds(nodes, FindingNode(env, g), FindingNode(env, f));
      HasId(FindingNodes(env, f, sources), FindingNode(env, f));
      HasId(AllFindingNodes(env, rest, sources), FindingNode(env, g));
    } else {
      MissingToo(env, g, f, sources);
      var n := UnresolvedNode(env, Named(env, f).value);
      FindingMembers(env, g, sources);
      FindingNodesIn(env, rest, sources, j);
      HasId(FindingNodes(env, f, sources), n);
      HasId(AllFindingNodes(env, rest, sources), n);
    }
  }

  lemma FitIdentified(env: Env, rest: seq<Json>, last: Json, sources: map<string, string>, nodes: seq<Node>)
    requires FindingsFit(env, rest, last, sources, nodes)
    ensures Identified(nodes)
    ensures Contains(nodes, AllFindingNodes(env, rest, sources))
    ensures Contains(nodes, FindingNodes(env, Members(last), sources))
  {
    hide AllObjects, ToldApart, Identified, Contains, AllFindingNodes, FindingNodes, Members;
  }

  lemma NodeContained(nodes: seq<Node>, part: seq<Node>, n: Node)
    requires Contains(nodes, part) && n in part
    ensures n in nodes
  {
  }

  /** Only then. */
  lemma LastFindingNew(env: Env, x: Inputs, rest: seq<Json>, last: Json, sources: map<string, string>, nodes: seq<Node>,
                       id: string) returns (j: nat)
    requires FindingsFit(env, rest, last, sources, nodes)
    requires id in NodeIds(FindingNodes(env, Members(last), sources))
    requires id in NodeIds(AllFindingNodes(env, rest, sources))
    ensures j < |rest|
    ensures Same(rest[j], last) || (IsMissing(env, Members(rest[j]), sources)
                                    && Named(env, Members(rest[j])) == Named(env, Members(last)))
  {
    hide *;
    var f := Members(last);
    var n := IdIn(FindingNodes(env, f, sources), id);
    var m := IdIn(AllFindingNodes(env, rest, sources), id);
    j := FindingOf(env, x, rest, sources, m);
    var g := Members(rest[j]);
    FindingNodeCases(env, f, sources, n);
    FindingNodeCases(env, g, sources, m);
    FitIdentified(env, rest, last, sources, nodes);
    NodeContained(nodes, FindingNodes(env, f, sources), n);
    NodeContained(nodes, AllFindingNodes(env, rest, sources), m);
    AlikeIds(nodes, m, n);
    AlikeKinds(m, n);
    if n == FindingNode(env, f) {
      FitParts(env, rest, last, sources, nodes, j);
      FindingNodesAlike(env, rest[j], last);
    } else {
      UnresolvedTells(env, Named(env, g).value, Named(env, f).value);
    }
  }

  lemma AlikeKinds(m: Node, n: Node)
    requires Alike(m, n)
    ensures m.kind == n.kind
  {
  }

  lemma {:induction false} FindingIds(env: Env, x: Inputs, findings: seq<Json>, sources: map<string, string>,
                                      nodes: seq<Node>)
    requires AllObjects(findings) && ToldApart(env, findings)
    requires Identified(nodes) && Contains(nodes, AllFindingNodes(env, findings, sources))
    ensures Distinct(NodeIds(AllFindingNodes(env, findings, sources))) <==>
            NoneSame(findings) && NoTwoMissing(env, findings, sources)
    decreases |findings|
  {
    hide *;
    if findings == [] {
      NoFindings(env, sources);
    } else {
      var n := |findings| - 1;
      var rest, last := findings[..n], findings[n];
      assert findings == rest + [last];
      FairPrefix(env, rest, last);
      FindingsSplit(env, findings, sources, nodes);
      FindingIds(env, x, rest, sources, nodes);
      var before, new' := AllFindingNodes(env, rest, sources), FindingNodes(env, Members(last), sources);
      FitIdentified(env, rest, last, sources, nodes);
      FindingIdsShort(env, Members(last), sources, nodes);
      NodeIdsConcat(before, new');
      DistinctConcat(NodeIds(before), NodeIds(new'));
      NoneSameSnoc(rest, last);
      NoTwoMissingSnoc(env, rest, last, sources);
      forall id | id in NodeIds(new') && id in NodeIds(before)
        ensures exists j :: 0 <= j < |rest| && (Same(rest[j], last) || (IsMissing(env, Members(rest[j]), sources)
                              && Named(env, Members(rest[j])) == Named(env, Members(last))))
      {
        var j := LastFindingNew(env, x, rest, last, sources, nodes, id);
      }
      forall j | 0 <= j < |rest| && (Same(rest[j], last) || (IsMissing(env, Members(rest[j]), sources)
                   && Named(env, Members(rest[j])) == Named(env, Members(last))))
        ensures exists id :: id in NodeIds(new') && id in NodeIds(before)
      {
        LastFindingOld(env, rest, last, sources, nodes, j);
      }
    }
  }

  lemma FindingsSplit(env: Env, findings: seq<Json>, sources: map<string, string>, nodes: seq<Node>)
    requires findings != [] && AllObjects(findings) && ToldApart(env, findings)
    requires Identified(nodes) && Contains(nodes, AllFindingNodes(env, findings, sources))
    ensures var n := |findings| - 1;
            && AllFindingNodes(env, findings, sources) ==
               AllFindingNodes(env, findings[..n], sources) + FindingNodes(env, Members(findings[n]), sources)
            && FindingsFit(env, findings[..n], findings[n], sources, nodes)
            && Contains(nodes, AllFindingNodes(env, findings[..n], sources))
  {
    hide *;
    var n := |findings| - 1;
    var rest, last := findings[..n], findings[n];
    assert findings == rest + [last] && findings[..n + 1] == findings;
    AllFindingNodesSnoc(env, findings, sources, n);
    ContainsHalves(nodes, AllFindingNodes(env, rest, sources), FindingNodes(env, Members(last), sources));
    MakeFit(env, rest, last, sources, nodes);
  }

  lemma ContainsHalves(nodes: seq<Node>, a: seq<Node>, b: seq<Node>)
    requires Contains(nodes, a + b)
    ensures Contains(nodes, a) && Contains(nodes, b)
  {
    forall n | n in a || n in b ensures n in nodes {
      assert n in a + b;
    }
  }

  lemma MakeFit(env: Env, rest: seq<Json>, last: Json, sources: map<string, string>, nodes: seq<Node>)
    requires AllObjects(rest + [last]) && ToldApart(env, rest + [last]) && Identified(nodes)
    requires Contains(nodes, AllFindingNodes(env, rest, sources))
    requires Contains(nodes, FindingNodes(env, Members(last), sources))
    ensures FindingsFit(env, rest, last, sources, nodes)
  {
    hide AllObjects, ToldApart, Identified, Contains, AllFindingNodes, FindingNodes, Members;
  }

  lemma NoFindings(env: Env, sources: map<string, string>)
    ensures Distinct(NodeIds(AllFindingNodes(env, [], sources))) && NoneSame([]) && NoTwoMissing(env, [], sources)
  {
  }

  lemma FairPrefix(env: Env, rest: seq<Json>, last: Json)
    requires AllObjects(rest + [last]) && ToldApart(env, rest + [last])
    ensures AllObjects(rest) && ToldApart(env, rest)
  {
    hide Same;
    assert forall j :: 0 <= j < |rest| ==> (rest + [last])[j] == rest[j];
  }

  lemma NoneSameSnoc(rest: seq<Json>, last: Json)
    ensures NoneSame(rest + [last]) <==> NoneSame(rest) && forall j :: 0 <= j < |rest| ==> !Same(rest[j], last)
  {
    hide Same;
    var all := rest + [last];
    assert all[|rest|] == last && forall j :: 0 <= j < |rest| ==> all[j] == rest[j];
  }

  lemma NoTwoMissingSnoc(env: Env, rest: seq<Json>, last: Json, sources: map<string, string>)
    ensures NoTwoMissing(env, rest + [last], sources) <==>
            && NoTwoMissing(env, rest, sources)
            && forall j :: 0 <= j < |rest| && IsMissing(env, Members(rest[j]), sources) ==>
                 Named(env, Members(rest[j])) != Named(env, Members(last))
  {
    hide Named, Members, IsMissing;
    var all := rest + [last];
    assert all[|rest|] == last && forall j :: 0 <= j < |rest| ==> all[j] == rest[j];
  }

  /** The loops visit objects alone, and the digest tells apart what it is given. */
  ghost predicate Fair(env: Env, x: Inputs) {
    Canonical(env, Digested(env, x)) && AllObjects(CheckList(x)) && AllObjects(ListOf(Findings(x)))
  }

  lemma FairParts(env: Env, x: Inputs)
    requires Fair(env, x)
    ensures Canonical(env, Digested(env, x)) && AllObjects(CheckList(x)) && AllObjects(ListOf(Findings(x)))
    ensures ToldApart(env, CheckList(x)) && ToldApart(env, ListOf(Findings(x)))
  {
    ContentIn(env, x);
    hide Digested, CheckList, ListOf, Findings, AllObjects, AllNodes, AllEdges, ContentOf, EdgeContentOf, Same;
  }

  function NodeParts(env: Env, x: Inputs): (seq<Node>, seq<Node>, seq<Node>, seq<Node>) {
    (FixedNodes(env, x), ItemNodes(env, Items(env, x.evidence)), CheckNodes(env, CheckList(x)),
     AllFindingNodes(env, ListOf(Findings(x)), Sources(env, Items(env, x.evidence))))
  }

  lemma NodeKinds(env: Env, x: Inputs)
    ensures var (f, i, c, g) := NodeParts(env, x);
            && AllNodes(env, x) == f + i + c + g
            && (forall n :: n in i ==> n.kind == EvidenceObject)
            && (forall n :: n in c ==> n.kind == VerificationCheck)
            && (forall n :: n in g ==> n.kind == SecurityFinding || n.kind == UnresolvedReference)
            && (forall n :: n in f ==>
                  n.kind !in {EvidenceObject, VerificationCheck, SecurityFinding, UnresolvedReference})
  {
    hide *;
    var items, sources := Items(env, x.evidence), Sources(env, Items(env, x.evidence));
    PartsUnfold(env, x);
    forall n | n in ItemNodes(env, items) ensures n.kind == EvidenceObject {
      var j := ItemOf(env, x, items, n);
    }
    forall n | n in CheckNodes(env, CheckList(x)) ensures n.kind == VerificationCheck {
      var j := CheckOf(env, x, CheckList(x), sources, n);
    }
    forall n | n in AllFindingNodes(env, ListOf(Findings(x)), sources)
      ensures n.kind == SecurityFinding || n.kind == UnresolvedReference
    {
      var j := FindingOf(env, x, ListOf(Findings(x)), sources, n);
      FindingCases(env, Members(ListOf(Findings(x))[j]), sources, n);
    }
    FixedKinds(env, x);
    forall n | n in FixedNodes(env, x)
      ensures n.kind !in {EvidenceObject, VerificationCheck, SecurityFinding, UnresolvedReference}
    {
      FixedCases(env, x, n);
    }
  }

  lemma PartsUnfold(env: Env, x: Inputs)
    ensures var (f, i, c, g) := NodeParts(env, x);
            && f == FixedNodes(env, x) && i == ItemNodes(env, Items(env, x.evidence))
            && c == CheckNodes(env, CheckList(x))
            && g == AllFindingNodes(env, ListOf(Findings(x)), Sources(env, Items(env, x.evidence)))
            && AllNodes(env, x) == f + i + c + g
  {
    hide FixedNodes, ItemNodes, CheckNodes, AllFindingNodes, Items, Sources, CheckList, Findings, ListOf;
  }

  /** No node id repeats exactly when no check and no finding does, and no two findings name the same
      unknown id. */
  lemma NodeIdsExact(env: Env, x: Inputs)
    requires Fair(env, x)
    ensures Distinct(NodeIds(AllNodes(env, x))) <==>
            && NoneSame(CheckList(x)) && NoneSame(ListOf(Findings(x)))
            && NoTwoMissing(env, ListOf(Findings(x)), Sources(env, Items(env, x.evidence)))
  {
    hide *;
    var nodes, items, findings := AllNodes(env, x), Items(env, x.evidence), ListOf(Findings(x));
    FairParts(env, x);
    NodesIdentified(env, x);
    PartsUnfold(env, x);
    NodeKinds(env, x);
    var f, i, c, g := FixedNodes(env, x), ItemNodes(env, items), CheckNodes(env, CheckList(x)),
      AllFindingNodes(env, findings, Sources(env, items));
    PartsContained(f, i, c, g);
    FixedIds(env, x, nodes);
    ItemsPlaced(env, x.evidence);
    ItemIds(env, items, nodes);
    CheckIds(env, CheckList(x), nodes);
    FindingIds(env, x, findings, Sources(env, items), nodes);
    KindsApart(nodes, f, i);
    KindsApart(nodes, f + i, c);
    KindsApart(nodes, f + i + c, g);
    NodeIdsConcat(f, i);
    NodeIdsConcat(f + i, c);
    NodeIdsConcat(f + i + c, g);
    DistinctConcat(NodeIds(f), NodeIds(i));
    DistinctConcat(NodeIds(f + i), NodeIds(c));
    DistinctConcat(NodeIds(f + i + c), NodeIds(g));
  }

  lemma PartsContained(f: seq<Node>, i: seq<Node>, c: seq<Node>, g: seq<Node>)
    ensures var all := f + i + c + g;
            && Contains(all, f) && Contains(all, i) && Contains(all, c) && Contains(all, g)
            && Contains(all, f + i) && Contains(all, f + i + c)
  {
  }

  // ------------------------------------------------------------------------ the edges

  /** The node on whose account an edge was added. */
  function Owner(e: Edge): string { if e.relation == Authorizes then e.target else e.source }

  predicate SameEnds(e: Edge, f: Edge) {
    e.source == f.source && e.target == f.target && e.relation == f.relation
  }

  /** No two edges agree in source, target and relation. */
  predicate Apart(edges: seq<Edge>) {
    forall i, j :: 0 <= i < j < |edges| ==> !SameEnds(edges[i], edges[j])
  }

  lemma ApartConcat(a: seq<Edge>, b: seq<Edge>)
    requires Apart(a) && Apart(b) && forall e, f :: e in a && f in b ==> !SameEnds(e, f)
    ensures Apart(a + b)
  {
    hide SameEnds;
    var c := a + b;
    forall i, j | 0 <= i < j < |c| ensures !SameEnds(c[i], c[j]) {
      if i < |a| <= j {
        assert c[i] in a && c[j] in b;
      } else if |a| <= i {
        assert c[i] == b[i - |a|] && c[j] == b[j - |a|];
      }
    }
  }

  /** Edges added on account of different nodes, or of different relations, differ. */
  lemma OwnersDiffer(e: Edge, f: Edge)
    requires Owner(e) != Owner(f) || e.relation != f.relation
    ensures !SameEnds(e, f)
  {
  }

  lemma {:induction false} ItemEdgesAt(env: Env, x: Inputs, items: seq<Item>)
    ensures |ItemEdges(env, x, items)| == |items|
    ensures forall i :: 0 <= i < |items| ==> ItemEdges(env, x, items)[i] == ItemEdge(env, x, items[i])
    decreases |items|
  {
    hide ItemEdge;
    if items != [] {
      ItemEdgesAt(env, x, items[..|items| - 1]);
    }
  }

  lemma ItemEdgeFields(env: Env, x: Inputs, item: Item)
    ensures ItemEdge(env, x, item).source == ItemNode(env, item).id && ItemEdge(env, x, item).relation == ContainedIn
  {
    hide ItemNode, EvidenceNode, ItemAttributes, MakeEdge;
  }

  lemma ItemEdgesApart(env: Env, x: Inputs, items: seq<Item>)
    requires Distinct(NodeIds(ItemNodes(env, items)))
    ensures Apart(ItemEdges(env, x, items))
    ensures forall e :: e in ItemEdges(env, x, items) ==> e.relation == ContainedIn
  {
    ItemNodesAt(env, items);
    ItemEdgesAt(env, x, items);
    hide ItemNode, ItemEdge, ItemNodes, ItemEdges;
    var ns := ItemNodes(env, items);
    forall i | 0 <= i < |items|
      ensures ItemEdges(env, x, items)[i].source == ns[i].id && ItemEdges(env, x, items)[i].relation == ContainedIn
    {
      ItemEdgeFields(env, x, items[i]);
    }
    forall i, j | 0 <= i < j < |items| ensures ns[i].id != ns[j].id {
      assert NodeIds(ns)[i] != NodeIds(ns)[j];
    }
  }

  lemma FixedEdgesApart(env: Env, x: Inputs, nodes: seq<Node>)
    requires UniqueIds(nodes) && Contains(nodes, FixedNodes(env, x))
    ensures Apart(FixedEdges(env, x))
    ensures forall e :: e in FixedEdges(env, x) ==>
              || e.relation in {InputTo, Configures, Produces, EvaluatedBy, AuthorizesEvaluation}
              || (e.relation == Authorizes && e.target == PlanNode(env, x).id)
  {
    hide *;
    ConfiguringIds(env, x, nodes);
    var a, p, v, d := AuthorityNode(env, x), PlanNode(env, x), EvidenceNode(env, x), VerdictNode(env, x);
    Eight(Link(env, a, p, Authorizes), Link(env, SkillNode(env, x), p, InputTo),
          Link(env, RuntimeNode(env, x), p, Configures), Link(env, AgentNode(env, x), p, Configures),
          Link(env, ModelNode(env, x), p, Configures), Link(env, p, v, Produces), Link(env, v, d, EvaluatedBy),
          Link(env, a, d, AuthorizesEvaluation));
    FixedEdgesUnfold(env, x);
  }

  lemma FixedEdgesUnfold(env: Env, x: Inputs)
    ensures var a, p, v, d := AuthorityNode(env, x), PlanNode(env, x), EvidenceNode(env, x), VerdictNode(env, x);
            FixedEdges(env, x) ==
            [Link(env, a, p, Authorizes), Link(env, SkillNode(env, x), p, InputTo),
             Link(env, RuntimeNode(env, x), p, Configures), Link(env, AgentNode(env, x), p, Configures),
             Link(env, ModelNode(env, x), p, Configures), Link(env, p, v, Produces), Link(env, v, d, EvaluatedBy),
             Link(env, a, d, AuthorizesEvaluation)]
  {
    hide AuthorityNode, PlanNode, SkillNode, RuntimeNode, AgentNode, ModelNode, EvidenceNode, VerdictNode, Link;
  }

  lemma Eight(e0: Edge, e1: Edge, e2: Edge, e3: Edge, e4: Edge, e5: Edge, e6: Edge, e7: Edge)
    requires e0.relation == Authorizes && e1.relation == InputTo && e5.relation == Produces
    requires e2.relation == e3.relation == e4.relation == Configures
    requires e6.relation == EvaluatedBy && e7.relation == AuthorizesEvaluation
    requires e2.source != e3.source && e2.source != e4.source && e3.source != e4.source
    ensures Apart([e0, e1, e2, e3, e4, e5, e6, e7])
    ensures forall e :: e in [e0, e1, e2, e3, e4, e5, e6, e7] ==>
              e.relation in {InputTo, Configures, Produces, EvaluatedBy, AuthorizesEvaluation} || e == e0
  {
  }

  lemma ConfiguringIds(env: Env, x: Inputs, nodes: seq<Node>)
    requires UniqueIds(nodes) && Contains(nodes, FixedNodes(env, x))
    ensures RuntimeNode(env, x).id != AgentNode(env, x).id && RuntimeNode(env, x).id != ModelNode(env, x).id
    ensures AgentNode(env, x).id != ModelNode(env, x).id
  {
    FixedKinds(env, x);
    FixedMembers(env, x);
    hide AuthorityNode, PlanNode, SkillNode, RuntimeNode, AgentNode, ModelNode, EvidenceNode, VerdictNode, FixedNodes;
  }

  /** Different evidence ids lead to different nodes. */
  ghost predicate Injective(sources: map<string, string>) {
    forall r, s :: r in sources && s in sources && sources[r] == sources[s] ==> r == s
  }

  lemma SourcesInjective(env: Env, items: seq<Item>, nodes: seq<Node>)
    requires UniqueIds(nodes) && Placed(items) && Contains(nodes, ItemNodes(env, items))
    ensures Injective(Sources(env, items))
  {
    hide Sources, ItemNode, ItemNodes, Placed, SourceId, Alike;
    forall r, s | r in Sources(env, items) && s in Sources(env, items)
                  && Sources(env, items)[r] == Sources(env, items)[s]
      ensures r == s
    {
      var i := SourceIsItem(env, items, r);
      var j := SourceIsItem(env, items, s);
      ItemNodeIn(env, items, i);
      ItemNodeIn(env, items, j);
      EqualAlike(ItemNode(env, items[i]), ItemNode(env, items[j]));
      ItemNodeTells(env, items[i], items[j]);
      SamePlace(items, i, j);
    }
  }

  lemma EqualAlike(m: Node, n: Node)
    requires m == n
    ensures Alike(m, n)
  {
    SameItself(m.attributes);
  }

  lemma SamePlace(items: seq<Item>, i: nat, j: nat)
    requires Placed(items) && i < |items| && j < |items|
    requires items[i].channel == items[j].channel && items[i].index == items[j].index
    ensures i == j
  {
  }

  lemma ReferencesApart(env: Env, check: Json, sources: map<string, string>)
    requires GoodCheck(env, check, sources) && Injective(sources)
    ensures Apart(ReferenceEdges(env, check.members, CheckReferences(check.members), sources))
  {
    hide CheckNode, MakeEdge, CheckReferences;
    var ids := CheckReferences(check.members);
    var edges := ReferenceEdges(env, check.members, ids, sources);
    hide ReferenceEdges;
    forall i, j | 0 <= i < j < |ids| ensures edges[i].target != edges[j].target {
      assert StrAll(env, ids)[i] != StrAll(env, ids)[j];
    }
  }

  lemma CheckEdgesApart(env: Env, x: Inputs, check: Json, sources: map<string, string>)
    requires GoodCheck(env, check, sources) && Injective(sources)
    ensures Apart(CheckEdges(env, x, Members(check), sources))
    ensures forall e :: e in CheckEdges(env, x, Members(check), sources) ==>
              e.relation in {Supports, Authorizes, References} && Owner(e) == CheckNode(env, Members(check)).id
  {
    hide *;
    ReferencesApart(env, check, sources);
    GoodObject(env, check, sources);
    var c := Members(check);
    var refs := ReferenceEdges(env, c, CheckReferences(c), sources);
    ReferencesOwned(env, c, sources);
    var supports := Link(env, CheckNode(env, c), VerdictNode(env, x), Supports);
    var authorizes := Link(env, AuthorityNode(env, x), CheckNode(env, c), Authorizes);
    TwoOwned(supports, authorizes, CheckNode(env, c).id);
    forall e, f | e in [supports, authorizes] && f in refs ensures !SameEnds(e, f) {
      OwnersDiffer(e, f);
    }
    ApartConcat([supports, authorizes], refs);
    CheckEdgesUnfold(env, x, c, sources);
  }

  lemma CheckEdgesUnfold(env: Env, x: Inputs, c: Object, sources: map<string, string>)
    ensures CheckEdges(env, x, c, sources) ==
            [Link(env, CheckNode(env, c), VerdictNode(env, x), Supports),
             Link(env, AuthorityNode(env, x), CheckNode(env, c), Authorizes)]
            + ReferenceEdges(env, c, CheckReferences(c), sources)
  {
    hide CheckNode, VerdictNode, AuthorityNode, Link, CheckReferences, ReferenceEdges;
  }

  lemma ReferencesOwned(env: Env, c: Object, sources: map<string, string>)
    ensures forall e :: e in ReferenceEdges(env, c, CheckReferences(c), sources) ==>
              e.relation == References && Owner(e) == CheckNode(env, c).id
  {
    hide CheckNode, MakeEdge, CheckReferences;
    var refs := ReferenceEdges(env, c, CheckReferences(c), sources);
    forall e | e in refs ensures e.relation == References && e.source == CheckNode(env, c).id {
      var i :| 0 <= i < |refs| && refs[i] == e;
    }
  }

  lemma TwoOwned(supports: Edge, authorizes: Edge, id: string)
    requires supports.relation == Supports && supports.source == id
    requires authorizes.relation == Authorizes && authorizes.target == id
    ensures Apart([supports, authorizes]) && Owner(supports) == id && Owner(authorizes) == id
    ensures forall e :: e in [supports, authorizes] ==> e.relation == Supports || e.relation == Authorizes
  {
  }

  lemma {:induction false} CheckOwners(env: Env, x: Inputs, checks: seq<Json>, sources: map<string, string>)
    requires Injective(sources) && forall i :: 0 <= i < |checks| ==> GoodCheck(env, checks[i], sources)
    ensures forall e :: e in AllCheckEdges(env, x, checks, sources) ==>
              e.relation in {Supports, Authorizes, References}
              && exists j :: 0 <= j < |checks| && Owner(e) == CheckNode(env, Members(checks[j])).id
    decreases |checks|
  {
    hide Members, CheckNode, CheckEdges, GoodCheck, Owner, Injective;
    if checks != [] {
      var n := |checks| - 1;
      CheckOwners(env, x, checks[..n], sources);
      CheckEdgesApart(env, x, checks[n], sources);
      assert forall j :: 0 <= j < n ==> checks[..n][j] == checks[j];
    }
  }

  lemma {:induction false} AllCheckEdgesApart(env: Env, x: Inputs, checks: seq<Json>, sources: map<string, string>)
    requires Injective(sources) && forall i :: 0 <= i < |checks| ==> GoodCheck(env, checks[i], sources)
    requires Distinct(NodeIds(CheckNodes(env, checks)))
    ensures Apart(AllCheckEdges(env, x, checks, sources))
    decreases |checks|
  {
    hide *;
    if checks == [] {
      NoCheckEdges(env, x, sources);
    } else {
      var n := |checks| - 1;
      var rest, last := checks[..n], checks[n];
      ChecksBefore(env, checks);
      AllCheckEdgesApart(env, x, rest, sources);
      CheckEdgesApart(env, x, last, sources);
      CheckOwners(env, x, rest, sources);
      var before, new' := AllCheckEdges(env, x, rest, sources), CheckEdges(env, x, Members(last), sources);
      forall e, f | e in before && f in new' ensures !SameEnds(e, f) {
        OwnersDiffer(e, f);
      }
      ApartConcat(before, new');
      AllCheckEdgesSnoc(env, x, checks, sources);
    }
  }

  lemma NoCheckEdges(env: Env, x: Inputs, sources: map<string, string>)
    ensures Apart(AllCheckEdges(env, x, [], sources))
  {
  }

  lemma AllCheckEdgesSnoc(env: Env, x: Inputs, checks: seq<Json>, sources: map<string, string>)
    requires checks != []
    ensures AllCheckEdges(env, x, checks, sources) ==
            AllCheckEdges(env, x, checks[..|checks| - 1], sources)
            + CheckEdges(env, x, Members(checks[|checks| - 1]), sources)
  {
    hide CheckEdges, Members;
  }

  /** The nodes of the earlier checks have other ids than that of the last. */
  lemma ChecksBefore(env: Env, checks: seq<Json>)
    requires checks != [] && Distinct(NodeIds(CheckNodes(env, checks)))
    ensures var n := |checks| - 1;
            && Distinct(NodeIds(CheckNodes(env, checks[..n])))
            && forall j :: 0 <= j < n ==>
                 CheckNode(env, Members(checks[..n][j])).id != CheckNode(env, Members(checks[n])).id
  {
    var n := |checks| - 1;
    CheckNodesAt(env, checks);
    assert CheckNodes(env, checks) == CheckNodes(env, checks[..n]) + [CheckNode(env, Members(checks[n]))] by {
      hide CheckNode, Members;
    }
    hide CheckNode, Members, CheckNodes;
    var all := CheckNodes(env, checks);
    NodeIdsConcat(CheckNodes(env, checks[..n]), [CheckNode(env, Members(checks[n]))]);
    DistinctConcat(NodeIds(CheckNodes(env, checks[..n])), NodeIds([CheckNode(env, Members(checks[n]))]));
    forall j | 0 <= j < n ensures all[j].id != all[n].id {
      assert NodeIds(all)[j] != NodeIds(all)[n];
    }
  }

  lemma FindingEdgesApart(env: Env, x: Inputs, finding: Object, sources: map<string, string>)
    ensures Apart(FindingEdges(env, x, finding, sources))
    ensures forall e :: e in FindingEdges(env, x, finding, sources) ==>
              e.relation in {Constrains, DerivedFrom, ReferencesMissing} && Owner(e) == FindingNode(env, finding).id
  {
    hide FindingNode, VerdictNode, UnresolvedNode, MakeEdge, Link, Named;
  }

  lemma {:induction false} FindingOwners(env: Env, x: Inputs, findings: seq<Json>, sources: map<string, string>)
    ensures forall e :: e in AllFindingEdges(env, x, findings, sources) ==>
              e.relation in {Constrains, DerivedFrom, ReferencesMissing}
              && exists j :: 0 <= j < |findings| && Owner(e) == FindingNode(env, Members(findings[j])).id
    decreases |findings|
  {
    hide Members, FindingNode, FindingEdges, Owner;
    if findings != [] {
      var n := |findings| - 1;
      FindingOwners(env, x, findings[..n], sources);
      FindingEdgesApart(env, x, Members(findings[n]), sources);
      assert forall j :: 0 <= j < n ==> findings[..n][j] == findings[j];
    }
  }

  lemma FindingIdsDiffer(env: Env, findings: seq<Json>, sources: map<string, string>, nodes: seq<Node>, i: nat, j: nat)
    requires AllObjects(findings) && ToldApart(env, findings) && NoneSame(findings) && UniqueIds(nodes)
    requires Contains(nodes, AllFindingNodes(env, findings, sources)) && i < j < |findings|
    ensures FindingNode(env, Members(findings[i])).id != FindingNode(env, Members(findings[j])).id
  {
    FindingMembers(env, Members(findings[i]), sources);
    FindingMembers(env, Members(findings[j]), sources);
    FindingNodesIn(env, findings, sources, i);
    FindingNodesIn(env, findings, sources, j);
    hide FindingNode, FindingNodes, AllFindingNodes, Members, Same, Alike;
    var m, n := FindingNode(env, Members(findings[i])), FindingNode(env, Members(findings[j]));
    assert findings[i] in findings && findings[j] in findings;
    FindingNodesAlike(env, findings[i], findings[j]);
    if m.id == n.id {
      EqualAlike(m, n);
    }
  }

  lemma {:induction false} AllFindingEdgesApart(env: Env, x: Inputs, findings: seq<Json>,
                                                   sources: map<string, string>)
    requires forall i, j :: 0 <= i < j < |findings| ==>
               FindingNode(env, Members(findings[i])).id != FindingNode(env, Members(findings[j])).id
    ensures Apart(AllFindingEdges(env, x, findings, sources))
    decreases |findings|
  {
    hide Members, FindingNode, FindingEdges, Owner;
    if findings != [] {
      var n := |findings| - 1;
      var rest, last := findings[..n], Members(findings[n]);
      assert forall j :: 0 <= j < n ==> rest[j] == findings[j];
      AllFindingEdgesApart(env, x, rest, sources);
      FindingEdgesApart(env, x, last, sources);
      FindingOwners(env, x, rest, sources);
      hide Apart;
      var before, new' := AllFindingEdges(env, x, rest, sources), FindingEdges(env, x, last, sources);
      forall e, f | e in before && f in new' ensures !SameEnds(e, f) {
        OwnersDiffer(e, f);
      }
      ApartConcat(before, new');
    }
  }

  /** Where no node id repeats, no two edges agree in source, target and relation. The edges of the
      four parts are of different relations, but for those that authorize. */
  lemma EdgesApart(env: Env, x: Inputs)
    requires Fair(env, x) && Distinct(NodeIds(AllNodes(env, x))) && NoneSame(ListOf(Findings(x)))
    requires var sources := Sources(env, Items(env, x.evidence));
             forall i :: 0 <= i < |CheckList(x)| ==> GoodCheck(env, CheckList(x)[i], sources)
    ensures Apart(AllEdges(env, x))
  {
    hide *;
    var nodes, items, findings := AllNodes(env, x), Items(env, x.evidence), ListOf(Findings(x));
    var sources := Sources(env, items);
    FairParts(env, x);
    DistinctUnique(nodes);
    PartsUnfold(env, x);
    var f, i, c, g := FixedNodes(env, x), ItemNodes(env, items), CheckNodes(env, CheckList(x)),
      AllFindingNodes(env, findings, sources);
    DistinctParts(f, i, c, g);
    PartsContained(f, i, c, g);
    ItemsPlaced(env, x.evidence);
    SourcesInjective(env, items, nodes);
    FixedEdgesApart(env, x, nodes);
    ItemEdgesApart(env, x, items);
    AllCheckEdgesApart(env, x, CheckList(x), sources);
    CheckOwners(env, x, CheckList(x), sources);
    forall j, k | 0 <= j < k < |findings|
      ensures FindingNode(env, Members(findings[j])).id != FindingNode(env, Members(findings[k])).id
    {
      FindingIdsDiffer(env, findings, sources, nodes, j, k);
    }
    AllFindingEdgesApart(env, x, findings, sources);
    FindingOwners(env, x, findings, sources);
    PlanIsNoCheck(env, x, nodes);
    var fe, ie, ce, ge := FixedEdges(env, x), ItemEdges(env, x, items), AllCheckEdges(env, x, CheckList(x), sources),
      AllFindingEdges(env, x, findings, sources);
    forall d, e | d in fe && e in ie ensures !SameEnds(d, e) {
      OwnersDiffer(d, e);
    }
    ApartConcat(fe, ie);
    forall d, e | d in fe + ie && e in ce ensures !SameEnds(d, e) {
      OwnerOf(d);
      OwnerOf(e);
      OwnersDiffer(d, e);
    }
    ApartConcat(fe + ie, ce);
    forall d, e | d in fe + ie + ce && e in ge ensures !SameEnds(d, e) {
      OwnersDiffer(d, e);
    }
    ApartConcat(fe + ie + ce, ge);
    EdgePartsUnfold(env, x);
  }

  lemma DistinctParts(f: seq<Node>, i: seq<Node>, c: seq<Node>, g: seq<Node>)
    requires Distinct(NodeIds(f + i + c + g))
    ensures Distinct(NodeIds(i)) && Distinct(NodeIds(c)) && Distinct(NodeIds(g))
  {
    hide Distinct;
    NodeIdsConcat(f, i);
    NodeIdsConcat(f + i, c);
    NodeIdsConcat(f + i + c, g);
    DistinctConcat(NodeIds(f), NodeIds(i));
    DistinctConcat(NodeIds(f + i), NodeIds(c));
    DistinctConcat(NodeIds(f + i + c), NodeIds(g));
  }

  lemma OwnerOf(e: Edge)
    ensures e.relation == Authorizes ==> Owner(e) == e.target
  {
  }

  lemma PlanIsNoCheck(env: Env, x: Inputs, nodes: seq<Node>)
    requires UniqueIds(nodes) && Contains(nodes, FixedNodes(env, x)) && Contains(nodes, CheckNodes(env, CheckList(x)))
    ensures forall j :: 0 <= j < |CheckList(x)| ==> CheckNode(env, Members(CheckList(x)[j])).id != PlanNode(env, x).id
  {
    FixedKinds(env, x);
    FixedMembers(env, x);
    hide PlanNode, CheckNode, FixedNodes, CheckNodes, CheckList, Members;
    forall j | 0 <= j < |CheckList(x)|
      ensures CheckNode(env, Members(CheckList(x)[j])).id != PlanNode(env, x).id
    {
      CheckNodeIn(env, CheckList(x), j);
    }
  }

  lemma EdgePartsUnfold(env: Env, x: Inputs)
    ensures var items := Items(env, x.evidence);
            var sources := Sources(env, items);
            AllEdges(env, x) == FixedEdges(env, x) + ItemEdges(env, x, items)
                                + AllCheckEdges(env, x, CheckList(x), sources)
                                + AllFindingEdges(env, x, ListOf(Findings(x)), sources)
  {
    hide FixedEdges, ItemEdges, AllCheckEdges, AllFindingEdges, Items, Sources, CheckList, Findings, ListOf;
  }

  // --------------------------------------------------------------- the ids of the edges

  lemma LinkMade(env: Env, s: Node, t: Node, relation: Relation)
    ensures EdgeMade(env, Link(env, s, t, relation))
  {
    MakeEdgeMade(env, s.id, t.id, relation, JObject([]));
    hide EdgeMade, MakeEdge;
  }

  lemma FixedEdgesMade(env: Env, x: Inputs)
    ensures forall e :: e in FixedEdges(env, x) ==> EdgeMade(env, e)
  {
    hide AuthorityNode, PlanNode, SkillNode, RuntimeNode, AgentNode, ModelNode, EvidenceNode, VerdictNode, Link,
         EdgeMade;
    forall s, t, r ensures EdgeMade(env, Link(env, s, t, r)) {
      LinkMade(env, s, t, r);
    }
  }

  lemma ItemEdgesMade(env: Env, x: Inputs, items: seq<Item>)
    ensures forall e :: e in ItemEdges(env, x, items) ==> EdgeMade(env, e)
  {
    ItemEdgesAt(env, x, items);
    hide ItemEdges, EdgeMade, ItemNode, EvidenceNode, ItemAttributes, MakeEdge;
    forall i | 0 <= i < |items| ensures EdgeMade(env, ItemEdges(env, x, items)[i]) {
      MakeEdgeMade(env, ItemNode(env, items[i]).id, EvidenceNode(env, x).id, ContainedIn, ItemAttributes(items[i]));
    }
  }

  lemma CheckEdgesMade(env: Env, x: Inputs, c: Object, sources: map<string, string>)
    ensures forall e :: e in CheckEdges(env, x, c, sources) ==> EdgeMade(env, e)
  {
    hide *;
    forall e | e in CheckEdges(env, x, c, sources) ensures EdgeMade(env, e) {
      CheckEdgeCases(env, x, c, sources, e);
      if e in ReferenceEdges(env, c, CheckReferences(c), sources) {
        var ids := CheckReferences(c);
        var i :| 0 <= i < |ids| && e == ReferenceEdges(env, c, ids, sources)[i];
        MakeEdgeMade(env, CheckNode(env, c).id, Resolved(sources, Str(env, ids[i])), References, JObject([]));
      } else {
        LinkMade(env, CheckNode(env, c), VerdictNode(env, x), Supports);
        LinkMade(env, AuthorityNode(env, x), CheckNode(env, c), Authorizes);
      }
    }
  }

  lemma {:induction false} AllCheckEdgesMade(env: Env, x: Inputs, checks: seq<Json>, sources: map<string, string>)
    ensures forall e :: e in AllCheckEdges(env, x, checks, sources) ==> EdgeMade(env, e)
    decreases |checks|
  {
    hide CheckEdges, EdgeMade, Members;
    if checks != [] {
      AllCheckEdgesMade(env, x, checks[..|checks| - 1], sources);
      CheckEdgesMade(env, x, Members(checks[|checks| - 1]), sources);
    }
  }

  lemma FindingEdgesMade(env: Env, x: Inputs, finding: Object, sources: map<string, string>)
    ensures forall e :: e in FindingEdges(env, x, finding, sources) ==> EdgeMade(env, e)
  {
    hide *;
    forall e | e in FindingEdges(env, x, finding, sources) ensures EdgeMade(env, e) {
      FindingEdgeCases(env, x, finding, sources, e);
      var node := FindingNode(env, finding);
      LinkMade(env, node, VerdictNode(env, x), Constrains);
      if Named(env, finding).Some? {
        var raw := Named(env, finding).value;
        LinkMade(env, node, UnresolvedNode(env, raw), ReferencesMissing);
        if raw in sources {
          MakeEdgeMade(env, node.id, sources[raw], DerivedFrom, JObject([]));
        }
      }
    }
  }

  lemma {:induction false} AllFindingEdgesMade(env: Env, x: Inputs, findings: seq<Json>, sources: map<string, string>)
    ensures forall e :: e in AllFindingEdges(env, x, findings, sources) ==> EdgeMade(env, e)
    decreases |findings|
  {
    hide FindingEdges, EdgeMade, Members;
    if findings != [] {
      AllFindingEdgesMade(env, x, findings[..|findings| - 1], sources);
      FindingEdgesMade(env, x, Members(findings[|findings| - 1]), sources);
    }
  }

  lemma AllEdgesMade(env: Env, x: Inputs)
    ensures forall e :: e in AllEdges(env, x) ==> EdgeMade(env, e)
  {
    hide *;
    var items, sources := Items(env, x.evidence), Sources(env, Items(env, x.evidence));
    EdgePartsUnfold(env, x);
    FixedEdgesMade(env, x);
    ItemEdgesMade(env, x, items);
    AllCheckEdgesMade(env, x, CheckList(x), sources);
    AllFindingEdgesMade(env, x, ListOf(Findings(x)), sources);
  }

  lemma EdgeIdsTell(env: Env, x: Inputs, e: Edge, f: Edge)
    requires Canonical(env, Digested(env, x)) && e in AllEdges(env, x) && f in AllEdges(env, x) && e.id == f.id
    ensures SameEnds(e, f)
  {
    AllEdgesMade(env, x);
    hide AllNodes, AllEdges, Digested, EdgeContentOf;
    ContentIn(env, x);
    SamePrefix(env.digest(EdgeContentOf(e)), env.digest(EdgeContentOf(f)));
    SameEdgeContents(e, f);
  }

  lemma DistinctEdgeIds(env: Env, x: Inputs)
    requires Canonical(env, Digested(env, x)) && Apart(AllEdges(env, x))
    ensures Distinct(EdgeIds(AllEdges(env, x)))
  {
    hide Digested, AllEdges, Canonical, SameEnds;
    var edges := AllEdges(env, x);
    forall i, j | 0 <= i < j < |edges| ensures EdgeIds(edges)[i] != EdgeIds(edges)[j] {
      if edges[i].id == edges[j].id {
        EdgeIdsTell(env, x, edges[i], edges[j]);
      }
    }
  }

  // ---------------------------------------------------------------- the exact condition

  lemma AcceptableObjects(env: Env, x: Inputs)
    requires Acceptable(env, x)
    ensures AllObjects(CheckList(x)) && AllObjects(ListOf(Findings(x)))
    ensures var sources := Sources(env, Items(env, x.evidence));
            forall i :: 0 <= i < |CheckList(x)| ==> GoodCheck(env, CheckList(x)[i], sources)
  {
    hide HasSections, UnambiguousIds, Items, Sources, Checks, Iterate, CheckList, Findings, ListOf, GoodCheck,
         GoodFinding;
    var checks, findings, sources := CheckList(x), ListOf(Findings(x)), Sources(env, Items(env, x.evidence));
    forall i | 0 <= i < |checks| ensures checks[i].JObject? {
      GoodObject(env, checks[i], sources);
    }
    forall i | 0 <= i < |findings| ensures findings[i].JObject? {
      GoodFindingObject(env, x, findings[i], sources);
    }
  }

  lemma GoodFindingObject(env: Env, x: Inputs, finding: Json, sources: map<string, string>)
    requires GoodFinding(env, x, finding, sources)
    ensures finding.JObject?
  {
    hide IsMissing, Passing;
  }

  lemma MakeFair(env: Env, x: Inputs)
    requires Canonical(env, Digested(env, x)) && AllObjects(CheckList(x)) && AllObjects(ListOf(Findings(x)))
    ensures Fair(env, x)
  {
    hide Canonical, Digested, AllObjects, CheckList, ListOf, Findings;
  }

  /** With a digest that tells apart what it is given, up to the order of members, a graph is built
      exactly when every part is acceptable by itself, no check and no finding occurs twice up to
      that order, and no two findings name the same unknown evidence id. */
  lemma BuildableExact(env: Env, x: Inputs)
    requires Canonical(env, Digested(env, x))
    ensures Buildable(env, x) <==>
            && Acceptable(env, x)
            && NoneSame(CheckList(x)) && NoneSame(ListOf(Findings(x)))
            && NoTwoMissing(env, ListOf(Findings(x)), Sources(env, Items(env, x.evidence)))
  {
    hide *;
    BuildableUnfold(env, x);
    if Acceptable(env, x) {
      AcceptableObjects(env, x);
      MakeFair(env, x);
      NodeIdsExact(env, x);
      if Distinct(NodeIds(AllNodes(env, x))) {
        EdgesApart(env, x);
        DistinctEdgeIds(env, x);
      }
    }
  }
}
