/** When the ids of an evidence graph are distinct, in terms of what the graph is built from. */
module GraphIds {
  import opened Wrappers
  import opened Strings
  import opened Json
  import opened EvidenceGraph
  import opened GraphReach

  lemma DistinctConcat(a: seq<string>, b: seq<string>)
    ensures Distinct(a + b) <==> Distinct(a) && Distinct(b) && (forall x :: x in b ==> x !in a)
  {
    var c := a + b;
    assert forall i :: 0 <= i < |a| ==> c[i] == a[i];
    assert forall i :: 0 <= i < |b| ==> c[|a| + i] == b[i];
    if Distinct(c) {
      forall i, j | 0 <= i < j < |b| ensures b[i] != b[j] {
        assert c[|a| + i] != c[|a| + j];
      }
      forall i, j | 0 <= i < |a| && 0 <= j < |b| ensures a[i] != b[j] {
        assert c[i] != c[|a| + j];
      }
    }
    if Distinct(a) && Distinct(b) && forall x :: x in b ==> x !in a {
      forall i, j | 0 <= i < j < |c| ensures c[i] != c[j] {
        if i < |a| <= j {
          assert c[j] == b[j - |a|] && b[j - |a|] in b;
        } else if |a| <= i {
          assert c[i] == b[i - |a|] && c[j] == b[j - |a|];
        }
      }
    }
  }

  // -------------------------------------------------------- a digest of sorted members

  function ContentOf(n: Node): Json { NodeContent(n.kind, n.payload, n.attributes) }

  function EdgeContentOf(e: Edge): Json { EdgeContent(e.source, e.target, e.relation, e.attributes) }

  /** Everything that is digested into an id or into the payload of a check or finding. */
  function Digested(env: Env, x: Inputs): set<Json> {
    (set n | n in AllNodes(env, x) :: ContentOf(n)) + (set e | e in AllEdges(env, x) :: EdgeContentOf(e))
    + (set c | c in CheckList(x)) + (set f | f in ListOf(Findings(x)))
  }

  /** The digest tells apart what it is given, up to the order of members: it has no collision, and
      sorting the keys makes that order irrelevant. */
  ghost predicate Canonical(env: Env, contents: set<Json>) {
    forall a, b :: a in contents && b in contents ==> (env.digest(a) == env.digest(b) <==> Same(a, b))
  }

  lemma KindNameInjective(a: NodeKind, b: NodeKind)
    requires KindName(a) == KindName(b)
    ensures a == b
  {
    var s, t := KindName(a), KindName(b);
    assert |s| == |t| && s[0] == t[0] && s[1] == t[1];
    if |s| > 9 { assert s[9] == t[9]; }
  }

  lemma RelationNameInjective(a: Relation, b: Relation)
    requires RelationName(a) == RelationName(b)
    ensures a == b
  {
    var s, t := RelationName(a), RelationName(b);
    assert |s| == |t| && s[0] == t[0] && s[3] == t[3];
  }

  /** Nodes that agree up to the order of members in their attributes. */
  ghost predicate Alike(m: Node, n: Node) {
    m.kind == n.kind && m.payload == n.payload && Same(m.attributes, n.attributes)
  }

  lemma NodeFields(n: Node)
    ensures var o := ContentOf(n).members;
            && Get(o, "kind") == JString(KindName(n.kind)) && Get(o, "payload_digest") == JString(n.payload)
            && Get(o, "attributes") == n.attributes
  {
    hide KindName;
    var o := ContentOf(n).members;
    assert |"kind"| != |"payload_digest"| && |"attributes"| != |"kind"| && |"attributes"| != |"payload_digest"|;
    assert o[1..][0] == o[1] && o[1..][1..][0] == o[2];
    assert GetOr(o[1..][1..], "attributes", JNull) == n.attributes;
    assert GetOr(o[1..], "attributes", JNull) == n.attributes;
    assert GetOr(o[1..], "payload_digest", JNull) == JString(n.payload);
  }

  lemma SameContents(m: Node, n: Node)
    ensures Same(ContentOf(m), ContentOf(n)) <==> Alike(m, n)
  {
    NodeFields(m);
    NodeFields(n);
    var a, b := ContentOf(m).members, ContentOf(n).members;
    assert ContentOf(m) == JObject(a) && ContentOf(n) == JObject(b);
    if Same(ContentOf(m), ContentOf(n)) {
      hide ContentOf, GetOr, KindName;
      SameGet(a, b, "kind");
      SameGet(a, b, "payload_digest");
      SameGet(a, b, "attributes");
      KindNameInjective(m.kind, n.kind);
    }
    if Alike(m, n) {
      hide Same, KindName;
      SameStrings(KindName(m.kind));
      SameStrings(m.payload);
      SameObjects(a, b);
    }
  }

  lemma SameStrings(s: string)
    ensures Same(JString(s), JString(s))
  {
  }

  lemma EdgeFields(e: Edge)
    ensures var o := EdgeContentOf(e).members;
            && Get(o, "source") == JString(e.source) && Get(o, "target") == JString(e.target)
            && Get(o, "relation") == JString(RelationName(e.relation))
  {
    hide RelationName;
    var o := EdgeContentOf(e).members;
    assert "source"[0] != "target"[0] && |"relation"| != |"source"| && |"relation"| != |"target"|;
    assert o[1..][0] == o[1] && o[1..][1..][0] == o[2];
    assert GetOr(o[1..][1..], "relation", JNull) == JString(RelationName(e.relation));
    assert GetOr(o[1..], "relation", JNull) == JString(RelationName(e.relation));
    assert GetOr(o[1..], "target", JNull) == JString(e.target);
  }

  lemma SameEdgeContents(e: Edge, f: Edge)
    requires Same(EdgeContentOf(e), EdgeContentOf(f))
    ensures e.source == f.source && e.target == f.target && e.relation == f.relation
  {
    EdgeFields(e);
    EdgeFields(f);
    var a, b := EdgeContentOf(e).members, EdgeContentOf(f).members;
    assert EdgeContentOf(e) == JObject(a) && EdgeContentOf(f) == JObject(b);
    hide EdgeContentOf, GetOr, RelationName;
    SameGet(a, b, "source");
    SameGet(a, b, "target");
    SameGet(a, b, "relation");
    RelationNameInjective(e.relation, f.relation);
  }

  predicate Made(env: Env, n: Node) { n.id == "sha256:" + env.digest(ContentOf(n)) }

  predicate EdgeMade(env: Env, e: Edge) { e.id == "sha256:" + env.digest(EdgeContentOf(e)) }

  lemma MakeEdgeMade(env: Env, source: string, target: string, relation: Relation, attributes: Json)
    ensures EdgeMade(env, MakeEdge(env, source, target, relation, attributes))
  {
    hide EdgeContent;
  }

  lemma SamePrefix(a: string, b: string)
    requires "sha256:" + a == "sha256:" + b
    ensures a == b
  {
    assert ("sha256:" + a)[7..] == a && ("sha256:" + b)[7..] == b;
  }

  // ------------------------------------------------------------------ nodes and edges

  lemma FixedMade(env: Env, x: Inputs)
    ensures Made(env, AuthorityNode(env, x)) && Made(env, PlanNode(env, x)) && Made(env, SkillNode(env, x))
    ensures Made(env, RuntimeNode(env, x)) && Made(env, AgentNode(env, x)) && Made(env, ModelNode(env, x))
    ensures Made(env, EvidenceNode(env, x)) && Made(env, VerdictNode(env, x))
  {
    hide NodeContent, GetOr, Text, Sorted, Captured, Sub;
  }

  lemma OthersMade(env: Env, item: Item, check: Object, finding: Object, raw: string)
    ensures Made(env, ItemNode(env, item)) && Made(env, CheckNode(env, check))
    ensures Made(env, FindingNode(env, finding)) && Made(env, UnresolvedNode(env, raw))
  {
    hide NodeContent, GetOr, ItemAttributes;
  }

  lemma FindingNodeCases(env: Env, finding: Object, sources: map<string, string>, n: Node)
    requires n in FindingNodes(env, finding, sources)
    ensures n == FindingNode(env, finding)
            || (Named(env, finding).Some? && IsMissing(env, finding, sources)
                && n == UnresolvedNode(env, Named(env, finding).value))
  {
    hide FindingNode, Named, UnresolvedNode;
  }

  lemma AllMade(env: Env, x: Inputs, n: Node)
    requires n in AllNodes(env, x)
    ensures Made(env, n)
  {
    hide *;
    var items, sources := Items(env, x.evidence), Sources(env, Items(env, x.evidence));
    NodeCases(env, x, n);
    FixedMade(env, x);
    if n in FixedNodes(env, x) {
      FixedCases(env, x, n);
    } else if n in ItemNodes(env, items) {
      var j := ItemOf(env, x, items, n);
      OthersMade(env, items[j], [], [], "");
    } else if n in CheckNodes(env, CheckList(x)) {
      var j := CheckOf(env, x, CheckList(x), sources, n);
      OthersMade(env, Item("", None, JNull), Members(CheckList(x)[j]), [], "");
    } else {
      var j := FindingOf(env, x, ListOf(Findings(x)), sources, n);
      var f := Members(ListOf(Findings(x))[j]);
      FindingNodeCases(env, f, sources, n);
      OthersMade(env, Item("", None, JNull), [], f, if Named(env, f).Some? then Named(env, f).value else "");
    }
  }

  lemma ContentIn(env: Env, x: Inputs)
    ensures forall n :: n in AllNodes(env, x) ==> ContentOf(n) in Digested(env, x)
    ensures forall e :: e in AllEdges(env, x) ==> EdgeContentOf(e) in Digested(env, x)
    ensures forall c :: c in CheckList(x) || c in ListOf(Findings(x)) ==> c in Digested(env, x)
  {
    hide AllNodes, AllEdges, ContentOf, EdgeContentOf, CheckList, ListOf, Findings;
  }

  /** Nodes have the same id exactly when they are alike. */
  ghost predicate Identified(nodes: seq<Node>) {
    forall m, n :: m in nodes && n in nodes ==> (m.id == n.id <==> Alike(m, n))
  }

  lemma SameIds(env: Env, m: Node, n: Node, contents: set<Json>)
    requires Canonical(env, contents) && ContentOf(m) in contents && ContentOf(n) in contents
    requires Made(env, m) && Made(env, n)
    ensures m.id == n.id <==> Alike(m, n)
  {
    hide ContentOf, Alike;
    SameContents(m, n);
    if m.id == n.id {
      SamePrefix(env.digest(ContentOf(m)), env.digest(ContentOf(n)));
    }
  }

  lemma NodesIdentified(env: Env, x: Inputs)
    requires Canonical(env, Digested(env, x))
    ensures Identified(AllNodes(env, x))
  {
    ContentIn(env, x);
    hide AllNodes, AllEdges, Digested, ContentOf, Made, Alike, Canonical, CheckList, ListOf, Findings;
    forall m, n | m in AllNodes(env, x) && n in AllNodes(env, x) ensures m.id == n.id <==> Alike(m, n) {
      AllMade(env, x, m);
      AllMade(env, x, n);
      SameIds(env, m, n, Digested(env, x));
    }
  }

  // -------------------------------------------------------------------- the items differ

  /** No two items have the same channel and position. */
  predicate Placed(items: seq<Item>) {
    forall i, j :: 0 <= i < j < |items| ==> items[i].channel != items[j].channel || items[i].index != items[j].index
  }

  predicate InChannels(items: seq<Item>, channels: seq<string>) {
    forall i :: 0 <= i < |items| ==> items[i].channel in channels
  }

  lemma PlacedConcat(a: seq<Item>, b: seq<Item>, p: seq<string>, q: seq<string>)
    requires Placed(a) && Placed(b) && InChannels(a, p) && InChannels(b, q) && forall c :: c in p ==> c !in q
    ensures Placed(a + b) && InChannels(a + b, p + q)
  {
  }

  lemma TailDiffers(channels: seq<string>)
    requires Distinct(channels) && channels != []
    ensures Distinct(channels[1..]) && channels[0] !in channels[1..]
  {
    assert channels == [channels[0]] + channels[1..];
    DistinctConcat([channels[0]], channels[1..]);
  }

  lemma {:induction false} ListItemsPlaced(evidence: Object, captured: set<string>, channels: seq<string>)
    requires Distinct(channels)
    ensures Placed(ListItems(evidence, captured, channels))
    ensures InChannels(ListItems(evidence, captured, channels), channels)
    decreases |channels|
  {
    if channels != [] {
      TailDiffers(channels);
      ListItemsPlaced(evidence, captured, channels[1..]);
      hide GetOr, Distinct;
      var rest := ListItems(evidence, captured, channels[1..]);
      var all := ListItems(evidence, captured, channels);
      var first := all[..|all| - |rest|];
      assert all == first + rest;
      assert Placed(first) && InChannels(first, [channels[0]]);
      PlacedConcat(first, rest, [channels[0]], channels[1..]);
      assert [channels[0]] + channels[1..] == channels;
    }
  }

  lemma {:induction false} SingularItemsPlaced(env: Env, evidence: Object, captured: set<string>, channels: seq<string>)
    requires Distinct(channels)
    ensures Placed(SingularItems(env, evidence, captured, channels))
    ensures InChannels(SingularItems(env, evidence, captured, channels), channels)
    decreases |channels|
  {
    if channels != [] {
      TailDiffers(channels);
      SingularItemsPlaced(env, evidence, captured, channels[1..]);
      hide GetOr, Distinct, Summary, Has, IsEmptyValue;
      var rest := SingularItems(env, evidence, captured, channels[1..]);
      var all := SingularItems(env, evidence, captured, channels);
      var first := all[..|all| - |rest|];
      assert all == first + rest;
      assert Placed(first) && InChannels(first, [channels[0]]);
      PlacedConcat(first, rest, [channels[0]], channels[1..]);
      assert [channels[0]] + channels[1..] == channels;
    }
  }

  /** A number that tells the channels apart. */
  function Signature(channel: string): nat {
    if |channel| > 3 then 1000 * |channel| + channel[3] as nat else 0
  }

  const SIGNATURES: seq<nat> := [
    8109, 9099, 7119, 9101, 8100, 11102, 12110, 12116, 14119, 13119,
    11101, 9110, 9116, 6111, 6101, 17101, 16101, 10101, 16116, 6105,
    14105, 14107, 15119, 12095, 22101, 18119]

  lemma ListSignatures()
    ensures |LIST_CHANNELS| == 12
    ensures forall i :: 0 <= i < 12 ==> Signature(LIST_CHANNELS[i]) == SIGNATURES[i]
  {
  }

  lemma SingularSignatures()
    ensures |SINGULAR_CHANNELS| == 14 && |SIGNATURES| == 26
    ensures forall i :: 0 <= i < 14 ==> Signature(SINGULAR_CHANNELS[i]) == SIGNATURES[12 + i]
  {
  }

  lemma SignaturesDiffer()
    ensures forall i, j :: 0 <= i < j < |SIGNATURES| ==> SIGNATURES[i] != SIGNATURES[j]
  {
  }

  lemma DistinctAll(xs: seq<string>)
    requires forall i, j :: 0 <= i < j < |xs| ==> xs[i] != xs[j]
    ensures Distinct(xs)
  {
  }

  lemma ChannelsDiffer()
    ensures Distinct(LIST_CHANNELS) && Distinct(SINGULAR_CHANNELS)
    ensures forall c :: c in LIST_CHANNELS ==> c !in SINGULAR_CHANNELS
  {
    hide *;
    var all := LIST_CHANNELS + SINGULAR_CHANNELS;
    ListSignatures();
    SingularSignatures();
    SignaturesDiffer();
    forall i | 0 <= i < 26 ensures Signature(all[i]) == SIGNATURES[i] {
      if i >= 12 {
        assert all[i] == SINGULAR_CHANNELS[i - 12];
      }
    }
    forall i, j | 0 <= i < j < 26 ensures all[i] != all[j] {
      assert Signature(all[i]) != Signature(all[j]);
    }
    DistinctAll(all);
    DistinctConcat(LIST_CHANNELS, SINGULAR_CHANNELS);
  }

  lemma ItemsPlaced(env: Env, evidence: Object)
    ensures Placed(Items(env, evidence))
  {
    hide *;
    var captured := Captured(env, evidence);
    ChannelsDiffer();
    ListItemsPlaced(evidence, captured, LIST_CHANNELS);
    SingularItemsPlaced(env, evidence, captured, SINGULAR_CHANNELS);
    PlacedConcat(ListItems(evidence, captured, LIST_CHANNELS),
                 SingularItems(env, evidence, captured, SINGULAR_CHANNELS), LIST_CHANNELS, SINGULAR_CHANNELS);
    ItemsUnfold(env, evidence);
  }

  lemma ItemsUnfold(env: Env, evidence: Object)
    ensures Items(env, evidence) ==
            ListItems(evidence, Captured(env, evidence), LIST_CHANNELS)
            + SingularItems(env, evidence, Captured(env, evidence), SINGULAR_CHANNELS)
  {
    hide ListItems, SingularItems, Captured;
  }
}
