/** The run-artifact builder (src/skill_native/run_artifact_builder.py, `build`) up to and
    including the validators of the bundle (src/skill_native/run_artifact_contract.py,
    src/skill_native/run_artifact_bundle.py). */
module Builder {
  import opened Wrappers
  import opened Strings
  import opened Json
  import opened EvidenceGraph
  import opened GraphProperties
  import opened GraphReach
  import opened GraphReferences
  import opened GraphBuilder
  import opened Snapshot
  import opened Replay
  import opened Scorecard
  import opened Continuity
  import opened LogicalTrace

  datatype Bundle = Bundle(
    runId: string,
    authorityDigest: HexDigest,
    graph: Graph,
    replay: Manifest,
    trace: Trace,
    card: Card,
    runtimeConfounder: Json,
    planDigest: HexDigest,
    evidenceDigest: HexDigest,
    verdictDigest: HexDigest)

  function Without(o: Object, key: string): Object {
    if o == [] then [] else (if o[0].key == key then [] else [o[0]]) + Without(o[1..], key)
  }

  /** `_validate_content_digest`. */
  predicate DigestMatches(env: Env, o: Object, key: string) {
    IsHex64(Text(o, key)) && env.digest(JObject(Without(o, key))) == Text(o, key)
  }

  function InputsOf(env: Env, authority: Authority, plan: Object, evidence: Object, verdict: Object): (x: Inputs)
    requires DigestMatches(env, plan, "plan_digest") && DigestMatches(env, verdict, "verdict_digest")
    ensures x.authority == authority && x.plan == plan && x.evidence == evidence && x.verdict == verdict
    ensures x.planDigest == Text(plan, "plan_digest") && x.verdictDigest == Text(verdict, "verdict_digest")
    ensures x.evidenceDigest == env.digest(JObject(evidence))
  {
    Inputs(authority, plan, Text(plan, "plan_digest"), evidence, env.digest(JObject(evidence)), verdict,
           Text(verdict, "verdict_digest"))
  }

  function Runtime(plan: Object): Object { Sub(RunSpec(plan), "runtime") }

  /** The runtime as the replay manifest describes it. */
  function RuntimeTriple(m: Manifest): Json {
    JObject([Member("backend", JString(m.backend)), Member("version", JString(m.version)),
             Member("image_digest", JString(m.imageDigest))])
  }

  /** The runtime as the confounders of the scorecard describe it. */
  function RuntimeConfounder(plan: Object): Json {
    JObject([Field("backend", Runtime(plan)), Field("version", Runtime(plan)), Field("image_digest", Runtime(plan))])
  }

  predicate Observed(g: Graph, kind: NodeKind, payload: string) {
    exists i :: 0 <= i < |g.nodes| && g.nodes[i].kind == kind && g.nodes[i].payload == payload
  }

  /** The cross checks between the parts of a bundle. */
  predicate ValidBundle(env: Env, b: Bundle) {
    && b.graph.runId == b.runId && b.replay.runId == b.runId && b.trace.runId == b.runId
    && b.trace.planDigest == b.planDigest && b.replay.planDigest == b.planDigest
    && b.card.replayClass == b.replay.replayClass
    && b.runtimeConfounder == RuntimeTriple(b.replay)
    && Observed(b.graph, EvaluatorAuthority, b.authorityDigest)
    && Observed(b.graph, HarnessPlan, b.planDigest)
    && Observed(b.graph, SkillProvenance, b.replay.provenance)
    && Observed(b.graph, EvidenceBundle, b.evidenceDigest)
    && Observed(b.graph, HarnessVerdict, b.verdictDigest)
    && Observed(b.graph, RuntimeKind, env.digest(RuntimeTriple(b.replay)))
    && Carried(b.trace.spans, "skill.native.authority_digest", b.authorityDigest)
    && Carried(b.trace.spans, "skill.native.plan_digest", b.planDigest)
    && Carried(b.trace.spans, "skill.native.evidence_digest", b.evidenceDigest)
    && Carried(b.trace.spans, "skill.native.verdict_digest", b.verdictDigest)
  }

  /** The runtime section of the plan is digested like its backend, version and image alone. */
  predicate PlainRuntime(env: Env, plan: Object) {
    env.digest(JObject(Runtime(plan))) == env.digest(RuntimeConfounder(plan))
  }

  /** Exactly what a bundle is built from. */
  predicate Bundleable(env: Env, authority: Authority, plan: Object, evidence: Object, verdict: Object) {
    && DigestMatches(env, plan, "plan_digest") && DigestMatches(env, verdict, "verdict_digest")
    && var x := InputsOf(env, authority, plan, evidence, verdict);
       && Continuous(env, x) && Buildable(env, x) && Replayable(plan, evidence)
       && Distinct(SpanIds(Spans(env, x)))
       && Required(env, plan).Some? && PlainRuntime(env, plan)
  }

  // --------------------------------------------------------------- the cross checks

  lemma ObserveIn(g: Graph, n: Node)
    requires n in g.nodes
    ensures Observed(g, n.kind, n.payload)
  {
  }

  lemma FixedAreNodes(env: Env, x: Inputs, g: Graph)
    requires IsGraphOf(env, x, g)
    ensures forall n :: n in FixedNodes(env, x) ==> n in g.nodes
  {
    FixedIn(env, x);
    hide AllNodes, AllEdges, FixedNodes, StrictlySorted;
  }

  lemma FixedPayloads(env: Env, x: Inputs)
    ensures AuthorityNode(env, x).payload == x.authority.authorityDigest && PlanNode(env, x).payload == x.planDigest
    ensures SkillNode(env, x).payload == Text(x.plan, "provenance_digest")
    ensures RuntimeNode(env, x).payload == env.digest(JObject(Runtime(x.plan)))
    ensures EvidenceNode(env, x).payload == x.evidenceDigest && VerdictNode(env, x).payload == x.verdictDigest
  {
    hide MakeNode, GetOr, Text, Sorted;
  }

  /** Five of the six nodes that the bundle validator looks for are always there. */
  lemma FixedObserved(env: Env, x: Inputs, g: Graph)
    requires IsGraphOf(env, x, g)
    ensures Observed(g, EvaluatorAuthority, x.authority.authorityDigest) && Observed(g, HarnessPlan, x.planDigest)
    ensures Observed(g, SkillProvenance, Text(x.plan, "provenance_digest"))
    ensures Observed(g, EvidenceBundle, x.evidenceDigest) && Observed(g, HarnessVerdict, x.verdictDigest)
    ensures Observed(g, RuntimeKind, env.digest(JObject(Runtime(x.plan))))
  {
    hide *;
    FixedAreNodes(env, x, g);
    FixedMembers(env, x);
    FixedKinds(env, x);
    FixedPayloads(env, x);
    ObserveIn(g, AuthorityNode(env, x));
    ObserveIn(g, PlanNode(env, x));
    ObserveIn(g, SkillNode(env, x));
    ObserveIn(g, EvidenceNode(env, x));
    ObserveIn(g, VerdictNode(env, x));
    ObserveIn(g, RuntimeNode(env, x));
  }

  lemma OneRuntime(env: Env, x: Inputs, n: Node)
    requires n in AllNodes(env, x) && n.kind == RuntimeKind
    ensures n == RuntimeNode(env, x)
  {
    hide *;
    var items := Items(env, x.evidence);
    NodeCases(env, x, n);
    FixedKinds(env, x);
    if n in FixedNodes(env, x) {
      FixedCases(env, x, n);
    } else if n in ItemNodes(env, items) {
      ItemLeads(env, x, n);
    } else if n in CheckNodes(env, CheckList(x)) {
      var j := CheckOf(env, x, CheckList(x), Sources(env, items), n);
    } else {
      var j := FindingOf(env, x, ListOf(Findings(x)), Sources(env, items), n);
      FindingCases(env, Members(ListOf(Findings(x))[j]), Sources(env, items), n);
    }
  }

  /** Which digest a runtime node can have. */
  lemma RuntimeObserved(env: Env, x: Inputs, g: Graph, payload: string)
    requires IsGraphOf(env, x, g)
    ensures Observed(g, RuntimeKind, payload) <==> payload == env.digest(JObject(Runtime(x.plan)))
  {
    hide *;
    FixedObserved(env, x, g);
    if Observed(g, RuntimeKind, payload) {
      var n := ObservedNode(g, RuntimeKind, payload);
      GraphNode(env, x, g, n);
      OneRuntime(env, x, n);
      FixedPayloads(env, x);
    }
  }

  lemma ObservedNode(g: Graph, kind: NodeKind, payload: string) returns (n: Node)
    requires Observed(g, kind, payload)
    ensures n in g.nodes && n.kind == kind && n.payload == payload
  {
    var i :| 0 <= i < |g.nodes| && g.nodes[i].kind == kind && g.nodes[i].payload == payload;
    n := g.nodes[i];
  }

  lemma GraphNode(env: Env, x: Inputs, g: Graph, n: Node)
    requires IsGraphOf(env, x, g) && n in g.nodes
    ensures n in AllNodes(env, x)
  {
    hide AllNodes, AllEdges, StrictlySorted;
  }

  /** The two descriptions of the runtime agree once the backend is continuous. */
  lemma SameRuntime(plan: Object, m: Manifest)
    requires m.backend == Text(plan, "runtime_backend") && m.version == Text(Runtime(plan), "version")
    requires m.imageDigest == Text(Runtime(plan), "image_digest")
    requires HasText(Runtime(plan), "backend") && Text(Runtime(plan), "backend") == Text(plan, "runtime_backend")
    requires HasText(Runtime(plan), "version") && HasText(Runtime(plan), "image_digest")
    ensures RuntimeConfounder(plan) == RuntimeTriple(m)
  {
    hide GetOr, Sub, Runtime;
  }

  /** Of all the cross checks on an assembled bundle only the one on the runtime node can fail. */
  lemma BundleExact(env: Env, x: Inputs, b: Bundle)
    requires IsGraphOf(env, x, b.graph) && b.runId == Text(x.plan, "run_id")
    requires b.authorityDigest == x.authority.authorityDigest
    requires b.planDigest == x.planDigest && b.evidenceDigest == x.evidenceDigest && b.verdictDigest == x.verdictDigest
    requires b.replay.runId == b.runId && b.replay.provenance == Text(x.plan, "provenance_digest")
    requires b.replay.planDigest == b.planDigest
    requires b.trace == Trace(Text(x.plan, "run_id"), x.planDigest, Spans(env, x))
    requires b.card.replayClass == b.replay.replayClass
    requires b.runtimeConfounder == RuntimeConfounder(x.plan) && RuntimeConfounder(x.plan) == RuntimeTriple(b.replay)
    ensures ValidBundle(env, b) <==> PlainRuntime(env, x.plan)
  {
    FixedObserved(env, x, b.graph);
    RuntimeObserved(env, x, b.graph, env.digest(RuntimeTriple(b.replay)));
    assert b.graph.runId == b.runId by { hide AllNodes, AllEdges, StrictlySorted; }
    AttributesCarried(env, x);
    hide IsGraphOf, Observed, RuntimeTriple, RuntimeConfounder, Text, Runtime, Carried, Spans;
  }

  lemma ConfounderKeys(plan: Object)
    ensures forall k :: Has(RuntimeConfounder(plan).members, k) <==> k in {"backend", "version", "image_digest"}
    ensures forall k :: k in {"backend", "version", "image_digest"} ==>
              Get(RuntimeConfounder(plan).members, k) == Get(Runtime(plan), k)
  {
    hide Runtime;
    var o := RuntimeConfounder(plan).members;
    assert o[0].key == "backend" && o[1].key == "version" && o[2].key == "image_digest";
    assert |"backend"| == |"version"| && "backend"[0] != "version"[0] && |"image_digest"| != |"backend"|;
    assert o[1..][0] == o[1] && o[1..][1..][0] == o[2];
    assert GetOr(o[1..][1..], "image_digest", JNull) == o[2].value;
    assert GetOr(o[1..], "image_digest", JNull) == o[2].value;
    assert GetOr(o[1..], "version", JNull) == o[1].value;
  }

  /** With a digest that tells mappings apart, up to the order of members, the runtime node is as the
      bundle validator wants it exactly when the runtime section has its three keys and no other. */
  lemma PlainRuntimeExact(env: Env, plan: Object)
    requires var a, b := JObject(Runtime(plan)), RuntimeConfounder(plan); env.digest(a) == env.digest(b) <==> Same(a, b)
    ensures PlainRuntime(env, plan) <==>
            forall k :: Has(Runtime(plan), k) <==> k in {"backend", "version", "image_digest"}
  {
    ConfounderKeys(plan);
    var m, n := Runtime(plan), RuntimeConfounder(plan).members;
    assert RuntimeConfounder(plan) == JObject(n);
    hide Runtime, RuntimeConfounder, GetOr, Has;
    if forall k :: Has(m, k) <==> k in {"backend", "version", "image_digest"} {
      forall k | Has(m, k) ensures Same(Get(m, k), Get(n, k)) {
        SameItself(Get(m, k));
      }
    }
  }

  /** With a digest that tells the keys of two mappings apart, a runtime section with any further
      key is refused by the bundle validator. */
  lemma ExtraRuntimeKey(env: Env, plan: Object, key: string)
    requires Has(Runtime(plan), key) && key !in {"backend", "version", "image_digest"}
    requires env.digest(JObject(Runtime(plan))) == env.digest(RuntimeConfounder(plan)) ==>
               forall k :: Has(Runtime(plan), k) <==> Has(RuntimeConfounder(plan).members, k)
    ensures forall authority, evidence, verdict :: !Bundleable(env, authority, plan, evidence, verdict)
  {
    hide Continuous, Buildable, Replayable, Required, DigestMatches, Runtime, Distinct, Spans;
    assert !Has(RuntimeConfounder(plan).members, key);
    assert !PlainRuntime(env, plan);
    hide PlainRuntime, Has;
  }

  // ---------------------------------------------------------------------- the build

  /** What holds of every scorecard in a bundle, for the verdict it comes from. */
  ghost predicate CardHolds(env: Env, verdict: Object, c: Card) {
    && ValidCard(c) && c.tier != Provisional && (c.rankEligible <==> c.failures == [])
    && (HasSevere(env, GetOr(verdict, "security_findings", JList([]))) ==> c.score == 0.0 && !c.rankEligible)
  }

  lemma AllChecksGood(env: Env, x: Inputs)
    requires Buildable(env, x) && Checks(x).JList?
    ensures forall i :: 0 <= i < |Checks(x).items| ==> Checks(x).items[i].JObject?
  {
    hide *;
    ListChecks(x);
    forall i | 0 <= i < |Checks(x).items| ensures Checks(x).items[i].JObject? {
      BuildableParts(env, x, i);
      GoodObject(env, Checks(x).items[i], Sources(env, Items(env, x.evidence)));
    }
  }

  lemma ListChecks(x: Inputs)
    requires Checks(x).JList?
    ensures CheckList(x) == Checks(x).items
  {
    hide Checks;
  }

  /** Under a status of "pass" every check of a verdict that holds, and from which a graph is built,
      is a mapping that passes. */
  lemma AllPass(env: Env, x: Inputs)
    requires VerdictHolds(env, x.verdict) && Buildable(env, x) && Str(env, Get(x.verdict, "status")) == "pass"
    ensures Checks(x).JList? && forall i :: 0 <= i < |Checks(x).items| ==> CheckPassed(Checks(x).items[i])
  {
    hide Buildable, VerdictHolds, Str, Get, GetOr, HasSevere, CheckPassed;
    VerdictMeaning(env, x.verdict);
    AllChecksGood(env, x);
  }

  /** What a card says of the verdict it comes from. */
  lemma CardOfVerdict(env: Env, x: Inputs, c: Card)
    requires IsCardOf(env, x.plan, x.evidence, x.verdict, c.replayClass, c)
    ensures c.status == Str(env, Get(x.verdict, "status")) && c.gate == Str(env, Get(x.verdict, "security_gate"))
    ensures c.failures == [] ==> c.status == "pass" && c.gate != "fail" && c.coverage == 1.0
    ensures Checks(x).JList?
    ensures (forall i :: 0 <= i < |Checks(x).items| ==> CheckPassed(Checks(x).items[i])) ==> c.passRate == 1.0
  {
    hide Str, Get, GetOr, HasSevere, CheckPassed, CountPassed, CountIn, Required, Captured, IsFailure;
    var checks := GetOr(x.verdict, "checks", JList([])).items;
    assert Checks(x).items == checks;
  }

  /** A card with no failures is one that may be ranked: the continuity check makes every check
      that is a mapping pass, and the graph is not built unless all of them are. */
  lemma NoFailures(env: Env, x: Inputs, c: Card)
    requires VerdictHolds(env, x.verdict) && Buildable(env, x)
    requires ValidCard(c)
    requires IsCardOf(env, x.plan, x.evidence, x.verdict, c.replayClass, c)
    ensures CardHolds(env, x.verdict, c)
  {
    hide ValidCard, VerdictHolds, Buildable, IsCardOf, Str, Get, GetOr, HasSevere, Checks, CheckPassed;
    ValidCardMeaning(c);
    VerdictMeaning(env, x.verdict);
    CardOfVerdict(env, x, c);
    if c.failures == [] {
      AllPass(env, x);
    }
  }

  lemma ContinuousParts(env: Env, x: Inputs)
    requires Continuous(env, x)
    ensures VerdictHolds(env, x.verdict)
    ensures HasText(x.plan, "run_id")
    ensures HasText(Runtime(x.plan), "backend") && Text(Runtime(x.plan), "backend") == Text(x.plan, "runtime_backend")
  {
    hide GetOr, VerdictHolds, IsImmutableReference, Text;
  }

  lemma ReplayableParts(plan: Object, evidence: Object)
    requires Replayable(plan, evidence)
    ensures HasText(Runtime(plan), "version") && HasText(Runtime(plan), "image_digest")
  {
    hide GetOr, IsHex64;
  }

  lemma FailsBoth(env: Env, x: Inputs)
    requires VerdictHolds(env, x.verdict) && !Passing(x)
    ensures Get(x.verdict, "status") == JString("fail") && Get(x.verdict, "security_gate") == JString("fail")
  {
    VerdictMeaning(env, x.verdict);
    hide GetOr, Str, VerdictHolds, HasSevere, CheckPassed;
  }

  /** A bundle is built exactly from what can be bundled, and passes the validator of bundles. Its
      card is never provisional, is eligible exactly when it lists no failure, and scores 0 when the
      verdict holds a severe finding; its graph has an unresolved reference only where both the
      status and the gate are "fail". */
  method Build(env: Env, authority: Authority, plan: Object, evidence: Object, verdict: Object)
    returns (r: Option<Bundle>)
    ensures r.Some? <==> Bundleable(env, authority, plan, evidence, verdict)
    ensures r.Some? ==>
              && ValidBundle(env, r.value) && CardHolds(env, verdict, r.value.card)
              && IsGraphOf(env, InputsOf(env, authority, plan, evidence, verdict), r.value.graph)
              && IsManifestOf(plan, evidence, r.value.replay)
              && ValidTrace(r.value.trace)
              && r.value.trace.spans == Spans(env, InputsOf(env, authority, plan, evidence, verdict))
              && IsCardOf(env, plan, evidence, verdict, r.value.replay.replayClass, r.value.card)
              && r.value.authorityDigest == authority.authorityDigest
              && r.value.planDigest == Text(plan, "plan_digest")
              && r.value.verdictDigest == Text(verdict, "verdict_digest")
              && r.value.evidenceDigest == env.digest(JObject(evidence))
              && (forall n :: n in r.value.graph.nodes && n.kind == UnresolvedReference ==>
                    Get(verdict, "status") == JString("fail") && Get(verdict, "security_gate") == JString("fail"))
  {
    hide *;
    BundleableCases(env, authority, plan, evidence, verdict);
    if !DigestMatches(env, plan, "plan_digest") || !DigestMatches(env, verdict, "verdict_digest") {
      return None;
    }
    var x := InputsOf(env, authority, plan, evidence, verdict);
    if !Continuous(env, x) {
      return None;
    }
    var graph := BuildGraph(env, x);
    if graph == None {
      return None;
    }
    var replay := BuildReplay(plan, evidence);
    if replay == None {
      return None;
    }
    ContinuousParts(env, x);
    var trace := BuildTrace(env, x);
    if trace == None {
      return None;
    }
    VerdictMeaning(env, verdict);
    SameChecks(x);
    var card := BuildScorecard(env, plan, evidence, verdict, replay.value.replayClass);
    if card == None {
      return None;
    }
    var b := Bundle(Text(plan, "run_id"), authority.authorityDigest, graph.value, replay.value, trace.value, card.value,
                    RuntimeConfounder(plan), x.planDigest, x.evidenceDigest, x.verdictDigest);
    ReplayableParts(plan, evidence);
    ManifestParts(plan, evidence, b.replay);
    SameRuntime(plan, b.replay);
    CardParts(env, x, b.replay.replayClass, b.card);
    GraphRun(env, x, b.graph);
    BundleExact(env, x, b);
    NoFailures(env, x, b.card);
    if exists n :: n in b.graph.nodes && n.kind == UnresolvedReference {
      FailsBoth(env, x);
    }
    if !ValidBundle(env, b) {
      return None;
    }
    return Some(b);
  }

  lemma ManifestParts(plan: Object, evidence: Object, m: Manifest)
    requires IsManifestOf(plan, evidence, m)
    ensures m.planDigest == Text(plan, "plan_digest")
    ensures m.runId == Text(plan, "run_id") && m.provenance == Text(plan, "provenance_digest")
    ensures m.backend == Text(plan, "runtime_backend") && m.version == Text(Runtime(plan), "version")
    ensures m.imageDigest == Text(Runtime(plan), "image_digest")
  {
    hide Sub, Text, GetOr, Digests, IsSha256Reference, IsMutableRef, Normal;
  }

  lemma CardParts(env: Env, x: Inputs, replayClass: ReplayClass, c: Card)
    requires IsCardOf(env, x.plan, x.evidence, x.verdict, replayClass, c)
    ensures c.replayClass == replayClass
    ensures c.status == Str(env, Get(x.verdict, "status")) && c.gate == Str(env, Get(x.verdict, "security_gate"))
  {
    hide Required, GetOr, HasSevere, Str, CountPassed, CountIn, Captured, IsFailure, CheckPassed;
  }

  lemma SameChecks(x: Inputs)
    ensures Checks(x) == GetOr(x.verdict, "checks", JList([]))
  {
    hide GetOr;
  }

  lemma GraphRun(env: Env, x: Inputs, g: Graph)
    requires IsGraphOf(env, x, g)
    ensures g.runId == Text(x.plan, "run_id")
  {
    hide AllNodes, AllEdges, StrictlySorted, Text;
  }

  lemma BundleableCases(env: Env, authority: Authority, plan: Object, evidence: Object, verdict: Object)
    ensures Bundleable(env, authority, plan, evidence, verdict) <==>
              && DigestMatches(env, plan, "plan_digest") && DigestMatches(env, verdict, "verdict_digest")
              && var x := InputsOf(env, authority, plan, evidence, verdict);
                 && Continuous(env, x) && Buildable(env, x) && Replayable(plan, evidence)
                 && Distinct(SpanIds(Spans(env, x)))
                 && Required(env, plan).Some? && PlainRuntime(env, plan)
  {
    hide DigestMatches, InputsOf, Continuous, Buildable, Replayable, Required, PlainRuntime, Distinct, Spans;
  }
}
