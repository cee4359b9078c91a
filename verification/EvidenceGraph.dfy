/** The evidence graph of a run (src/skill_native/run_artifact_graph.py, `_build_graph`;
    src/skill_native/run_artifact_common.py, `EvidenceGraph`). Node and edge ids are digests of
    their content under an arbitrary digest function: nothing below needs it to be injective,
    because the graph validator refuses repeated ids. */
module EvidenceGraph {
  import opened Wrappers
  import opened Strings
  import opened Json

  datatype NodeKind =
    | EvaluatorAuthority | HarnessPlan | SkillProvenance | RuntimeKind | AgentKind | ModelKind
    | EvidenceBundle | HarnessVerdict | EvidenceObject | VerificationCheck | SecurityFinding | UnresolvedReference

  datatype Relation =
    | Authorizes | InputTo | Configures | Produces | EvaluatedBy | AuthorizesEvaluation | ContainedIn
    | Supports | References | Constrains | ReferencesMissing | DerivedFrom

  datatype Node = Node(id: string, kind: NodeKind, payload: string, attributes: Json)

  datatype Edge = Edge(id: string, source: string, target: string, relation: Relation, attributes: Json)

  datatype Graph = Graph(runId: string, nodes: seq<Node>, edges: seq<Edge>)

  datatype Authority = Authority(
    authorityId: string,
    kind: string,
    trustBasis: string,
    sourceUrl: string,
    commitOrDigest: string,
    manifestDigest: HexDigest,
    authorityDigest: HexDigest)

  /** What a bundle is built from. */
  datatype Inputs = Inputs(
    authority: Authority,
    plan: Object,
    planDigest: HexDigest,
    evidence: Object,
    evidenceDigest: HexDigest,
    verdict: Object,
    verdictDigest: HexDigest)

  function KindName(kind: NodeKind): string {
    match kind
    case EvaluatorAuthority => "evaluator_authority"
    case HarnessPlan => "harness_plan"
    case SkillProvenance => "skill_provenance"
    case RuntimeKind => "runtime"
    case AgentKind => "agent"
    case ModelKind => "model"
    case EvidenceBundle => "evidence_bundle"
    case HarnessVerdict => "harness_verdict"
    case EvidenceObject => "evidence_object"
    case VerificationCheck => "verification_check"
    case SecurityFinding => "security_finding"
    case UnresolvedReference => "unresolved_evidence_reference"
  }

  function RelationName(relation: Relation): string {
    match relation
    case Authorizes => "authorizes"
    case InputTo => "input_to"
    case Configures => "configures"
    case Produces => "produces"
    case EvaluatedBy => "evaluated_by"
    case AuthorizesEvaluation => "authorizes_evaluation"
    case ContainedIn => "contained_in"
    case Supports => "supports"
    case References => "references"
    case Constrains => "constrains"
    case ReferencesMissing => "references_missing"
    case DerivedFrom => "derived_from"
  }

  /** What the id of a node is the digest of. */
  function NodeContent(kind: NodeKind, payload: string, attributes: Json): Json {
    JObject([Member("kind", JString(KindName(kind))), Member("payload_digest", JString(payload)),
             Member("attributes", attributes)])
  }

  function EdgeContent(source: string, target: string, relation: Relation, attributes: Json): Json {
    JObject([Member("source", JString(source)), Member("target", JString(target)),
             Member("relation", JString(RelationName(relation))), Member("attributes", attributes)])
  }

  /** `add_node`, up to the appending. */
  function MakeNode(env: Env, kind: NodeKind, payload: string, attributes: Json): (n: Node)
    ensures n.kind == kind && n.payload == payload && n.attributes == attributes
  {
    Node("sha256:" + env.digest(NodeContent(kind, payload, attributes)), kind, payload, attributes)
  }

  /** `add_edge`, up to the appending. */
  function MakeEdge(env: Env, source: string, target: string, relation: Relation, attributes: Json): (e: Edge)
    ensures e.source == source && e.target == target && e.relation == relation
  {
    var content := EdgeContent(source, target, relation, attributes);
    Edge("sha256:" + env.digest(content), source, target, relation, attributes)
  }

  function Link(env: Env, source: Node, target: Node, relation: Relation): (e: Edge)
    ensures e.source == source.id && e.target == target.id && e.relation == relation
  {
    MakeEdge(env, source.id, target.id, relation, JObject([]))
  }

  // ------------------------------------------------------------ evidence objects

  /** One captured piece of evidence: its channel, its position in the channel, its value. */
  datatype Item = Item(channel: string, index: Option<nat>, value: Json)

  const LIST_CHANNELS := [
    "commands", "processes", "network", "inference", "findings", "ocsf_events", "agent_events", "test_results",
    "browser_events", "network_trace", "screenshots", "downloads"]

  const SINGULAR_CHANNELS := [
    "exit_code", "stdout", "stderr", "filesystem_before", "filesystem_after", "assertions", "runtime_metadata",
    "policy", "coding_receipt", "workspace_diff", "browser_receipt", "dom_snapshot", "accessibility_snapshot",
    "browser_assertions"]

  function ListItems(evidence: Object, captured: set<string>, channels: seq<string>): seq<Item> {
    if channels == [] then []
    else
      var value := GetOr(evidence, channels[0], JList([]));
      (if value.JList? then
         seq(|value.items|, i requires 0 <= i < |value.items| => Item(channels[0], Some(i), value.items[i]))
       else if channels[0] in captured then [Item(channels[0], None, value)] else [])
      + ListItems(evidence, captured, channels[1..])
  }

  predicate IsEmptyValue(j: Json) {
    j == JNull || j == JString("") || j == JList([]) || j == JObject([])
  }

  /** Raw output is replaced by its digest, length and emptiness. */
  function Summary(env: Env, channel: string, value: Json): Json {
    if channel in {"stdout", "stderr"} && value.JString? then
      JObject([Member("sha256", JString(env.textDigest(value.s))),
               Member("bytes", JNumber(env.utf8Length(value.s) as real)),
               Member("empty", JBool(value.s == ""))])
    else value
  }

  function SingularItems(env: Env, evidence: Object, captured: set<string>, channels: seq<string>): seq<Item> {
    if channels == [] then []
    else
      var value := Get(evidence, channels[0]);
      (if channels[0] in captured || (Has(evidence, channels[0]) && !IsEmptyValue(value))
       then [Item(channels[0], None, Summary(env, channels[0], value))] else [])
      + SingularItems(env, evidence, captured, channels[1..])
  }

  /** `_iter_evidence_objects`. */
  function Items(env: Env, evidence: Object): seq<Item> {
    var captured := Captured(env, evidence);
    ListItems(evidence, captured, LIST_CHANNELS) + SingularItems(env, evidence, captured, SINGULAR_CHANNELS)
  }

  /** The evidence id an object carries, if its value is a mapping with a non-empty one. */
  function SourceId(item: Item): Option<string> {
    if item.value.JObject? && HasText(item.value.members, "evidence_id")
    then Some(Text(item.value.members, "evidence_id")) else None
  }

  function ItemAttributes(item: Item): Json {
    JObject([Member("channel", JString(item.channel))]
            + (if item.index.Some? then [Member("index", JNumber(item.index.value as real))] else [])
            + (if SourceId(item).Some? then [Member("source_evidence_id", JString(SourceId(item).value))] else []))
  }

  // -------------------------------------------------------------- the fixed nodes

  function RunSpec(plan: Object): Object { Sub(plan, "run_spec") }

  function Field(key: string, o: Object): Member { Member(key, Get(o, key)) }

  function AuthorityNode(env: Env, x: Inputs): Node {
    var a := x.authority;
    MakeNode(env, EvaluatorAuthority, a.authorityDigest, JObject([
      Member("authority_id", JString(a.authorityId)), Member("kind", JString(a.kind)),
      Member("trust_basis", JString(a.trustBasis)), Member("source_url", JString(a.sourceUrl)),
      Member("commit_or_digest", JString(a.commitOrDigest))]))
  }

  function PlanNode(env: Env, x: Inputs): Node {
    MakeNode(env, HarnessPlan, x.planDigest, JObject([
      Field("manifest_id", x.plan), Field("manifest_version", x.plan), Field("domain", x.plan),
      Field("adapter", x.plan)]))
  }

  function SkillNode(env: Env, x: Inputs): Node {
    var skill := Sub(RunSpec(x.plan), "skill");
    MakeNode(env, SkillProvenance, Text(x.plan, "provenance_digest"), JObject([
      Field("source_url", skill), Field("commit_or_digest", skill), Field("entrypoint", skill)]))
  }

  function RuntimeNode(env: Env, x: Inputs): Node {
    var runtime := Sub(RunSpec(x.plan), "runtime");
    MakeNode(env, RuntimeKind, env.digest(JObject(runtime)), JObject([
      Field("backend", runtime), Field("version", runtime), Field("image_digest", runtime)]))
  }

  function AgentNode(env: Env, x: Inputs): Node {
    var agent := Sub(RunSpec(x.plan), "agent");
    MakeNode(env, AgentKind, env.digest(JObject(agent)), JObject([Field("harness", agent), Field("version", agent)]))
  }

  function ModelNode(env: Env, x: Inputs): Node {
    var model := Sub(RunSpec(x.plan), "model");
    MakeNode(env, ModelKind, env.digest(JObject(model)), JObject([
      Field("provider", model), Field("model", model), Field("quota_class", model)]))
  }

  function EvidenceNode(env: Env, x: Inputs): Node {
    var captured := Sorted(Captured(env, x.evidence));
    MakeNode(env, EvidenceBundle, x.evidenceDigest, JObject([
      Member("captured", JList(seq(|captured|, i requires 0 <= i < |captured| => JString(captured[i])))),
      Member("channel_count", JNumber(|captured| as real))]))
  }

  function VerdictNode(env: Env, x: Inputs): Node {
    MakeNode(env, HarnessVerdict, x.verdictDigest, JObject([
      Field("status", x.verdict), Field("security_gate", x.verdict),
      Member("failed_check_ids", GetOr(x.verdict, "failed_check_ids", JList([])))]))
  }

  function FixedNodes(env: Env, x: Inputs): seq<Node> {
    [AuthorityNode(env, x), PlanNode(env, x), SkillNode(env, x), RuntimeNode(env, x), AgentNode(env, x),
     ModelNode(env, x), EvidenceNode(env, x), VerdictNode(env, x)]
  }

  function FixedEdges(env: Env, x: Inputs): seq<Edge> {
    var authority, plan, evidence, verdict :=
      AuthorityNode(env, x), PlanNode(env, x), EvidenceNode(env, x), VerdictNode(env, x);
    [Link(env, authority, plan, Authorizes),
     Link(env, SkillNode(env, x), plan, InputTo),
     Link(env, RuntimeNode(env, x), plan, Configures),
     Link(env, AgentNode(env, x), plan, Configures),
     Link(env, ModelNode(env, x), plan, Configures),
     Link(env, plan, evidence, Produces),
     Link(env, evidence, verdict, EvaluatedBy),
     Link(env, authority, verdict, AuthorizesEvaluation)]
  }

  // ------------------------------------------------ nodes and edges found in loops

  function ItemNode(env: Env, item: Item): (n: Node)
    ensures n.kind == EvidenceObject
  {
    MakeNode(env, EvidenceObject, env.digest(item.value), ItemAttributes(item))
  }

  function ItemEdge(env: Env, x: Inputs, item: Item): Edge {
    MakeEdge(env, ItemNode(env, item).id, EvidenceNode(env, x).id, ContainedIn, ItemAttributes(item))
  }

  function CheckNode(env: Env, check: Object): (n: Node)
    ensures n.kind == VerificationCheck
  {
    MakeNode(env, VerificationCheck, env.digest(JObject(check)), JObject([
      Member("check_id", Get(check, "id")), Field("kind", check),
      Member("passed", JBool(Get(check, "passed") == JBool(true)))]))
  }

  /** The evidence ids of a check, where they are a list. */
  function CheckReferences(check: Object): seq<Json> {
    var ids := GetOr(check, "evidence_ids", JList([]));
    if ids.JList? then ids.items else []
  }

  function Resolved(sources: map<string, string>, raw: string): string {
    if raw in sources then sources[raw] else ""
  }

  function ReferenceEdges(env: Env, check: Object, ids: seq<Json>, sources: map<string, string>): (es: seq<Edge>)
    ensures |es| == |ids|
    ensures forall i :: 0 <= i < |ids| ==>
              es[i] == MakeEdge(env, CheckNode(env, check).id, Resolved(sources, Str(env, ids[i])),
                                References, JObject([]))
  {
    seq(|ids|, i requires 0 <= i < |ids| =>
      MakeEdge(env, CheckNode(env, check).id, Resolved(sources, Str(env, ids[i])), References, JObject([])))
  }

  function CheckEdges(env: Env, x: Inputs, check: Object, sources: map<string, string>): seq<Edge> {
    [Link(env, CheckNode(env, check), VerdictNode(env, x), Supports),
     Link(env, AuthorityNode(env, x), CheckNode(env, check), Authorizes)]
    + ReferenceEdges(env, check, CheckReferences(check), sources)
  }

  function FindingNode(env: Env, finding: Object): (n: Node)
    ensures n.kind == SecurityFinding
  {
    MakeNode(env, SecurityFinding, env.digest(JObject(finding)),
             JObject([Field("severity", finding), Field("rule", finding)]))
  }

  /** The evidence id a finding names, if it names one. */
  function Named(env: Env, finding: Object): Option<string> {
    var id := Get(finding, "evidence_id");
    if id == JNull || id == JString("") then None else Some(Str(env, id))
  }

  function IsMissing(env: Env, finding: Object, sources: map<string, string>): bool {
    Named(env, finding).Some? && Named(env, finding).value !in sources
  }

  function UnresolvedNode(env: Env, raw: string): (n: Node)
    ensures n.kind == UnresolvedReference
  {
    MakeNode(env, UnresolvedReference, env.digest(JObject([Member("source_evidence_id", JString(raw))])),
             JObject([Member("source_evidence_id", JString(raw)), Member("resolved", JBool(false))]))
  }

  function FindingNodes(env: Env, finding: Object, sources: map<string, string>): seq<Node> {
    [FindingNode(env, finding)]
    + (if IsMissing(env, finding, sources) then [UnresolvedNode(env, Named(env, finding).value)] else [])
  }

  function FindingEdges(env: Env, x: Inputs, finding: Object, sources: map<string, string>): seq<Edge> {
    [Link(env, FindingNode(env, finding), VerdictNode(env, x), Constrains)]
    + (match Named(env, finding)
       case None => []
       case Some(raw) =>
         if raw in sources
         then [MakeEdge(env, FindingNode(env, finding).id, sources[raw], DerivedFrom, JObject([]))]
         else [Link(env, FindingNode(env, finding), UnresolvedNode(env, raw), ReferencesMissing)])
  }

  function ItemNodes(env: Env, items: seq<Item>): seq<Node> {
    if items == [] then [] else ItemNodes(env, items[..|items| - 1]) + [ItemNode(env, items[|items| - 1])]
  }

  function ItemEdges(env: Env, x: Inputs, items: seq<Item>): seq<Edge> {
    if items == [] then [] else ItemEdges(env, x, items[..|items| - 1]) + [ItemEdge(env, x, items[|items| - 1])]
  }

  /** The index of evidence ids. */
  function Sources(env: Env, items: seq<Item>): map<string, string> {
    if items == [] then map[]
    else
      var before, item := Sources(env, items[..|items| - 1]), items[|items| - 1];
      if SourceId(item).Some? then before[SourceId(item).value := ItemNode(env, item).id] else before
  }

  function Members(j: Json): Object {
    if j.JObject? then j.members else []
  }

  function CheckNodes(env: Env, checks: seq<Json>): seq<Node> {
    if checks == [] then []
    else CheckNodes(env, checks[..|checks| - 1]) + [CheckNode(env, Members(checks[|checks| - 1]))]
  }

  function AllCheckEdges(env: Env, x: Inputs, checks: seq<Json>, sources: map<string, string>): seq<Edge> {
    if checks == [] then []
    else AllCheckEdges(env, x, checks[..|checks| - 1], sources)
         + CheckEdges(env, x, Members(checks[|checks| - 1]), sources)
  }

  function AllFindingNodes(env: Env, findings: seq<Json>, sources: map<string, string>): seq<Node> {
    if findings == [] then []
    else AllFindingNodes(env, findings[..|findings| - 1], sources)
         + FindingNodes(env, Members(findings[|findings| - 1]), sources)
  }

  function AllFindingEdges(env: Env, x: Inputs, findings: seq<Json>, sources: map<string, string>): seq<Edge> {
    if findings == [] then []
    else AllFindingEdges(env, x, findings[..|findings| - 1], sources)
         + FindingEdges(env, x, Members(findings[|findings| - 1]), sources)
  }

  // --------------------------------------------------------- when a graph is built

  function Checks(x: Inputs): Json { GetOr(x.verdict, "checks", JList([])) }

  /** What the loop over the checks visits. */
  function CheckList(x: Inputs): seq<Json> {
    match Iterate(Checks(x)) case None => [] case Some(items) => items
  }

  function Findings(x: Inputs): Json { GetOr(x.verdict, "security_findings", JList([])) }

  function ListOf(j: Json): seq<Json> {
    if j.JList? then j.items else []
  }

  predicate HasSections(plan: Object) {
    && Get(plan, "run_spec").JObject?
    && Get(RunSpec(plan), "skill").JObject? && Get(RunSpec(plan), "agent").JObject?
    && Get(RunSpec(plan), "model").JObject? && Get(RunSpec(plan), "runtime").JObject?
    && IsHex64(Text(plan, "provenance_digest")) && HasText(plan, "run_id")
  }

  /** No evidence id is carried by two evidence objects. */
  predicate UnambiguousIds(items: seq<Item>) {
    forall i, j :: 0 <= i < j < |items| && SourceId(items[i]).Some? ==> SourceId(items[i]) != SourceId(items[j])
  }

  /** A check is an object whose evidence ids are a list of different, known ids. */
  predicate GoodCheck(env: Env, check: Json, sources: map<string, string>) {
    && check.JObject?
    && GetOr(check.members, "evidence_ids", JList([])).JList?
    && var ids := CheckReferences(check.members);
       && Distinct(StrAll(env, ids))
       && forall i :: 0 <= i < |ids| ==> ids[i].JString? && ids[i].s != "" && ids[i].s in sources
  }

  predicate Passing(x: Inputs) {
    Get(x.verdict, "status") == JString("pass") || Get(x.verdict, "security_gate") == JString("pass")
  }

  /** A finding is an object; one that names an unknown evidence id is let through only for a
      verdict that passes in neither respect. */
  predicate GoodFinding(env: Env, x: Inputs, finding: Json, sources: map<string, string>) {
    finding.JObject? && (IsMissing(env, finding.members, sources) ==> !Passing(x))
  }

  function AllNodes(env: Env, x: Inputs): seq<Node> {
    var items := Items(env, x.evidence);
    FixedNodes(env, x) + ItemNodes(env, items) + CheckNodes(env, CheckList(x))
    + AllFindingNodes(env, ListOf(Findings(x)), Sources(env, items))
  }

  function AllEdges(env: Env, x: Inputs): seq<Edge> {
    var items := Items(env, x.evidence);
    var sources := Sources(env, items);
    FixedEdges(env, x) + ItemEdges(env, x, items) + AllCheckEdges(env, x, CheckList(x), sources)
    + AllFindingEdges(env, x, ListOf(Findings(x)), sources)
  }

  function NodeIds(nodes: seq<Node>): (ids: seq<string>)
    ensures |ids| == |nodes| && forall i :: 0 <= i < |nodes| ==> ids[i] == nodes[i].id
  {
    seq(|nodes|, i requires 0 <= i < |nodes| => nodes[i].id)
  }

  function EdgeIds(edges: seq<Edge>): (ids: seq<string>)
    ensures |ids| == |edges| && forall i :: 0 <= i < |edges| ==> ids[i] == edges[i].id
  {
    seq(|edges|, i requires 0 <= i < |edges| => edges[i].id)
  }

  /** What the loops of the builder demand of each part, apart from the ids. */
  predicate Acceptable(env: Env, x: Inputs) {
    var items := Items(env, x.evidence);
    var sources := Sources(env, items);
    && HasSections(x.plan)
    && UnambiguousIds(items)
    && Iterate(Checks(x)).Some?
    && (forall i :: 0 <= i < |CheckList(x)| ==> GoodCheck(env, CheckList(x)[i], sources))
    && Findings(x).JList?
    && (forall i :: 0 <= i < |ListOf(Findings(x))| ==> GoodFinding(env, x, ListOf(Findings(x))[i], sources))
  }

  /** Exactly when the builder returns a graph. */
  predicate Buildable(env: Env, x: Inputs) {
    Acceptable(env, x) && Distinct(NodeIds(AllNodes(env, x))) && Distinct(EdgeIds(AllEdges(env, x)))
  }
}
