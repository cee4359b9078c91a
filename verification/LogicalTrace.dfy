/** The logical trace of a run (src/skill_native/run_artifact_derived.py, `_build_trace`;
    src/skill_native/run_artifact_contract.py, `LogicalTrace`): five spans, each the parent of the
    next, with ids cut from digests of their content. */
module LogicalTrace {
  import opened Wrappers
  import opened Strings
  import opened Json
  import opened EvidenceGraph

  datatype Span = Span(id: string, parent: Option<string>, name: string, ok: bool, attributes: Object)

  datatype Trace = Trace(runId: string, planDigest: string, spans: seq<Span>)

  function SpanContent(parent: Option<string>, name: string, ok: bool, attributes: Object): Json {
    JObject([Member("parent_span_id", if parent.Some? then JString(parent.value) else JNull),
             Member("name", JString(name)), Member("kind", JString("internal")),
             Member("status", JString(if ok then "ok" else "error")), Member("attributes", JObject(attributes))])
  }

  /** `add_span`, up to the appending. */
  function MakeSpan(env: Env, parent: Option<string>, name: string, ok: bool, attributes: Object): (s: Span)
    ensures s.parent == parent && s.name == name && s.ok == ok && s.attributes == attributes
  {
    Span(env.digest(SpanContent(parent, name, ok, attributes))[..16], parent, name, ok, attributes)
  }

  function AuthoritySpan(env: Env, x: Inputs): Span {
    MakeSpan(env, None, "skill-native.authority.resolve", true,
             [Member("skill.native.authority_id", JString(x.authority.authorityId)),
              Member("skill.native.authority_digest", JString(x.authority.authorityDigest))])
  }

  function PlanSpan(env: Env, x: Inputs): Span {
    MakeSpan(env, Some(AuthoritySpan(env, x).id), "skill-native.harness.plan", true,
             [Member("skill.native.plan_digest", JString(x.planDigest)),
              Member("skill.native.manifest_digest", Get(x.plan, "manifest_digest")),
              Member("skill.native.provenance_digest", Get(x.plan, "provenance_digest")),
              Member("skill.native.domain", Get(x.plan, "domain")),
              Member("skill.native.adapter", Get(x.plan, "adapter"))])
  }

  /** Python takes false for equal to 0. */
  predicate ExitsClean(evidence: Object) {
    Get(evidence, "exit_code") in {JNumber(0.0), JBool(false)}
  }

  function ExecuteSpan(env: Env, x: Inputs): Span {
    var captured := Sorted(Captured(env, x.evidence));
    MakeSpan(env, Some(PlanSpan(env, x).id), "skill-native.harness.execute", ExitsClean(x.evidence),
             [Member("skill.native.evidence_digest", JString(x.evidenceDigest)),
              Member("skill.native.runtime_backend", Get(x.plan, "runtime_backend")),
              Member("skill.native.exit_code", Get(x.evidence, "exit_code")),
              Member("skill.native.captured_evidence",
                     JList(seq(|captured|, i requires 0 <= i < |captured| => JString(captured[i]))))])
  }

  function VerifySpan(env: Env, x: Inputs): Span {
    MakeSpan(env, Some(ExecuteSpan(env, x).id), "skill-native.harness.verify",
             Get(x.verdict, "status") == JString("pass"),
             [Member("skill.native.verdict_digest", JString(x.verdictDigest)),
              Member("skill.native.verdict_status", Get(x.verdict, "status")),
              Member("skill.native.security_gate", Get(x.verdict, "security_gate"))])
  }

  function BuildSpan(env: Env, x: Inputs): Span {
    MakeSpan(env, Some(VerifySpan(env, x).id), "skill-native.run-artifacts.build", true,
             [Member("skill.native.timing_state", JString("not-captured")),
              Member("skill.native.trace_kind", JString("deterministic-logical-envelope"))])
  }

  function Spans(env: Env, x: Inputs): (r: seq<Span>)
    ensures |r| == 5
  {
    [AuthoritySpan(env, x), PlanSpan(env, x), ExecuteSpan(env, x), VerifySpan(env, x), BuildSpan(env, x)]
  }

  function SpanIds(spans: seq<Span>): (ids: seq<string>)
    ensures |ids| == |spans| && forall i :: 0 <= i < |spans| ==> ids[i] == spans[i].id
  {
    seq(|spans|, i requires 0 <= i < |spans| => spans[i].id)
  }

  /** The validator of the trace, apart from the digests. */
  predicate ValidTrace(t: Trace) {
    && Distinct(SpanIds(t.spans))
    && forall i :: 0 <= i < |t.spans| && t.spans[i].parent.Some? ==> t.spans[i].parent.value in SpanIds(t.spans)
  }

  /** Some span carries the attribute. */
  predicate Carried(spans: seq<Span>, key: string, value: string) {
    exists i :: 0 <= i < |spans| && Get(spans[i].attributes, key) == JString(value)
  }

  /** Parents are always known, so a trace is built unless two cut digests happen to be the same. */
  method BuildTrace(env: Env, x: Inputs) returns (r: Option<Trace>)
    ensures r.Some? <==> HasText(x.plan, "run_id") && Distinct(SpanIds(Spans(env, x)))
    ensures r.Some? ==> ValidTrace(r.value)
    ensures r.Some? ==> r.value == Trace(Text(x.plan, "run_id"), x.planDigest, Spans(env, x))
  {
    ParentsKnown(env, x);
    hide *;
    if !HasText(x.plan, "run_id") {
      return None;
    }
    var t := Trace(Text(x.plan, "run_id"), x.planDigest, Spans(env, x));
    TraceCases(t);
    if !ValidTrace(t) {
      return None;
    }
    return Some(t);
  }

  lemma TraceCases(t: Trace)
    requires forall i :: 0 <= i < |t.spans| && t.spans[i].parent.Some? ==> t.spans[i].parent.value in SpanIds(t.spans)
    ensures ValidTrace(t) <==> Distinct(SpanIds(t.spans))
  {
    hide Distinct;
  }

  lemma ParentsKnown(env: Env, x: Inputs)
    ensures var spans := Spans(env, x);
            forall i :: 0 <= i < |spans| && spans[i].parent.Some? ==> spans[i].parent.value in SpanIds(spans)
  {
    ParentIds(env, x);
    hide AuthoritySpan, PlanSpan, ExecuteSpan, VerifySpan, BuildSpan;
    var ids := SpanIds(Spans(env, x));
    assert ids[0] in ids && ids[1] in ids && ids[2] in ids && ids[3] in ids;
  }

  lemma ParentIds(env: Env, x: Inputs)
    ensures AuthoritySpan(env, x).parent == None && PlanSpan(env, x).parent == Some(AuthoritySpan(env, x).id)
    ensures ExecuteSpan(env, x).parent == Some(PlanSpan(env, x).id)
    ensures VerifySpan(env, x).parent == Some(ExecuteSpan(env, x).id)
    ensures BuildSpan(env, x).parent == Some(VerifySpan(env, x).id)
  {
    hide MakeSpan, Captured, GetOr, ExitsClean;
  }

  /** The attributes that the bundle validator looks for are always there. */
  lemma AttributesCarried(env: Env, x: Inputs)
    ensures var spans := Spans(env, x);
            && Carried(spans, "skill.native.authority_digest", x.authority.authorityDigest)
            && Carried(spans, "skill.native.plan_digest", x.planDigest)
            && Carried(spans, "skill.native.evidence_digest", x.evidenceDigest)
            && Carried(spans, "skill.native.verdict_digest", x.verdictDigest)
  {
    SpanAttributes(env, x);
    hide AuthoritySpan, PlanSpan, ExecuteSpan, VerifySpan, BuildSpan, GetOr;
    var spans := Spans(env, x);
    assert spans[0] == AuthoritySpan(env, x) && spans[1] == PlanSpan(env, x) && spans[2] == ExecuteSpan(env, x)
        && spans[3] == VerifySpan(env, x);
  }

  lemma SecondMember(a: Member, b: Member)
    requires a.key != b.key
    ensures Get([a, b], b.key) == b.value
  {
    assert [a, b][1..] == [b];
    assert GetOr([b], b.key, JNull) == b.value;
  }

  lemma SpanAttributes(env: Env, x: Inputs)
    ensures Get(AuthoritySpan(env, x).attributes, "skill.native.authority_digest") ==
            JString(x.authority.authorityDigest)
    ensures Get(PlanSpan(env, x).attributes, "skill.native.plan_digest") == JString(x.planDigest)
    ensures Get(ExecuteSpan(env, x).attributes, "skill.native.evidence_digest") == JString(x.evidenceDigest)
    ensures Get(VerifySpan(env, x).attributes, "skill.native.verdict_digest") == JString(x.verdictDigest)
  {
    hide MakeSpan, Captured, ExitsClean;
    assert |"skill.native.authority_id"| != |"skill.native.authority_digest"|;
    SecondMember(Member("skill.native.authority_id", JString(x.authority.authorityId)),
                 Member("skill.native.authority_digest", JString(x.authority.authorityDigest)));
  }

  function Content(s: Span): Json { SpanContent(s.parent, s.name, s.ok, s.attributes) }

  /** Spans have different names, so only a collision of cut digests can make ids repeat. */
  lemma SpansDistinct(env: Env, x: Inputs)
    requires forall s, t :: s in Spans(env, x) && t in Spans(env, x) && s.id == t.id ==> Content(s) == Content(t)
    ensures Distinct(SpanIds(Spans(env, x)))
  {
    hide AuthoritySpan, PlanSpan, ExecuteSpan, VerifySpan, BuildSpan, Content;
    var spans := Spans(env, x);
    forall i, j | 0 <= i < j < 5 ensures SpanIds(spans)[i] != SpanIds(spans)[j] {
      NamesDiffer(env, x, i, j);
      if spans[i].id == spans[j].id {
        assert spans[i] in spans && spans[j] in spans;
        SameContent(spans[i], spans[j]);
      }
    }
  }

  lemma SameContent(s: Span, t: Span)
    requires Content(s) == Content(t)
    ensures s.name == t.name
  {
    assert Content(s).members[1] == Member("name", JString(s.name));
    assert Content(t).members[1] == Member("name", JString(t.name));
  }

  lemma NamesDiffer(env: Env, x: Inputs, i: nat, j: nat)
    requires i < j < 5
    ensures Spans(env, x)[i].name != Spans(env, x)[j].name
  {
    NameLengths(env, x);
    hide AuthoritySpan, PlanSpan, ExecuteSpan, VerifySpan, BuildSpan;
  }

  lemma NameLengths(env: Env, x: Inputs)
    ensures |AuthoritySpan(env, x).name| == 30 && |PlanSpan(env, x).name| == 25 && |ExecuteSpan(env, x).name| == 28
    ensures |VerifySpan(env, x).name| == 27 && |BuildSpan(env, x).name| == 32
  {
    hide MakeSpan, Captured, GetOr, ExitsClean;
  }
}
