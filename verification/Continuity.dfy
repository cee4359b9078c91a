/** The continuity check in front of the builder
    (src/skill_native/run_artifact_builder.py, `_validate_continuity`). */
module Continuity {
  import opened Json
  import opened EvidenceGraph
  import opened Scorecard

  /** The ids of the checks that are mappings and did not pass. */
  function FailedIds(env: Env, checks: seq<Json>): seq<string> {
    if checks == [] then []
    else
      var last := checks[|checks| - 1];
      FailedIds(env, checks[..|checks| - 1])
      + (if last.JObject? && !CheckPassed(last) then [Str(env, Get(last.members, "id"))] else [])
  }

  function TextList(xs: seq<string>): Json {
    JList(seq(|xs|, i requires 0 <= i < |xs| => JString(xs[i])))
  }

  predicate PlanFits(x: Inputs) {
    var spec := RunSpec(x.plan);
    && HasText(x.plan, "run_id") && HasText(x.plan, "manifest_digest") && HasText(x.plan, "provenance_digest")
    && HasText(x.plan, "runtime_backend")
    && x.authority.manifestDigest == Text(x.plan, "manifest_digest")
    && Get(x.plan, "run_spec").JObject? && Get(spec, "skill").JObject? && Get(spec, "runtime").JObject?
    && HasText(Sub(spec, "skill"), "commit_or_digest")
    && IsImmutableReference(Text(Sub(spec, "skill"), "commit_or_digest"))
    && HasText(Sub(spec, "runtime"), "backend")
    && Text(Sub(spec, "runtime"), "backend") == Text(x.plan, "runtime_backend")
  }

  predicate EvidenceFits(x: Inputs) {
    && Get(x.evidence, "run_id") == JString(Text(x.plan, "run_id"))
    && Get(x.evidence, "provenance_digest") == JString(Text(x.plan, "provenance_digest"))
    && GetOr(x.evidence, "runtime_metadata", JObject([])).JObject?
    && Get(Sub(x.evidence, "runtime_metadata"), "runtime_backend") == JString(Text(x.plan, "runtime_backend"))
  }

  predicate VerdictFits(x: Inputs) {
    && Get(x.verdict, "run_id") == JString(Text(x.plan, "run_id"))
    && Get(x.verdict, "manifest_digest") == JString(Text(x.plan, "manifest_digest"))
    && Get(x.verdict, "provenance_digest") == JString(Text(x.plan, "provenance_digest"))
    && Get(x.verdict, "plan_digest") == JString(x.planDigest)
    && Get(x.verdict, "evidence_digest") == JString(x.evidenceDigest)
    && Get(x.verdict, "runtime_backend") == JString(Text(x.plan, "runtime_backend"))
  }

  /** The verdict agrees with its own checks and findings. */
  predicate VerdictHolds(env: Env, verdict: Object) {
    && Get(verdict, "checks").JList?
    && var failed := FailedIds(env, Get(verdict, "checks").items);
       && Get(verdict, "failed_check_ids") == TextList(failed)
       && Get(verdict, "status") == JString(if failed != [] then "fail" else "pass")
       && Get(verdict, "security_gate") in {JString("pass"), JString("fail")}
       && (Get(verdict, "security_gate") == JString("fail") ==> "security-gate" in failed)
       && (HasSevere(env, GetOr(verdict, "security_findings", JList([]))) ==>
             Get(verdict, "security_gate") == JString("fail"))
  }

  predicate Continuous(env: Env, x: Inputs) {
    PlanFits(x) && EvidenceFits(x) && VerdictFits(x) && VerdictHolds(env, x.verdict)
  }

  lemma {:induction false} FailedNone(env: Env, checks: seq<Json>)
    ensures FailedIds(env, checks) == [] <==>
            forall i :: 0 <= i < |checks| && checks[i].JObject? ==> CheckPassed(checks[i])
  {
    hide CheckPassed, Str, GetOr;
    if checks != [] {
      var last := |checks| - 1;
      FailedNone(env, checks[..last]);
      assert forall i :: 0 <= i < last ==> checks[..last][i] == checks[i];
    }
  }

  lemma {:induction false} GetOrAny(o: Object, key: string, default: Json)
    requires Get(o, key) != JNull
    ensures GetOr(o, key, default) == Get(o, key)
  {
    if o != [] && o[0].key != key {
      GetOrAny(o[1..], key, default);
    }
  }

  /** What a consistent verdict amounts to: a severe finding fails the gate, a failed gate fails
      the verdict, and the verdict passes exactly when every check that is a mapping did. */
  lemma VerdictMeaning(env: Env, verdict: Object)
    requires VerdictHolds(env, verdict)
    ensures Get(verdict, "checks").JList? && GetOr(verdict, "checks", JList([])) == Get(verdict, "checks")
    ensures var status, gate := Str(env, Get(verdict, "status")), Str(env, Get(verdict, "security_gate"));
            var checks := Get(verdict, "checks").items;
            && status in {"pass", "fail"} && gate in {"pass", "fail"}
            && Get(verdict, "status") == JString(status) && Get(verdict, "security_gate") == JString(gate)
            && (status == "pass" <==> forall i :: 0 <= i < |checks| && checks[i].JObject? ==> CheckPassed(checks[i]))
            && (gate == "fail" ==> status == "fail")
            && (HasSevere(env, GetOr(verdict, "security_findings", JList([]))) ==> gate == "fail")
  {
    GetOrAny(verdict, "checks", JList([]));
    FailedNone(env, Get(verdict, "checks").items);
    hide GetOr, FailedIds, HasSevere, CheckPassed, TextList;
  }
}
