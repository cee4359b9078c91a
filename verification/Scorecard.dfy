/** The outcome scorecard (src/skill_native/run_artifact_derived.py, `_build_scorecard`,
    `_severe_findings`; src/skill_native/run_artifact_contract.py, `validate_scorecard`). */
module Scorecard {
  import opened Wrappers
  import opened Strings
  import opened Json
  import opened Replay

  datatype Tier = Rankable | Provisional | Rejected

  datatype Card = Card(
    status: string,
    gate: string,
    evidenceTotal: nat,
    evidenceCaptured: nat,
    coverage: real,
    verifierTotal: nat,
    verifierPassed: nat,
    passRate: real,
    replayClass: ReplayClass,
    rankEligible: bool,
    tier: Tier,
    score: real,
    failures: seq<string>)

  const GATE_FAILED := "security-gate-failed"
  const VERDICT_FAILED := "verdict-failed"
  const SEVERE_FINDING := "high-or-critical-security-finding"

  function Ratio(part: nat, whole: nat): real {
    if whole == 0 then 1.0 else part as real / whole as real
  }

  function ReplayPoints(c: ReplayClass): real {
    match c
    case ExactReplay => 10.0
    case PartialReplay => 5.0
    case NoReplay => 0.0
  }

  /** `round(x, 2)`: to the nearest hundredth, a tie to the even one. */
  function Hundredths(x: real): real {
    var y := x * 100.0;
    var low := y.Floor;
    var rest := y - low as real;
    (if rest < 0.5 || (rest == 0.5 && low % 2 == 0) then low else low + 1) as real / 100.0
  }

  function Score(coverage: real, passRate: real, status: string, gate: string, c: ReplayClass): real {
    if gate == "fail" then 0.0
    else Hundredths(35.0 * coverage + 35.0 * passRate + (if status == "pass" then 20.0 else 0.0) + ReplayPoints(c))
  }

  predicate Eligible(c: Card) {
    c.status == "pass" && c.gate == "pass" && c.coverage == 1.0 && c.passRate == 1.0 && c.failures == []
  }

  /** The validator of the scorecard, apart from its own digest. */
  predicate ValidCard(c: Card) {
    && c.status in {"pass", "fail"} && c.gate in {"pass", "fail"}
    && 0.0 <= c.coverage <= 1.0 && 0.0 <= c.passRate <= 1.0 && 0.0 <= c.score <= 100.0
    && c.evidenceCaptured <= c.evidenceTotal && c.verifierPassed <= c.verifierTotal
    && StrictlySorted(c.failures)
    && c.rankEligible == Eligible(c)
    && c.tier == (if Eligible(c) then Rankable else if c.failures != [] then Rejected else Provisional)
    && c.coverage == Ratio(c.evidenceCaptured, c.evidenceTotal)
    && c.passRate == Ratio(c.verifierPassed, c.verifierTotal)
    && c.score == Score(c.coverage, c.passRate, c.status, c.gate, c.replayClass)
  }

  /** A valid card may be ranked exactly when it is eligible, is provisional exactly when it is not
      and lists no failure, and scores nothing under a failed gate. */
  lemma ValidCardMeaning(c: Card)
    requires ValidCard(c)
    ensures c.rankEligible == Eligible(c) && (c.tier == Provisional <==> !Eligible(c) && c.failures == [])
    ensures c.gate == "fail" ==> c.score == 0.0 && !Eligible(c)
  {
    hide Ratio, Hundredths, StrictlySorted;
  }

  /** A finding of high or critical severity. */
  predicate IsSevere(env: Env, finding: Json) {
    finding.JObject? && Normal(Str(env, GetOr(finding.members, "severity", JString("")))) in {"high", "critical"}
  }

  predicate HasSevere(env: Env, findings: Json) {
    findings.JList? && exists i :: 0 <= i < |findings.items| && IsSevere(env, findings.items[i])
  }

  predicate CheckPassed(check: Json) {
    check.JObject? && Get(check.members, "passed") == JBool(true)
  }

  function CountPassed(checks: seq<Json>): (n: nat)
    ensures n <= |checks|
    ensures n == |checks| <==> forall i :: 0 <= i < |checks| ==> CheckPassed(checks[i])
  {
    if checks == [] then 0
    else
      var last := |checks| - 1;
      CountPassed(checks[..last]) + (if CheckPassed(checks[last]) then 1 else 0)
  }

  function CountIn(required: seq<string>, captured: set<string>): (n: nat)
    ensures n <= |required|
    ensures n == |required| <==> forall i :: 0 <= i < |required| ==> required[i] in captured
  {
    if required == [] then 0
    else
      var last := |required| - 1;
      CountIn(required[..last], captured) + (if required[last] in captured then 1 else 0)
  }

  function Required(env: Env, plan: Object): Option<seq<string>> {
    match Iterate(GetOr(plan, "required_evidence", JList([])))
    case None => None
    case Some(items) => Some(StrAll(env, items))
  }

  lemma RatioBounds(part: nat, whole: nat)
    requires part <= whole
    ensures 0.0 <= Ratio(part, whole) <= 1.0 && (Ratio(part, whole) == 1.0 <==> part == whole)
  {
    if whole > 0 {
      QuotientBounds(part as real, whole as real);
    }
  }

  lemma QuotientBounds(p: real, w: real)
    requires 0.0 <= p <= w && w > 0.0
    ensures 0.0 <= p / w <= 1.0 && (p / w == 1.0 <==> p == w)
  {
    var q := p / w;
    assert q * w == p;
    ProductSign(q, w);
    ProductSign(q - 1.0, w);
    assert (q - 1.0) * w == p - w;
  }

  lemma ProductSign(x: real, w: real)
    requires w > 0.0
    ensures (x > 0.0 <==> x * w > 0.0) && (x < 0.0 <==> x * w < 0.0)
  {
  }

  lemma ScoreBounds(coverage: real, passRate: real, status: string, gate: string, c: ReplayClass)
    requires 0.0 <= coverage <= 1.0 && 0.0 <= passRate <= 1.0
    ensures 0.0 <= Score(coverage, passRate, status, gate, c) <= 100.0
  {
  }

  /** The failures for required evidence that was not captured. */
  function Missing(required: seq<string>, captured: set<string>): (r: seq<string>)
    ensures r == [] <==> forall i :: 0 <= i < |required| ==> required[i] in captured
    ensures forall x :: x in r <==>
              exists i :: 0 <= i < |required| && required[i] !in captured && x == "missing-evidence:" + required[i]
  {
    if required == [] then []
    else
      var last := |required| - 1;
      Missing(required[..last], captured)
      + (if required[last] in captured then [] else ["missing-evidence:" + required[last]])
  }

  /** What a failure list may hold, and must. */
  ghost predicate IsFailure(x: string, required: seq<string>, captured: set<string>, gate: string, status: string,
                            severe: bool) {
    || (exists i :: 0 <= i < |required| && required[i] !in captured && x == "missing-evidence:" + required[i])
    || (x == GATE_FAILED && gate == "fail")
    || (x == VERDICT_FAILED && status != "pass")
    || (x == SEVERE_FINDING && severe)
  }

  method FindFailures(required: seq<string>, captured: set<string>, gate: string, status: string, severe: bool)
    returns (sorted: seq<string>)
    ensures StrictlySorted(sorted)
    ensures forall x :: x in sorted <==> IsFailure(x, required, captured, gate, status, severe)
    ensures sorted == [] <==>
              && (forall i :: 0 <= i < |required| ==> required[i] in captured)
              && gate != "fail" && status == "pass" && !severe
  {
    hide StrictlySorted;
    var failures := Missing(required, captured);
    if gate == "fail" {
      failures := failures + [GATE_FAILED];
    }
    if status != "pass" {
      failures := failures + [VERDICT_FAILED];
    }
    if severe {
      failures := failures + [SEVERE_FINDING];
    }
    sorted := SortedSet(failures);
    EmptyTogether(failures, sorted);
  }

  /** The card assembled from its counts and failures. */
  function Assemble(status: string, gate: string, total: nat, captured: nat, checks: nat, passed: nat,
                    replayClass: ReplayClass, failures: seq<string>): Card
  {
    var coverage, passRate := Ratio(captured, total), Ratio(passed, checks);
    var eligible := status == "pass" && gate == "pass" && coverage == 1.0 && passRate == 1.0 && failures == [];
    Card(status, gate, total, captured, coverage, checks, passed, passRate, replayClass, eligible,
         if eligible then Rankable else if failures != [] then Rejected else Provisional,
         Score(coverage, passRate, status, gate, replayClass), failures)
  }

  lemma AssembledValid(status: string, gate: string, total: nat, captured: nat, checks: nat, passed: nat,
                       replayClass: ReplayClass, failures: seq<string>)
    requires captured <= total && passed <= checks && StrictlySorted(failures)
    requires status in {"pass", "fail"} && gate in {"pass", "fail"}
    ensures ValidCard(Assemble(status, gate, total, captured, checks, passed, replayClass, failures))
  {
    hide StrictlySorted, Score, Ratio;
    RatioBounds(captured, total);
    RatioBounds(passed, checks);
    ScoreBounds(Ratio(captured, total), Ratio(passed, checks), status, gate, replayClass);
  }

  /** What the card says about its inputs. */
  ghost predicate IsCardOf(env: Env, plan: Object, evidence: Object, verdict: Object, replayClass: ReplayClass,
                           c: Card)
  {
    && Required(env, plan).Some? && GetOr(verdict, "checks", JList([])).JList?
    && var checks := GetOr(verdict, "checks", JList([])).items;
       var required := Required(env, plan).value;
       var severe := HasSevere(env, GetOr(verdict, "security_findings", JList([])));
       && c.status == Str(env, Get(verdict, "status")) && c.gate == Str(env, Get(verdict, "security_gate"))
       && c.replayClass == replayClass
       && c.verifierTotal == |checks| && c.evidenceTotal == |required|
       && c.verifierPassed == CountPassed(checks) && c.evidenceCaptured == CountIn(required, Captured(env, evidence))
       && (c.passRate == 1.0 <==> forall i :: 0 <= i < |checks| ==> CheckPassed(checks[i]))
       && (c.coverage == 1.0 <==> forall i :: 0 <= i < |required| ==> required[i] in Captured(env, evidence))
       && (forall x :: x in c.failures <==> IsFailure(x, required, Captured(env, evidence), c.gate, c.status, severe))
       && (c.failures == [] <==> c.status == "pass" && c.gate != "fail" && c.coverage == 1.0 && !severe)
  }

  /** `_build_scorecard`. For a status and a gate that are pass or fail, the card always passes its
      validator. */
  method BuildScorecard(env: Env, plan: Object, evidence: Object, verdict: Object, replayClass: ReplayClass)
    returns (r: Option<Card>)
    ensures r.Some? <==> Required(env, plan).Some? && GetOr(verdict, "checks", JList([])).JList?
    ensures r.Some? ==> IsCardOf(env, plan, evidence, verdict, replayClass, r.value)
    ensures r.Some? && r.value.status in {"pass", "fail"} && r.value.gate in {"pass", "fail"} ==> ValidCard(r.value)
  {
    hide *;
    var required? := Required(env, plan);
    var checks? := GetOr(verdict, "checks", JList([]));
    if required? == None || !checks?.JList? {
      return None;
    }
    var required, checks := required?.value, checks?.items;
    var captured := Captured(env, evidence);
    var evidenceCount, passed := CountIn(required, captured), CountPassed(checks);
    RatioBounds(evidenceCount, |required|);
    RatioBounds(passed, |checks|);
    var status, gate := Str(env, Get(verdict, "status")), Str(env, Get(verdict, "security_gate"));
    var severe := HasSevere(env, GetOr(verdict, "security_findings", JList([])));
    var failures := FindFailures(required, captured, gate, status, severe);
    var card := Assemble(status, gate, |required|, evidenceCount, |checks|, passed, replayClass, failures);
    AssembledFields(status, gate, |required|, evidenceCount, |checks|, passed, replayClass, failures);
    if status in {"pass", "fail"} && gate in {"pass", "fail"} {
      AssembledValid(status, gate, |required|, evidenceCount, |checks|, passed, replayClass, failures);
    }
    IsCard(env, plan, evidence, verdict, replayClass, card);
    return Some(card);
  }

  lemma IsCard(env: Env, plan: Object, evidence: Object, verdict: Object, replayClass: ReplayClass, c: Card)
    requires Required(env, plan).Some? && GetOr(verdict, "checks", JList([])).JList?
    requires var checks := GetOr(verdict, "checks", JList([])).items;
             var required := Required(env, plan).value;
             var severe := HasSevere(env, GetOr(verdict, "security_findings", JList([])));
             && c.status == Str(env, Get(verdict, "status")) && c.gate == Str(env, Get(verdict, "security_gate"))
             && c.replayClass == replayClass
             && c.verifierTotal == |checks| && c.evidenceTotal == |required|
             && c.verifierPassed == CountPassed(checks)
             && c.evidenceCaptured == CountIn(required, Captured(env, evidence))
             && c.coverage == Ratio(c.evidenceCaptured, c.evidenceTotal)
             && c.passRate == Ratio(c.verifierPassed, c.verifierTotal)
             && (forall x :: x in c.failures <==>
                   IsFailure(x, required, Captured(env, evidence), c.gate, c.status, severe))
             && (c.failures == [] <==>
                   && (forall i :: 0 <= i < |required| ==> required[i] in Captured(env, evidence))
                   && c.gate != "fail" && c.status == "pass" && !severe)
    ensures IsCardOf(env, plan, evidence, verdict, replayClass, c)
  {
    RatioBounds(c.evidenceCaptured, c.evidenceTotal);
    RatioBounds(c.verifierPassed, c.verifierTotal);
    hide Required, GetOr, HasSevere, Str, CountPassed, CountIn, Captured, Ratio, IsFailure, CheckPassed;
  }

  lemma AssembledFields(status: string, gate: string, total: nat, captured: nat, checks: nat, passed: nat,
                        replayClass: ReplayClass, failures: seq<string>)
    ensures var c := Assemble(status, gate, total, captured, checks, passed, replayClass, failures);
            && c.status == status && c.gate == gate && c.replayClass == replayClass && c.failures == failures
            && c.evidenceTotal == total && c.verifierTotal == checks
            && c.evidenceCaptured == captured && c.verifierPassed == passed
            && c.coverage == Ratio(captured, total) && c.passRate == Ratio(passed, checks)
  {
    hide Ratio, Score;
  }
}
