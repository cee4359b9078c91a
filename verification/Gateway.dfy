/** The inference gateway and its receipt ledger (src/skill_native/gateway.py,
    `InferenceGateway.chat_completions`, `_persist_new_receipts`; src/skill_native/policy.py,
    `ReceiptLedger`). */
module Gateway {
  import opened Wrappers
  import opened Routing

  datatype Policy = Policy(localOnly: bool, maxRequests: Option<int>, maxTokens: Option<int>, maxCost: Option<real>)

  /** A line of the ledger; days are counted in UTC. */
  datatype Record = Record(receipt: Receipt, day: nat, runId: Option<string>)

  datatype Request = Request(hasMessages: bool, provider: Option<string>, runIdIsText: bool, runId: Option<string>)

  datatype Response =
    | Completed(receipt: Receipt)
    | Refused(status: nat)
    | Upstream(status: nat, receipt: Receipt)
    | Unhandled

  function Requests(records: seq<Record>, day: nat): nat {
    if records == [] then 0
    else Requests(records[..|records| - 1], day) + (if records[|records| - 1].day == day then 1 else 0)
  }

  function Tokens(records: seq<Record>, day: nat): int {
    if records == [] then 0
    else Tokens(records[..|records| - 1], day)
         + (if records[|records| - 1].day == day then records[|records| - 1].receipt.tokens else 0)
  }

  function Cost(records: seq<Record>, day: nat): real {
    if records == [] then 0.0
    else Cost(records[..|records| - 1], day)
         + (if records[|records| - 1].day == day then records[|records| - 1].receipt.price else 0.0)
  }

  predicate RequestsExhausted(policy: Policy, records: seq<Record>, today: nat) {
    policy.maxRequests.Some? && Requests(records, today) >= policy.maxRequests.value
  }

  predicate TokensExhausted(policy: Policy, records: seq<Record>, today: nat) {
    policy.maxTokens.Some? && Tokens(records, today) >= policy.maxTokens.value
  }

  predicate CostExhausted(policy: Policy, records: seq<Record>, today: nat) {
    policy.maxCost.Some? && Cost(records, today) >= policy.maxCost.value
  }

  /** `assert_budget` raises. */
  predicate Exhausted(policy: Policy, records: seq<Record>, today: nat) {
    || RequestsExhausted(policy, records, today)
    || TokensExhausted(policy, records, today)
    || CostExhausted(policy, records, today)
  }

  function Filter(policy: Policy, providers: seq<Provider>): (r: seq<Provider>)
    ensures |r| <= |providers|
    ensures forall p :: p in r <==> p in providers && (policy.localOnly ==> p.quotaClass == "local")
  {
    if providers == [] then []
    else
      var rest := Filter(policy, providers[1..]);
      assert providers == [providers[0]] + providers[1..];
      if policy.localOnly ==> providers[0].quotaClass == "local" then [providers[0]] + rest else rest
  }

  function Stamp(receipts: seq<Receipt>, day: nat, runId: Option<string>): (r: seq<Record>)
    ensures |r| == |receipts|
    ensures forall i :: 0 <= i < |r| ==> r[i] == Record(receipts[i], day, runId)
  {
    seq(|receipts|, i requires 0 <= i < |receipts| => Record(receipts[i], day, runId))
  }

  predicate Free(records: seq<Record>) {
    forall i :: 0 <= i < |records| ==> records[i].receipt.price == 0.0
  }

  lemma {:induction false} FreeCostsNothing(records: seq<Record>, day: nat)
    requires Free(records)
    ensures Cost(records, day) == 0.0
  {
    if records != [] {
      FreeCostsNothing(records[..|records| - 1], day);
    }
  }

  /** Every receipt has the price 0, so the budget for costs refuses either every call or none. */
  lemma CostBudget(policy: Policy, records: seq<Record>, today: nat)
    requires Free(records)
    ensures CostExhausted(policy, records, today) <==> policy.maxCost.Some? && policy.maxCost.value <= 0.0
  {
    FreeCostsNothing(records, today);
  }

  lemma {:induction false} RequestsConcat(a: seq<Record>, b: seq<Record>, day: nat)
    ensures Requests(a + b, day) == Requests(a, day) + Requests(b, day)
    decreases |b|
  {
    if b == [] {
      assert a + b == a;
    } else {
      assert (a + b)[..|a + b| - 1] == a + b[..|b| - 1];
      RequestsConcat(a, b[..|b| - 1], day);
    }
  }

  lemma {:induction false} RequestsBound(records: seq<Record>, day: nat)
    ensures Requests(records, day) <= |records|
    ensures (forall i :: 0 <= i < |records| ==> records[i].day == day) ==> Requests(records, day) == |records|
    ensures (forall i :: 0 <= i < |records| ==> records[i].day != day) ==> Requests(records, day) == 0
  {
    if records != [] {
      RequestsBound(records[..|records| - 1], day);
    }
  }

  /** What the caller is told when routing has come to an end. */
  function ResponseTo(outcome: Outcome): Response {
    match outcome
    case Answered(receipt) => Completed(receipt)
    case Failed(receipt) => Upstream(if receipt.error == Some(HttpStatus(429)) then 429 else 502, receipt)
    case NoProvider => Refused(503)
    case Broken => Unhandled
  }

  /** Where the budget did not refuse a call, its receipts overshoot the limit by less than their
      number. */
  lemma Overshoot(policy: Policy, before: seq<Record>, receipts: seq<Receipt>, today: nat, runId: Option<string>)
    requires !Exhausted(policy, before, today) && policy.maxRequests.Some?
    ensures Requests(before + Stamp(receipts, today, runId), today) <= policy.maxRequests.value - 1 + |receipts|
  {
    RequestsConcat(before, Stamp(receipts, today, runId), today);
    RequestsBound(Stamp(receipts, today, runId), today);
    hide Requests, Tokens, Cost, Stamp;
  }

  class Gateway {
    const providers: seq<Provider>
    const policy: Policy
    const recording: bool
    var ledger: seq<Record>

    constructor (providers: seq<Provider>, policy: Policy, recording: bool)
      ensures this.providers == providers && this.policy == policy && this.recording == recording && ledger == []
    {
      this.providers, this.policy, this.recording, ledger := providers, policy, recording, [];
    }

    ghost predicate Valid()
      reads this
    {
      Free(ledger)
    }

    /** On the ledger that the gateway has written, the cost budget decides by its sign alone. */
    lemma CostBySign(today: nat)
      requires Valid()
      ensures Exhausted(policy, ledger, today) <==>
                || RequestsExhausted(policy, ledger, today) || TokensExhausted(policy, ledger, today)
                || (policy.maxCost.Some? && policy.maxCost.value <= 0.0)
    {
      CostBudget(policy, ledger, today);
      hide Requests, Tokens, Cost, Free;
    }

    /** The candidates that a request leads to. */
    function Eligible(request: Request): (r: seq<Provider>)
      ensures |r| <= |providers|
    {
      Candidates(Filter(policy, providers), request.provider)
    }

    method PersistNewReceipts(receipts: seq<Receipt>, today: nat, runId: Option<string>)
      modifies this
      ensures ledger == if recording then old(ledger) + Stamp(receipts, today, runId) else old(ledger)
    {
      if !recording {
        return;
      }
      for i := 0 to |receipts|
        invariant ledger == old(ledger) + Stamp(receipts, today, runId)[..i]
      {
        ledger := ledger + [Record(receipts[i], today, runId)];
        assert Stamp(receipts, today, runId)[..i + 1] ==
               Stamp(receipts, today, runId)[..i] + [Stamp(receipts, today, runId)[i]];
      }
    }

    /** One call, all on one day. Nothing is asked and nothing recorded for a call that is refused;
        otherwise the ledger grows by exactly the receipts of the routing, unless a reply could not
        be read: then the error goes through and the receipts of that call are lost. */
    method ChatCompletions(request: Request, today: nat, replies: seq<Routing.Reply>)
      returns (response: Response, ghost route: Route)
      requires Valid() && |replies| == |Eligible(request)|
      modifies this
      ensures Valid()
      ensures var exhausted := recording && Exhausted(policy, old(ledger), today);
              if !request.hasMessages then response == Refused(400) && route.attempts == 0 && ledger == old(ledger)
              else if exhausted then response == Refused(429) && route.attempts == 0 && ledger == old(ledger)
              else if !request.runIdIsText then response == Refused(400) && route.attempts == 0 && ledger == old(ledger)
              else
                && IsRoute(Eligible(request), IsPinned(request.provider), replies, route)
                && response == ResponseTo(route.outcome)
                && ledger == (if recording && route.outcome != Broken
                              then old(ledger) + Stamp(route.receipts, today, request.runId) else old(ledger))
      ensures recording && policy.maxRequests.Some? && ledger != old(ledger) ==>
                Requests(ledger, today) <= policy.maxRequests.value - 1 + |providers|
    {
      hide Requests, Exhausted, Stamp, Select, OrderKey, Asked;
      route := Route(NoProvider, [], 0);
      if !request.hasMessages {
        return Refused(400), route;
      }
      if recording && Exhausted(policy, ledger, today) {
        return Refused(429), route;
      }
      if !request.runIdIsText {
        return Refused(400), route;
      }
      if Filter(policy, providers) == [] {
        return Refused(503), route;
      }
      var r := Complete(Eligible(request), IsPinned(request.provider), replies);
      route := r;
      RouteReceipts(Eligible(request), IsPinned(request.provider), replies, r);
      if r.outcome == Broken {
        return Unhandled, route;
      }
      PersistNewReceipts(r.receipts, today, request.runId);
      if recording && policy.maxRequests.Some? {
        Overshoot(policy, old(ledger), r.receipts, today, request.runId);
      }
      return ResponseTo(r.outcome), route;
    }
  }
}
