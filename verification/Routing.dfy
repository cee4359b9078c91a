/** The failover loop over inference providers (src/skill_native/providers.py,
    `ProviderRouter.candidates`, `ProviderRouter.complete`, `OpenAICompatibleProvider.complete`). */
module Routing {
  import opened Wrappers
  import opened Strings

  datatype Provider = Provider(name: string, quotaClass: string, enabled: bool)

  datatype Receipt = Receipt(provider: string, tokens: int, price: real, error: Option<Failure>)

  datatype Failure = HttpStatus(status: nat) | NoTransport | NoCredential

  /** What comes of asking one provider. A reply that the adapter cannot read, be it for the numbers
      of its usage section, whatever the status, or for its content, raises an error that is no
      ProviderError and carries no receipt. */
  datatype Reply = Content(tokens: int) | Refusal(failure: Failure, spent: int) | Unreadable

  datatype Outcome = Answered(receipt: Receipt) | Failed(receipt: Receipt) | Broken | NoProvider

  datatype Route = Route(outcome: Outcome, receipts: seq<Receipt>, attempts: nat)

  function MakeReceipt(p: Provider, reply: Reply): Receipt
    requires !reply.Unreadable?
  {
    match reply
    case Content(tokens) => Receipt(p.name, tokens, 0.0, None)
    case Refusal(failure, spent) => Receipt(p.name, spent, 0.0, Some(failure))
  }

  predicate Retryable(failure: Failure) {
    match failure
    case HttpStatus(status) => status == 429 || status >= 500
    case NoTransport => true
    case NoCredential => false
  }

  /** The loop goes on to the next candidate after this reply. */
  predicate GoesOn(pinned: bool, reply: Reply) {
    reply.Refusal? && Retryable(reply.failure) && !pinned
  }

  // ------------------------------------------------------------------ the candidates

  /** `if required_provider`: an empty name pins nothing. */
  predicate IsPinned(required: Option<string>) {
    required.Some? && required.value != ""
  }

  predicate IsEligible(p: Provider, required: Option<string>) {
    p.enabled && (IsPinned(required) ==> p.name == required.value)
  }

  function Select(providers: seq<Provider>, required: Option<string>): (r: seq<Provider>)
    ensures |r| <= |providers|
    ensures forall p :: multiset(r)[p] == if IsEligible(p, required) then multiset(providers)[p] else 0
  {
    if providers == [] then []
    else
      var p, rest := providers[0], Select(providers[1..], required);
      assert providers == [p] + providers[1..];
      if IsEligible(p, required) then [p] + rest else rest
  }

  /** Local providers first, then free ones, then the others; by name within each class. */
  function OrderKey(p: Provider): string {
    (if p.quotaClass == "local" then "0" else if p.quotaClass == "free" then "1" else "2") + p.name
  }

  function Candidates(providers: seq<Provider>, required: Option<string>): (r: seq<Provider>)
    ensures |r| <= |providers|
    ensures forall p :: p in r <==> p in providers && IsEligible(p, required)
    ensures SortedBy(r, OrderKey)
  {
    var selected := Select(providers, required);
    assert forall p :: p in selected <==> multiset(selected)[p] > 0;
    SortBy(selected, OrderKey)
  }

  /** The candidates are the eligible providers, each as often as it was configured; those that
      rank the same stay in the configured order. */
  lemma CandidatesExact(providers: seq<Provider>, required: Option<string>, k: string)
    ensures WithKey(Candidates(providers, required), OrderKey, k) ==
            WithKey(Select(providers, required), OrderKey, k)
    ensures forall p :: multiset(Candidates(providers, required))[p] ==
                        if IsEligible(p, required) then multiset(providers)[p] else 0
  {
    var selected := Select(providers, required);
    SortStable(selected, OrderKey, k);
    hide OrderKey, IsEligible;
    forall p ensures multiset(SortBy(selected, OrderKey))[p] == multiset(selected)[p] {
      SortStable(selected, OrderKey, OrderKey(p));
      CountWithKey(selected, OrderKey, p);
      CountWithKey(SortBy(selected, OrderKey), OrderKey, p);
    }
  }

  lemma {:induction false} CountWithKey(xs: seq<Provider>, key: Provider -> string, p: Provider)
    ensures multiset(xs)[p] == multiset(WithKey(xs, key, key(p)))[p]
  {
    if xs != [] {
      assert xs == [xs[0]] + xs[1..];
      CountWithKey(xs[1..], key, p);
    }
  }

  // -------------------------------------------------------------------- the failover

  /** How many candidates are asked: up to and including the first after which the loop stops. */
  function Asked(pinned: bool, replies: seq<Reply>): (n: nat)
    ensures n <= |replies| && (replies != [] ==> n > 0)
    ensures forall i :: 0 <= i < n - 1 ==> GoesOn(pinned, replies[i])
    ensures 0 < n < |replies| ==> !GoesOn(pinned, replies[n - 1])
    ensures pinned && replies != [] ==> n == 1
  {
    if replies == [] then 0
    else if GoesOn(pinned, replies[0]) then 1 + Asked(pinned, replies[1..])
    else 1
  }

  /** What routing comes to, from how many candidates are asked. */
  predicate IsRoute(candidates: seq<Provider>, pinned: bool, replies: seq<Reply>, r: Route)
    requires |replies| == |candidates|
  {
    var n := Asked(pinned, replies);
    && r.attempts == n
    && (n == 0 ==> r.outcome == NoProvider && r.receipts == [])
    && (n > 0 ==>
          var last := replies[n - 1];
          var recorded := if last.Unreadable? then n - 1 else n;
          && |r.receipts| == recorded
          && (forall i :: 0 <= i < recorded ==>
                !replies[i].Unreadable? && r.receipts[i] == MakeReceipt(candidates[i], replies[i]))
          && r.outcome == (match last
                           case Content(_) => Answered(MakeReceipt(candidates[n - 1], last))
                           case Refusal(_, _) => Failed(MakeReceipt(candidates[n - 1], last))
                           case Unreadable => Broken))
  }

  lemma {:induction false} AskedAt(pinned: bool, replies: seq<Reply>, i: nat)
    requires i < |replies|
    requires forall j :: 0 <= j < i ==> GoesOn(pinned, replies[j])
    requires !GoesOn(pinned, replies[i]) || i == |replies| - 1
    ensures Asked(pinned, replies) == i + 1
  {
    hide GoesOn;
    if i > 0 {
      assert GoesOn(pinned, replies[0]);
      forall j | 0 <= j < i - 1 ensures GoesOn(pinned, replies[1..][j]) {
        assert GoesOn(pinned, replies[j + 1]);
      }
      AskedAt(pinned, replies[1..], i - 1);
    }
  }

  /** `complete`: the replies are what each candidate would answer, were it asked in its turn. */
  method Complete(candidates: seq<Provider>, pinned: bool, replies: seq<Reply>) returns (r: Route)
    requires |replies| == |candidates|
    ensures IsRoute(candidates, pinned, replies, r)
  {
    if candidates == [] {
      return Route(NoProvider, [], 0);
    }
    var receipts := [];
    for i := 0 to |candidates|
      invariant |receipts| == i
      invariant forall j :: 0 <= j < i ==>
                  GoesOn(pinned, replies[j]) && receipts[j] == MakeReceipt(candidates[j], replies[j])
    {
      var reply := replies[i];
      if reply.Unreadable? {
        AskedAt(pinned, replies, i);
        return Route(Broken, receipts, i + 1);
      }
      var receipt := MakeReceipt(candidates[i], reply);
      receipts := receipts + [receipt];
      if reply.Content? {
        AskedAt(pinned, replies, i);
        return Route(Answered(receipt), receipts, i + 1);
      }
      if pinned || !Retryable(reply.failure) {
        AskedAt(pinned, replies, i);
        return Route(Failed(receipt), receipts, i + 1);
      }
    }
    AskedAt(pinned, replies, |candidates| - 1);
    return Route(Failed(receipts[|receipts| - 1]), receipts, |candidates|);
  }

  /** Every attempt leaves a receipt, apart from one whose reply cannot be read; no candidate is
      asked after that one. Receipts cost nothing. */
  lemma RouteReceipts(candidates: seq<Provider>, pinned: bool, replies: seq<Reply>, r: Route)
    requires |replies| == |candidates| && IsRoute(candidates, pinned, replies, r)
    ensures r.attempts <= |candidates|
    ensures |r.receipts| == (if r.outcome == Broken then r.attempts - 1 else r.attempts)
    ensures r.outcome == Broken <==> exists i :: 0 <= i < r.attempts && replies[i].Unreadable?
    ensures forall i :: 0 <= i < |r.receipts| ==> r.receipts[i].price == 0.0
    ensures pinned ==> r.attempts <= 1
  {
    var n := Asked(pinned, replies);
    if n > 0 {
      assert forall i :: 0 <= i < n - 1 ==> GoesOn(pinned, replies[i]);
      assert replies[n - 1].Unreadable? <==> r.outcome == Broken;
    }
  }
}
