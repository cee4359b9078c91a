/** The bound on the receipts of a day is the best there is: some run reaches it. */
module GatewayOvershoot {
  import opened Wrappers
  import opened Routing
  import opened Gateway
  import opened GatewayProtocol

  predicate EndsIn(l: Limits, states: seq<State>, steps: seq<Step>, s: State) {
    IsRun(l, states, steps) && |states| == |steps| + 1 && states[|steps|] == s
  }

  ghost predicate Reachable(l: Limits, s: State) {
    exists states, steps :: EndsIn(l, states, steps, s)
  }

  lemma ReachNext(l: Limits, s: State, s': State, step: Step)
    requires Reachable(l, s) && Next(l, s, s', step)
    ensures Reachable(l, s')
  {
    hide Next, IsRun;
    var states, steps :| EndsIn(l, states, steps, s);
    var states', steps' := Extend(l, states, steps, step, s');
    assert EndsIn(l, states', steps', s');
  }

  // ----------------------------------------- calls whose every candidate cannot be reached

  function FailedReceipt(p: Provider): Receipt { Receipt(p.name, 0, 0.0, Some(NoTransport)) }

  function Receipts(p: Provider, n: nat): (r: seq<Receipt>)
    ensures |r| == n && forall i :: 0 <= i < n ==> r[i] == FailedReceipt(p)
  {
    seq(n, _ => FailedReceipt(p))
  }

  function Copies(p: Provider, n: nat): (r: seq<Provider>)
    ensures |r| == n && forall i :: 0 <= i < n ==> r[i] == p
  {
    seq(n, _ => p)
  }

  function Refusals(n: nat): (r: seq<Reply>)
    ensures |r| == n && forall i :: 0 <= i < n ==> r[i] == Refusal(NoTransport, 0)
  {
    seq(n, _ => Refusal(NoTransport, 0))
  }

  function Records(p: Provider, n: nat): (r: seq<Record>)
    ensures |r| == n && forall i :: 0 <= i < n ==> r[i] == Record(FailedReceipt(p), 0, None)
  {
    seq(n, _ => Record(FailedReceipt(p), 0, None))
  }

  function FailedRoute(p: Provider, n: nat): Route
    requires n > 0
  {
    Route(Failed(FailedReceipt(p)), Receipts(p, n), n)
  }

  lemma AllFail(p: Provider, n: nat)
    requires n > 0
    ensures IsRoute(Copies(p, n), false, Refusals(n), FailedRoute(p, n))
  {
    AskedAt(false, Refusals(n), n - 1);
  }

  lemma OnThatDay(p: Provider, n: nat)
    ensures Requests(Records(p, n), 0) == n
  {
    RequestsBound(Records(p, n), 0);
  }

  // ------------------------------------------------------------------- the four phases

  function Calls(l: Limits, f: nat -> Call): (r: seq<Call>)
    ensures |r| == l.inFlight && forall i :: 0 <= i < |r| ==> r[i] == f(i)
  {
    seq(l.inFlight, i requires 0 <= i < l.inFlight => f(i))
  }

  /** n calls, one after the other, have left a receipt each. */
  function Filled(l: Limits, p: Provider, n: nat): State {
    State(0, Records(p, n), Calls(l, _ => Idle), n, 0)
  }

  /** With room for one more receipt, k calls have been let in. */
  function Admitted(l: Limits, p: Provider, k: nat): State
    requires l.requests > 0
  {
    State(0, Records(p, l.requests - 1),
          Calls(l, i => if i < k then Call.Routing(Copies(p, l.candidates), false, 0) else Idle), l.requests - 1, 0)
  }

  /** k of the calls have asked all their candidates. */
  function Routed(l: Limits, p: Provider, k: nat): State
    requires l.requests > 0
  {
    State(0, Records(p, l.requests - 1),
          Calls(l, i => if i < k then Persisting(Receipts(p, l.candidates), 0)
                        else Call.Routing(Copies(p, l.candidates), false, 0)),
          l.requests - 1 + k * l.candidates, 0)
  }

  /** k calls have written all their receipts and the next one j of its own. */
  function Written(l: Limits, p: Provider, k: nat, j: nat): State
    requires l.requests > 0 && j <= l.candidates
  {
    State(0, Records(p, l.requests - 1 + k * l.candidates + j),
          Calls(l, i => Persisting(Receipts(p, if i < k then 0 else if i == k then l.candidates - j else l.candidates),
                                   0)),
          l.requests - 1 + l.inFlight * l.candidates, 0)
  }

  lemma ReachStart(l: Limits, p: Provider)
    ensures Reachable(l, Filled(l, p, 0))
  {
    assert EndsIn(l, [Filled(l, p, 0)], [], Filled(l, p, 0));
  }

  lemma {:induction false} ReachFilled(l: Limits, p: Provider, n: nat)
    requires l.inFlight > 0 && l.candidates > 0 && n < l.requests
    ensures Reachable(l, Filled(l, p, n))
  {
    if n == 0 {
      ReachStart(l, p);
    } else {
      ReachFilled(l, p, n - 1);
      OnThatDay(p, n - 1);
      AllFail(p, 1);
      hide Reachable, Requests, IsRoute;
      var s := Filled(l, p, n - 1);
      var s0 := s.(calls := s.calls[0 := Checking(Copies(p, 1), false, 0)]);
      var s1 := s0.(calls := s0.calls[0 := Call.Routing(Copies(p, 1), false, 0)]);
      var s2 := s1.(calls := s1.calls[0 := Persisting(Receipts(p, 1), 0)], attempts := n);
      var s3 := s2.(ledger := s.ledger + [Record(FailedReceipt(p), 0, None)],
                    calls := s2.calls[0 := Persisting([], 0)]);
      ReachNext(l, s, s0, Begin(0, Copies(p, 1), false));
      ReachNext(l, s0, s1, Admit(0));
      ReachNext(l, s1, s2, RouteCall(0, Refusals(1), FailedRoute(p, 1)));
      assert Receipts(p, 1)[1..] == [];
      ReachNext(l, s2, s3, Persist(0, None, 0));
      assert s3.calls[0 := Idle] == s.calls;
      assert Records(p, n) == Records(p, n - 1) + [Record(FailedReceipt(p), 0, None)];
      ReachNext(l, s3, Filled(l, p, n), Finish(0));
    }
  }

  lemma {:induction false} ReachAdmitted(l: Limits, p: Provider, k: nat)
    requires l.requests > 0 && l.candidates > 0 && l.inFlight > 0 && k <= l.inFlight
    ensures Reachable(l, Admitted(l, p, k))
  {
    hide Reachable, Requests;
    if k == 0 {
      ReachFilled(l, p, l.requests - 1);
      assert Admitted(l, p, 0) == Filled(l, p, l.requests - 1);
    } else {
      ReachAdmitted(l, p, k - 1);
      OnThatDay(p, l.requests - 1);
      var s, s' := Admitted(l, p, k - 1), Admitted(l, p, k);
      assert s'.calls == s.calls[k - 1 := Call.Routing(Copies(p, l.candidates), false, 0)];
      var s0 := s.(calls := s.calls[k - 1 := Checking(Copies(p, l.candidates), false, 0)]);
      ReachNext(l, s, s0, Begin(k - 1, Copies(p, l.candidates), false));
      assert s'.calls == s0.calls[k - 1 := Call.Routing(Copies(p, l.candidates), false, 0)];
      ReachNext(l, s0, s', Admit(k - 1));
    }
  }

  lemma {:induction false} ReachRouted(l: Limits, p: Provider, k: nat)
    requires l.requests > 0 && l.candidates > 0 && l.inFlight > 0 && k <= l.inFlight
    ensures Reachable(l, Routed(l, p, k))
  {
    hide Reachable, Requests, IsRoute;
    if k == 0 {
      ReachAdmitted(l, p, l.inFlight);
      assert Routed(l, p, 0) == Admitted(l, p, l.inFlight);
    } else {
      ReachRouted(l, p, k - 1);
      AllFail(p, l.candidates);
      var s, s' := Routed(l, p, k - 1), Routed(l, p, k);
      assert s'.calls == s.calls[k - 1 := Persisting(Receipts(p, l.candidates), 0)];
      assert k * l.candidates == (k - 1) * l.candidates + l.candidates;
      ReachNext(l, s, s', RouteCall(k - 1, Refusals(l.candidates), FailedRoute(p, l.candidates)));
    }
  }

  lemma {:induction false} ReachWritten(l: Limits, p: Provider, k: nat, j: nat)
    requires l.requests > 0 && l.candidates > 0 && k < l.inFlight && j <= l.candidates
    ensures Reachable(l, Written(l, p, k, j))
    decreases k, j
  {
    hide Reachable, Requests;
    if j > 0 {
      ReachWritten(l, p, k, j - 1);
      var s, s' := Written(l, p, k, j - 1), Written(l, p, k, j);
      assert Receipts(p, l.candidates - j + 1)[1..] == Receipts(p, l.candidates - j);
      assert s'.calls == s.calls[k := Persisting(Receipts(p, l.candidates - j), 0)];
      assert s'.ledger == s.ledger + [Record(FailedReceipt(p), 0, None)];
      ReachNext(l, s, s', Persist(k, None, 0));
    } else if k > 0 {
      ReachWritten(l, p, k - 1, l.candidates);
      assert k * l.candidates == (k - 1) * l.candidates + l.candidates;
      assert Written(l, p, k, 0).calls == Written(l, p, k - 1, l.candidates).calls;
    } else {
      ReachRouted(l, p, l.inFlight);
      assert Written(l, p, 0, 0).calls == Routed(l, p, l.inFlight).calls;
    }
  }

  /** With M, K and C positive, a day on which K calls come in together just below the limit, and
      each fails over through C candidates, ends with exactly M - 1 + K*C receipts. */
  lemma BoundReached(l: Limits, p: Provider) returns (states: seq<State>, steps: seq<Step>)
    requires l.requests > 0 && l.inFlight > 0 && l.candidates > 0
    ensures IsRun(l, states, steps) && |states| == |steps| + 1
    ensures Requests(states[|steps|].ledger, 0) == Bound(l)
  {
    var k := l.inFlight - 1;
    ReachWritten(l, p, k, l.candidates);
    var s := Written(l, p, k, l.candidates);
    assert l.requests - 1 + k * l.candidates + l.candidates == Bound(l) by {
      assert l.inFlight * l.candidates == k * l.candidates + l.candidates;
    }
    OnThatDay(p, Bound(l));
    hide Written, Requests;
    states, steps :| EndsIn(l, states, steps, s);
    assert s.ledger == Records(p, Bound(l)) by { WrittenLedger(l, p, k, l.candidates); }
  }

  lemma WrittenLedger(l: Limits, p: Provider, k: nat, j: nat)
    requires l.requests > 0 && j <= l.candidates
    ensures Written(l, p, k, j).ledger == Records(p, l.requests - 1 + k * l.candidates + j)
  {
  }
}
