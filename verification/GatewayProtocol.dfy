/** Many calls to the gateway at once. The budget is checked when a call comes in, but its receipts
    are written only after its failover loop is over, so calls in flight can overshoot the budget.
    Days pass between any two steps: the day of the check is fixed before the ledger is read, and a
    receipt is stamped before its writer waits for the lock of the ledger, so either day may be over
    by then. */
module GatewayProtocol {
  import opened Wrappers
  import opened Routing
  import opened Gateway

  /** At most `inFlight` calls at once; at most `candidates` providers for each. */
  datatype Limits = Limits(requests: nat, inFlight: nat, candidates: nat)

  datatype Call =
    | Idle
    | Checking(candidates: seq<Provider>, pinned: bool, since: nat)
    | Routing(candidates: seq<Provider>, pinned: bool, since: nat)
    | Persisting(receipts: seq<Receipt>, since: nat)

  datatype State = State(today: nat, ledger: seq<Record>, calls: seq<Call>, attempts: nat, lost: nat)

  datatype Step =
    | Begin(slot: nat, candidates: seq<Provider>, pinned: bool)
    | Admit(slot: nat)
    | Refuse(slot: nat)
    | RouteCall(slot: nat, replies: seq<Reply>, route: Route)
    | Persist(slot: nat, runId: Option<string>, day: nat)
    | Finish(slot: nat)
    | PassDays(days: nat)

  predicate Initial(l: Limits, s: State) {
    && s.ledger == [] && s.attempts == 0 && s.lost == 0
    && |s.calls| == l.inFlight && forall i :: 0 <= i < |s.calls| ==> s.calls[i] == Idle
  }

  predicate CanBegin(l: Limits, s: State, slot: nat, candidates: seq<Provider>) {
    slot < |s.calls| && s.calls[slot] == Idle && |candidates| <= l.candidates
  }

  /** The ledger holds too few receipts of the day that was fixed for the budget to be exhausted. */
  predicate HasRoom(l: Limits, s: State, slot: nat)
    requires slot < |s.calls| && s.calls[slot].Checking?
  {
    Requests(s.ledger, s.calls[slot].since) < l.requests
  }

  predicate CanRoute(s: State, slot: nat, replies: seq<Reply>, route: Route) {
    slot < |s.calls| && s.calls[slot].Routing? && |replies| == |s.calls[slot].candidates|
    && IsRoute(s.calls[slot].candidates, s.calls[slot].pinned, replies, route)
  }

  predicate Next(l: Limits, s: State, s': State, step: Step) {
    match step
    case Begin(slot, candidates, pinned) =>
      CanBegin(l, s, slot, candidates)
      && s' == s.(calls := s.calls[slot := Checking(candidates, pinned, s.today)])
    case Admit(slot) =>
      slot < |s.calls| && s.calls[slot].Checking? && HasRoom(l, s, slot)
      && s' == s.(calls := s.calls[slot := Routing(s.calls[slot].candidates, s.calls[slot].pinned, s.today)])
    case Refuse(slot) =>
      slot < |s.calls| && s.calls[slot].Checking? && !HasRoom(l, s, slot)
      && s' == s.(calls := s.calls[slot := Idle])
    case RouteCall(slot, replies, route) =>
      CanRoute(s, slot, replies, route)
      && s' == s.(calls := s.calls[slot := if route.outcome == Broken then Idle
                                           else Persisting(route.receipts, s.calls[slot].since)],
                  attempts := s.attempts + route.attempts,
                  lost := s.lost + (if route.outcome == Broken then route.attempts else 0))
    case Persist(slot, runId, day) =>
      slot < |s.calls| && s.calls[slot].Persisting? && s.calls[slot].receipts != []
      && s.calls[slot].since <= day <= s.today
      && s' == s.(ledger := s.ledger + [Record(s.calls[slot].receipts[0], day, runId)],
                  calls := s.calls[slot := Persisting(s.calls[slot].receipts[1..], s.calls[slot].since)])
    case Finish(slot) =>
      slot < |s.calls| && s.calls[slot].Persisting? && s.calls[slot].receipts == []
      && s' == s.(calls := s.calls[slot := Idle])
    case PassDays(days) =>
      s' == s.(today := s.today + days)
  }

  predicate IsRun(l: Limits, states: seq<State>, steps: seq<Step>) {
    && |states| == |steps| + 1 && Initial(l, states[0])
    && forall i :: 0 <= i < |steps| ==> Next(l, states[i], states[i + 1], steps[i])
  }

  // ------------------------------------------------------------------ what is to come

  /** The most receipts a call can still write. */
  function Outstanding(c: Call): nat {
    match c
    case Idle => 0
    case Checking(candidates, _, _) => |candidates|
    case Routing(candidates, _, _) => |candidates|
    case Persisting(receipts, _) => |receipts|
  }

  /** The most receipts of a day that a call can still write and that its check, if it is yet to
      come, does not count: none if the call came in later, and none if its check is for that day. */
  function OutstandingBy(day: nat): Call -> nat {
    (c: Call) => if c.Idle? || c.since > day || (c.Checking? && c.since == day) then 0 else Outstanding(c)
  }

  function Unwritten(c: Call): nat {
    if c.Persisting? then |c.receipts| else 0
  }

  function Sum(calls: seq<Call>, f: Call -> nat): nat {
    if calls == [] then 0 else Sum(calls[..|calls| - 1], f) + f(calls[|calls| - 1])
  }

  lemma {:induction false} SumUpdate(calls: seq<Call>, f: Call -> nat, slot: nat, c: Call)
    requires slot < |calls|
    ensures Sum(calls[slot := c], f) == Sum(calls, f) - f(calls[slot]) + f(c)
    decreases |calls|
  {
    var last := |calls| - 1;
    if slot == last {
      assert calls[slot := c][..last] == calls[..last];
    } else {
      assert calls[slot := c][..last] == calls[..last][slot := c];
      SumUpdate(calls[..last], f, slot, c);
    }
  }

  lemma {:induction false} SumBound(calls: seq<Call>, f: Call -> nat, bound: nat)
    requires forall i :: 0 <= i < |calls| ==> f(calls[i]) <= bound
    ensures Sum(calls, f) <= |calls| * bound
    decreases |calls|
  {
    if calls != [] {
      SumBound(calls[..|calls| - 1], f, bound);
      assert |calls| * bound == (|calls| - 1) * bound + bound;
    }
  }

  /** With no request allowed there is never any; otherwise the last call that is let in finds at
      most M - 1 receipts, and all the calls then in flight may yet write theirs. */
  function Bound(l: Limits): nat {
    if l.requests == 0 then 0 else l.requests - 1 + l.inFlight * l.candidates
  }

  predicate Within(l: Limits, s: State) {
    && |s.calls| == l.inFlight
    && (forall i :: 0 <= i < |s.calls| ==> Outstanding(s.calls[i]) <= l.candidates)
    && (forall i :: 0 <= i < |s.calls| && s.calls[i] != Idle ==> s.calls[i].since <= s.today)
    && (l.requests == 0 ==> forall i :: 0 <= i < |s.calls| ==> s.calls[i].Idle? || s.calls[i].Checking?)
  }

  /** The receipts of a day, with all that may yet come to bear its date. */
  function DayTotal(s: State, day: nat): nat {
    Requests(s.ledger, day) + Sum(s.calls, OutstandingBy(day))
  }

  ghost predicate DaysBounded(l: Limits, s: State) {
    && (l.requests > 0 ==> forall day: nat :: DayTotal(s, day) <= Bound(l))
    && (forall day: nat :: day > s.today ==> Requests(s.ledger, day) == 0)
  }

  /** No attempt goes missing: each has been written down, is waiting to be, or was lost. */
  predicate Accounted(s: State) {
    s.attempts == |s.ledger| + Sum(s.calls, Unwritten) + s.lost
  }

  ghost predicate Inv(l: Limits, s: State) {
    Within(l, s) && DaysBounded(l, s) && Accounted(s)
  }

  lemma {:induction false} AllIdle(calls: seq<Call>, f: Call -> nat)
    requires f(Idle) == 0 && forall i :: 0 <= i < |calls| ==> calls[i] == Idle
    ensures Sum(calls, f) == 0
    decreases |calls|
  {
    if calls != [] {
      AllIdle(calls[..|calls| - 1], f);
    }
  }

  lemma InitInv(l: Limits, s: State)
    requires Initial(l, s)
    ensures Inv(l, s)
  {
    forall day: nat ensures DayTotal(s, day) == 0 {
      AllIdle(s.calls, OutstandingBy(day));
    }
    AllIdle(s.calls, Unwritten);
    hide Sum;
  }

  lemma OutstandingBound(l: Limits, s: State, day: nat)
    requires Within(l, s)
    ensures Sum(s.calls, OutstandingBy(day)) <= l.inFlight * l.candidates
  {
    SumBound(s.calls, OutstandingBy(day), l.candidates);
  }

  lemma RequestsSnoc(ledger: seq<Record>, r: Record, day: nat)
    ensures Requests(ledger + [r], day) == Requests(ledger, day) + (if r.day == day then 1 else 0)
  {
    assert (ledger + [r])[..|ledger + [r]| - 1] == ledger;
  }

  /** What a change of one call does to the totals. */
  lemma DayUpdate(s: State, slot: nat, c: Call, day: nat)
    requires slot < |s.calls|
    ensures DayTotal(s.(calls := s.calls[slot := c]), day) ==
            DayTotal(s, day) - OutstandingBy(day)(s.calls[slot]) + OutstandingBy(day)(c)
  {
    SumUpdate(s.calls, OutstandingBy(day), slot, c);
  }

  lemma SameDay(s: State, s': State, day: nat)
    requires s'.ledger == s.ledger && s'.calls == s.calls
    ensures DayTotal(s', day) == DayTotal(s, day)
  {
  }

  lemma BeginInv(l: Limits, s: State, s': State, slot: nat, candidates: seq<Provider>, pinned: bool)
    requires Inv(l, s) && Next(l, s, s', Begin(slot, candidates, pinned))
    ensures Inv(l, s')
  {
    SumUpdate(s.calls, Unwritten, slot, s'.calls[slot]);
    hide Sum, Requests;
    forall day: nat | l.requests > 0 ensures DayTotal(s', day) <= Bound(l) {
      if day <= s.today {
        DayUpdate(s, slot, s'.calls[slot], day);
      } else {
        OutstandingBound(l, s', day);
      }
    }
  }

  lemma AdmitInv(l: Limits, s: State, s': State, slot: nat)
    requires Inv(l, s) && Next(l, s, s', Admit(slot))
    ensures Inv(l, s')
  {
    SumUpdate(s.calls, Unwritten, slot, s'.calls[slot]);
    hide Sum, Requests;
    forall day: nat | l.requests > 0 ensures DayTotal(s', day) <= Bound(l) {
      if day == s.today == s.calls[slot].since {
        OutstandingBound(l, s', day);
      } else {
        DayUpdate(s, slot, s'.calls[slot], day);
      }
    }
  }

  lemma RefuseInv(l: Limits, s: State, s': State, slot: nat)
    requires Inv(l, s) && Next(l, s, s', Refuse(slot))
    ensures Inv(l, s')
  {
    SumUpdate(s.calls, Unwritten, slot, Idle);
    hide Sum, Requests;
    forall day: nat | l.requests > 0 ensures DayTotal(s', day) <= Bound(l) {
      DayUpdate(s, slot, Idle, day);
    }
  }

  lemma RouteInv(l: Limits, s: State, s': State, slot: nat, replies: seq<Reply>, route: Route)
    requires Inv(l, s) && Next(l, s, s', RouteCall(slot, replies, route))
    ensures Inv(l, s')
  {
    RouteReceipts(s.calls[slot].candidates, s.calls[slot].pinned, replies, route);
    SumUpdate(s.calls, Unwritten, slot, s'.calls[slot]);
    hide Sum, Requests, IsRoute;
    forall day: nat | l.requests > 0 ensures DayTotal(s', day) <= Bound(l) {
      DayUpdate(s, slot, s'.calls[slot], day);
      SameDay(s.(calls := s'.calls), s', day);
    }
  }

  lemma PersistInv(l: Limits, s: State, s': State, slot: nat, runId: Option<string>, stamp: nat)
    requires Inv(l, s) && Next(l, s, s', Persist(slot, runId, stamp))
    ensures Inv(l, s')
  {
    var r := Record(s.calls[slot].receipts[0], stamp, runId);
    SumUpdate(s.calls, Unwritten, slot, s'.calls[slot]);
    hide Sum, Requests;
    forall day: nat ensures Requests(s'.ledger, day) == Requests(s.ledger, day) + (if day == stamp then 1 else 0) {
      RequestsSnoc(s.ledger, r, day);
    }
    forall day: nat | l.requests > 0 ensures DayTotal(s', day) <= Bound(l) {
      DayUpdate(s, slot, s'.calls[slot], day);
    }
  }

  lemma FinishInv(l: Limits, s: State, s': State, slot: nat)
    requires Inv(l, s) && Next(l, s, s', Finish(slot))
    ensures Inv(l, s')
  {
    SumUpdate(s.calls, Unwritten, slot, Idle);
    hide Sum, Requests;
    forall day: nat | l.requests > 0 ensures DayTotal(s', day) <= Bound(l) {
      DayUpdate(s, slot, Idle, day);
    }
  }

  lemma PassInv(l: Limits, s: State, s': State, days: nat)
    requires Inv(l, s) && Next(l, s, s', PassDays(days))
    ensures Inv(l, s')
  {
    hide Sum, Requests;
    forall day: nat | l.requests > 0 ensures DayTotal(s', day) <= Bound(l) {
      SameDay(s, s', day);
    }
  }

  lemma NextInv(l: Limits, s: State, s': State, step: Step)
    requires Inv(l, s) && Next(l, s, s', step)
    ensures Inv(l, s')
  {
    hide *;
    match step
    case Begin(slot, candidates, pinned) => BeginInv(l, s, s', slot, candidates, pinned);
    case Admit(slot) => AdmitInv(l, s, s', slot);
    case Refuse(slot) => RefuseInv(l, s, s', slot);
    case RouteCall(slot, replies, route) => RouteInv(l, s, s', slot, replies, route);
    case Persist(slot, runId, day) => PersistInv(l, s, s', slot, runId, day);
    case Finish(slot) => FinishInv(l, s, s', slot);
    case PassDays(days) => PassInv(l, s, s', days);
  }

  lemma {:induction false} RunInv(l: Limits, states: seq<State>, steps: seq<Step>, i: nat)
    requires IsRun(l, states, steps) && i < |states|
    ensures Inv(l, states[i])
  {
    hide Inv, Next, Initial;
    if i == 0 {
      InitInv(l, states[0]);
    } else {
      RunInv(l, states, steps, i - 1);
      assert Next(l, states[i - 1], states[i], steps[i - 1]);
      NextInv(l, states[i - 1], states[i], steps[i - 1]);
    }
  }

  lemma {:induction false} NothingAsked(l: Limits, states: seq<State>, steps: seq<Step>, i: nat)
    requires IsRun(l, states, steps) && i < |states| && l.requests == 0
    ensures states[i].attempts == 0 && states[i].ledger == []
  {
    hide Inv, Initial, IsRoute, Requests;
    if i == 0 {
      StartsEmpty(l, states[0]);
    } else {
      NothingAsked(l, states, steps, i - 1);
      RunInv(l, states, steps, i - 1);
      NoneRouted(l, states[i - 1]);
      assert Next(l, states[i - 1], states[i], steps[i - 1]);
    }
  }

  lemma StartsEmpty(l: Limits, s: State)
    requires Initial(l, s)
    ensures s.attempts == 0 && s.ledger == []
  {
  }

  lemma NoneRouted(l: Limits, s: State)
    requires Inv(l, s) && l.requests == 0
    ensures forall j :: 0 <= j < |s.calls| ==> s.calls[j].Idle? || s.calls[j].Checking?
  {
    hide DaysBounded, Accounted;
  }

  /** On no day does the ledger come to hold more than M - 1 + K*C receipts; with M = 0 no provider
      is ever asked. */
  lemma RunBounded(l: Limits, states: seq<State>, steps: seq<Step>, i: nat, day: nat)
    requires IsRun(l, states, steps) && i < |states|
    ensures Requests(states[i].ledger, day) <= Bound(l)
    ensures l.requests == 0 ==> Requests(states[i].ledger, day) == 0
  {
    RunInv(l, states, steps, i);
    if l.requests == 0 {
      NothingAsked(l, states, steps, i);
    } else {
      hide IsRun, Requests, Within, Accounted;
      assert DayTotal(states[i], day) <= Bound(l);
    }
  }

  // ----------------------------------------------- receipts are bounded, attempts are not

  /** The route of a call whose one candidate answers something that cannot be read. */
  const BROKEN := Route(Broken, [], 1)

  /** A budget of M receipts a day, and yet any number of providers asked in a day with nothing
      written down: each reply is one that cannot be read, so each call loses its receipts. */
  lemma {:induction false} Unrecorded(l: Limits, p: Provider, n: nat) returns (states: seq<State>, steps: seq<Step>)
    requires l.requests > 0 && l.inFlight > 0 && l.candidates > 0
    ensures IsRun(l, states, steps)
    ensures states[|steps|].attempts == n && states[|steps|].ledger == [] && states[|steps|].today == 0
    ensures forall j :: 0 <= j < |states[|steps|].calls| ==> states[|steps|].calls[j] == Idle
  {
    if n == 0 {
      states, steps := [State(0, [], seq(l.inFlight, _ => Idle), 0, 0)], [];
    } else {
      states, steps := Unrecorded(l, p, n - 1);
      var s := states[|steps|];
      assert |s.calls| == l.inFlight by { RunInv(l, states, steps, |steps|); }
      var b := s.(calls := s.calls[0 := Checking([p], false, s.today)]);
      var t := b.(calls := b.calls[0 := Routing([p], false, s.today)]);
      var u := t.(calls := t.calls[0 := Idle], attempts := t.attempts + 1, lost := t.lost + 1);
      assert Next(l, s, b, Begin(0, [p], false)) && Next(l, b, t, Admit(0));
      assert Next(l, t, u, RouteCall(0, [Unreadable], BROKEN));
      states, steps := Extend(l, states, steps, Begin(0, [p], false), b);
      states, steps := Extend(l, states, steps, Admit(0), t);
      states, steps := Extend(l, states, steps, RouteCall(0, [Unreadable], BROKEN), u);
    }
  }

  lemma Extend(l: Limits, states: seq<State>, steps: seq<Step>, step: Step, s: State)
    returns (states': seq<State>, steps': seq<Step>)
    requires IsRun(l, states, steps) && Next(l, states[|steps|], s, step)
    ensures IsRun(l, states', steps') && states' == states + [s] && steps' == steps + [step]
  {
    hide Next, Initial;
    states', steps' := states + [s], steps + [step];
    forall i | 0 <= i < |steps'| ensures Next(l, states'[i], states'[i + 1], steps'[i]) {
      if i < |steps| {
        assert Next(l, states[i], states[i + 1], steps[i]);
      }
    }
  }

  /** Some call of the run got a reply that could not be read. */
  predicate SomeBroken(steps: seq<Step>) {
    exists i :: 0 <= i < |steps| && IsBroken(steps[i])
  }

  predicate IsBroken(step: Step) {
    step.RouteCall? && step.route.outcome == Broken
  }

  lemma SomeBrokenSnoc(steps: seq<Step>, step: Step)
    ensures SomeBroken(steps + [step]) <==> SomeBroken(steps) || IsBroken(step)
  {
    hide IsBroken;
    var more := steps + [step];
    assert more[|steps|] == step;
    assert forall i :: 0 <= i < |steps| ==> more[i] == steps[i];
  }

  lemma LostStep(l: Limits, s: State, s': State, step: Step)
    requires Next(l, s, s', step)
    ensures s'.lost > 0 <==> s.lost > 0 || IsBroken(step)
  {
    if step.RouteCall? {
      RouteReceipts(s.calls[step.slot].candidates, s.calls[step.slot].pinned, step.replies, step.route);
    }
    hide IsRoute, CanBegin;
  }

  /** Attempts are lost exactly where a reply could not be read. */
  lemma {:induction false} LostExactly(l: Limits, states: seq<State>, steps: seq<Step>, i: nat)
    requires IsRun(l, states, steps) && i < |states|
    ensures states[i].lost > 0 <==> SomeBroken(steps[..i])
  {
    hide Next, Initial, SomeBroken, IsBroken;
    if i == 0 {
      StartsWhole(l, states[0]);
      NoneBroken(steps);
    } else {
      LostExactly(l, states, steps, i - 1);
      assert Next(l, states[i - 1], states[i], steps[i - 1]);
      LostStep(l, states[i - 1], states[i], steps[i - 1]);
      assert steps[..i] == steps[..i - 1] + [steps[i - 1]];
      SomeBrokenSnoc(steps[..i - 1], steps[i - 1]);
    }
  }

  lemma NoneBroken(steps: seq<Step>)
    ensures !SomeBroken(steps[..0])
  {
  }

  lemma StartsWhole(l: Limits, s: State)
    requires Initial(l, s)
    ensures s.lost == 0
  {
  }

  /** While no call is in flight, the ledger holds one record for each attempt exactly when no reply
      so far was unreadable. */
  lemma AttemptsRecorded(l: Limits, states: seq<State>, steps: seq<Step>, i: nat)
    requires IsRun(l, states, steps) && i < |states|
    requires forall j :: 0 <= j < |states[i].calls| ==> states[i].calls[j] == Idle
    ensures states[i].attempts == |states[i].ledger| <==> !SomeBroken(steps[..i])
  {
    RunInv(l, states, steps, i);
    LostExactly(l, states, steps, i);
    AllIdle(states[i].calls, Unwritten);
    hide IsRun, DaysBounded, SomeBroken;
  }
}
