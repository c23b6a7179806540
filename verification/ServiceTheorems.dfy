/**
 The promises of the service over whole runs: every sequence of events, so every
 interleaving of requests, stream steps, disconnects and ticks.
 */
module ServiceTheorems {
  import opened ServiceModel
  import opened ServiceHistory
  import opened ServiceInvariants
  import opened Sums
  import L = LedgerModel
  import LB = LedgerBounds
  import G = GateModel
  import C = CacheModel
  import A = Autoscaler
  import R = Router

  // Only a request that never had a reservation ends unbilled; none ends with it open.
  predicate EndsClosed(r: Request) {
    match r.phase
    case Leaving(b, _) => b == Charged || b == Refunded
    case Done(b, _) => b != Open
    case _ => true
  }

  ghost predicate Inv(c: Config, s: Sys) {
    && GateMatches(s) && LedgerMatches(s) && GaugeMatches(s) && MoneyMatches(s)
    && Priced(c, s) && Histories(c, s) && BillsMatch(s) && AnswersSound(c, s) && CapacityMatches(c, s)
    && forall i :: 0 <= i < |s.reqs| ==> EndsClosed(s.reqs[i])
  }

  lemma ActKeepsEnds(c: Config, s: Sys, i: nat, a: Action)
    requires Enabled(c, s, i, a) && EndsClosed(s.reqs[i])
    ensures EndsClosed(NextRequest(c, s, i, a))
  {
  }

  lemma ActKeepsInv(c: Config, s: Sys, i: nat, a: Action)
    requires Enabled(c, s, i, a) && Inv(c, s)
    ensures Inv(c, ActStep(c, s, i, a))
  {
    ActKeepsGate(c, s, i, a);
    ActKeepsLedger(c, s, i, a);
    ActKeepsGauge(c, s, i, a);
    ActKeepsMoney(c, s, i, a);
    ActKeepsPriced(c, s, i, a);
    ActKeepsRecords(c, s, i, a);
    ActKeepsEnds(c, s, i, a);
    ActKeepsCapacity(c, s, i, a);
  }

  lemma ActKeepsRecords(c: Config, s: Sys, i: nat, a: Action)
    requires Enabled(c, s, i, a) && LedgerMatches(s) && Histories(c, s) && BillsMatch(s) && AnswersSound(c, s)
    ensures Histories(c, ActStep(c, s, i, a)) && BillsMatch(ActStep(c, s, i, a)) && AnswersSound(c, ActStep(c, s, i, a))
  {
    assert HistoryMatches(c, s, i) && ReservationMatches(s, i);
    ActKeepsHistories(c, s, i, a);
    ActKeepsBills(c, s, i, a);
    ActKeepsAnswersSound(c, s, i, a);
  }

  lemma ActKeepsCapacity(c: Config, s: Sys, i: nat, a: Action)
    requires Enabled(c, s, i, a) && CapacityMatches(c, s)
    ensures CapacityMatches(c, ActStep(c, s, i, a))
  {
  }

  // A newcomer holds, owes and waits for nothing yet.
  lemma ArriveKeepsCounts(s: Sys, t: Sys, r: Request)
    requires GateMatches(s) && GaugeMatches(s) && MoneyMatches(s)
    requires t == s.(reqs := s.reqs + [r]) && r.phase.Routed?
    ensures GateMatches(t) && GaugeMatches(t) && MoneyMatches(t)
  {
    CountAppend(s.reqs, r, HoldsSlot);
    CountAppend(s.reqs, r, InFlight);
    CountAppend(s.reqs, r, IsCharged);
    CountAppend(s.reqs, r, IsHit);
    forall q: Measure ensures Balances(t, q) {
      assert Balances(s, q);
      SumAppend(s.reqs, r, Untold(q));
    }
    forall w: nat ensures t.gate.Queue()[w] == if Waits(t, w) then 1 else 0 {
      assert s.gate.Queue()[w] == if Waits(s, w) then 1 else 0;
    }
  }

  lemma ArriveKeepsAnswers(c: Config, s: Sys, t: Sys, r: Request)
    requires AnswersSound(c, s) && Priced(c, s) && RequestPriced(c, r)
    requires t == s.(reqs := s.reqs + [r]) && r.phase.Routed?
    ensures AnswersSound(c, t) && Priced(c, t)
  {
    forall i | 0 <= i < |t.reqs| ensures TextSound(c, t, t.reqs[i]) {
      if i < |s.reqs| { StaysSound(c, s, t, s.reqs[i]); }
    }
  }

  lemma ArriveKeepsInv(c: Config, s: Sys, e: Event)
    requires Inv(c, s) && e.Arrive?
    ensures Inv(c, Step(c, s, e))
  {
    var route, t := R.Route(c.catalog, e.query, {}), Step(c, s, e);
    if route.Routed? {
      var r := Request(e.user, e.prompt, e.query, e.streamed, route.model, route.cost, 0.0, Phase.Routed);
      R.RoutedIsLegal(c.catalog, e.query, {});
      ArriveKeepsCounts(s, t, r);
      ArriveKeepsLedger(s, t, r);
      ArriveKeepsAnswers(c, s, t, r);
      ArriveKeepsHistories(c, s, t, r);
    }
  }

  lemma ArriveKeepsHistories(c: Config, s: Sys, t: Sys, r: Request)
    requires Histories(c, s) && BillsMatch(s) && t == s.(reqs := s.reqs + [r]) && r.phase.Routed?
    ensures Histories(c, t) && BillsMatch(t)
  {
    forall i: nat | i < |t.reqs| ensures HistoryMatches(c, t, i) {
      if i < |s.reqs| { assert HistoryMatches(c, s, i); }
    }
    BillsCarryOver(s, t);
  }

  lemma ArriveKeepsLedger(s: Sys, t: Sys, r: Request)
    requires LedgerMatches(s) && t == s.(reqs := s.reqs + [r]) && r.phase.Routed?
    ensures LedgerMatches(t)
  {
    forall i: nat | i < |t.reqs| ensures ReservationMatches(t, i) {
      if i < |s.reqs| { assert ReservationMatches(s, i); }
    }
    forall k <- t.ledger.journal ensures ClosingMatches(t, k) { assert ClosingMatches(s, k); }
  }

  // The clock, the autoscaler and the gate's capacity and wake-ups moved, nothing else.
  ghost predicate Quiet(s: Sys, t: Sys) {
    && G.Inv(t.gate) && t.gate.Queue() == s.gate.Queue() && t.gate.active == s.gate.active
    && t == s.(now := t.now, gate := t.gate, scaler := t.scaler, resizing := t.resizing)
  }

  lemma QuietKeepsGate(s: Sys, t: Sys)
    requires Quiet(s, t) && GateMatches(s)
    ensures GateMatches(t)
  {
    forall w: nat ensures t.gate.Queue()[w] == if Waits(t, w) then 1 else 0 {
      assert s.gate.Queue()[w] == if Waits(s, w) then 1 else 0;
    }
  }

  lemma QuietKeepsLedger(s: Sys, t: Sys)
    requires Quiet(s, t) && LedgerMatches(s) && MoneyMatches(s)
    ensures LedgerMatches(t) && MoneyMatches(t)
  {
    forall i: nat | i < |t.reqs| ensures ReservationMatches(t, i) { assert ReservationMatches(s, i); }
    forall k <- t.ledger.journal ensures ClosingMatches(t, k) { assert ClosingMatches(s, k); }
    forall q: Measure ensures Balances(t, q) { assert Balances(s, q); }
  }

  lemma QuietKeepsRecords(c: Config, s: Sys, t: Sys)
    requires Quiet(s, t) && Histories(c, s) && BillsMatch(s) && AnswersSound(c, s)
    ensures Histories(c, t) && BillsMatch(t) && AnswersSound(c, t)
  {
    forall i: nat | i < |t.reqs| ensures TextSound(c, t, t.reqs[i]) && HistoryMatches(c, t, i) {
      assert HistoryMatches(c, s, i);
      StaysSound(c, s, t, s.reqs[i]);
    }
    BillsCarryOver(s, t);
  }

  lemma QuietKeepsInv(c: Config, s: Sys, t: Sys)
    requires Inv(c, s) && Quiet(s, t) && CapacityMatches(c, t)
    ensures Inv(c, t)
  {
    QuietKeepsGate(s, t);
    QuietKeepsLedger(s, t);
    QuietKeepsRecords(c, s, t);
  }

  lemma StepKeepsInv(c: Config, s: Sys, e: Event)
    requires Inv(c, s)
    ensures Inv(c, Step(c, s, e))
  {
    match e {
      case Advance(_) => QuietKeepsInv(c, s, Step(c, s, e));
      case Arrive(_, _, _, _) => ArriveKeepsInv(c, s, e);
      case Act(i, a) => if Enabled(c, s, i, a) { ActKeepsInv(c, s, i, a); }
      case Tick(_) => QuietKeepsInv(c, s, Step(c, s, e));
      case Resize => ResizeKeepsInv(c, s);
    }
  }

  lemma ResizeKeepsInv(c: Config, s: Sys)
    requires Inv(c, s)
    ensures Inv(c, Step(c, s, Resize))
  {
    G.StepKeepsInv(s.gate, G.Resize(A.CapacityFor(s.scaler.current, c.scaling.target)));
    G.QueueStep(s.gate, G.Resize(A.CapacityFor(s.scaler.current, c.scaling.target)));
    QuietKeepsInv(c, s, Step(c, s, Resize));
  }

  // One invariant over gate, ledger, metrics, cache and every request, in every run.
  lemma {:induction false} RunKeepsInv(c: Config, events: seq<Event>)
    ensures Inv(c, Run(c, events))
  {
    if events == [] {
      assert Start(c).gate.Queue() == multiset{};
      forall q: Measure ensures Balances(Start(c), q) {}
    } else {
      RunKeepsInv(c, events[..|events| - 1]);
      StepKeepsInv(c, Run(c, events[..|events| - 1]), events[|events| - 1]);
    }
  }

  lemma {:induction false} OneMore(c: Config, events: seq<Event>, e: Event)
    ensures Run(c, events + [e]) == Step(c, Run(c, events), e)
  {
    assert (events + [e])[..|events|] == events;
  }

  // In every run a request that comes for a slot, or is woken to, gets one if and only if the
  // requests holding one are fewer than the capacity; otherwise it waits.  Nothing else gives
  // a request a slot.
  lemma {:induction false} AdmissionsFit(c: Config, events: seq<Event>, i: nat, a: Action)
    requires Enabled(c, Run(c, events), i, a)
    ensures var s, t := Run(c, events), Step(c, Run(c, events), Act(i, a));
            if a.EnterGate? || a.Wake?
            then t.reqs[i].phase == if Count(s.reqs, HoldsSlot) < s.gate.capacity then Admitted else Queued
            else HoldsSlot(t.reqs[i]) ==> HoldsSlot(s.reqs[i])
  {
    RunKeepsInv(c, events);
    SlotsMove(c, Run(c, events), i, a);
  }

  // ---- conservation ------------------------------------------------------

  predicate Quiescent(s: Sys) {
    forall r <- s.reqs :: r.phase.Done?
  }

  // With no request or detached task left there is no held slot, nobody waits, no hold is
  // open, the gauge is zero, and every settled dollar and token is in the metrics.
  lemma {:induction false} QuiescentIsBalanced(c: Config, events: seq<Event>)
    requires Quiescent(Run(c, events))
    ensures var s := Run(c, events);
            && s.gate.active == 0 && s.gate.Waiting() == 0
            && (forall h <- s.ledger.grants :: h.id in s.ledger.closed)
            && s.metrics.inFlight == 0
            && forall q: Measure :: Told(q, s.metrics) == Sum(s.ledger.records, Recorded(q))
  {
    var s := Run(c, events);
    RunKeepsInv(c, events);
    CountNone(s.reqs, HoldsSlot);
    CountNone(s.reqs, InFlight);
    forall q: Measure ensures Told(q, s.metrics) == Sum(s.ledger.records, Recorded(q)) {
      assert Balances(s, q);
      SumNone(s.reqs, Untold(q));
    }
    forall w: nat ensures s.gate.Queue()[w] == 0 {
      assert s.gate.Queue()[w] == if Waits(s, w) then 1 else 0;
      assert w < |s.reqs| ==> s.reqs[w] in s.reqs;
    }
    assert s.gate.Queue() == multiset{};
    assert |s.gate.Queue()| == s.gate.Waiting();
    forall h <- s.ledger.grants ensures h.id in s.ledger.closed {
      assert ReservationMatches(s, h.id);
      assert s.reqs[h.id] in s.reqs && EndsClosed(s.reqs[h.id]);
    }
  }

  // ---- the ledger calls of a run -----------------------------------------

  ghost function OpOf(c: Config, s: Sys, e: Event): C.Option<L.Op> {
    if e.Act? && Enabled(c, s, e.i, e.action) then LedgerOp(c, s, e.i, e.action) else C.None
  }

  ghost function LedgerOps(c: Config, events: seq<Event>): seq<L.Op> {
    if events == [] then [] else
    var before := events[..|events| - 1];
    var op := OpOf(c, Run(c, before), events[|events| - 1]);
    if op.Some? then LedgerOps(c, before) + [op.value] else LedgerOps(c, before)
  }

  lemma StepRunsLedger(c: Config, s: Sys, e: Event)
    requires LedgerMatches(s)
    ensures var op, t := OpOf(c, s, e), Step(c, s, e);
            && s.now <= t.now
            && (op.None? ==> t.ledger == s.ledger)
            && (op.Some? ==> && t.ledger == L.Step(s.ledger, op.value, c.window, false)
                             && L.Legal(s.ledger, op.value) && op.value.now == s.now)
  {
    if OpOf(c, s, e).Some? { OpIsLegal(c, s, e.i, e.action); }
  }

  // The service drives its ledger by a legal run with a clock that never goes back.
  lemma {:induction false} ServiceRunsLedger(c: Config, events: seq<Event>)
    ensures var ops := LedgerOps(c, events);
            && Run(c, events).ledger == L.Run(ops, c.window, false)
            && L.LegalRun(ops, c.window, false)
            && (ops != [] ==> ops[|ops| - 1].now <= Run(c, events).now)
  {
    if events != [] {
      var before, e := events[..|events| - 1], events[|events| - 1];
      var s, ops := Run(c, before), LedgerOps(c, before);
      ServiceRunsLedger(c, before);
      RunKeepsInv(c, before);
      StepRunsLedger(c, s, e);
      var op := OpOf(c, s, e);
      if op.Some? { assert (ops + [op.value])[..|ops|] == ops; }
    }
  }

  // Reservation i has exactly one closing in the ledger, a charge or a refund.
  ghost predicate ClosedExactlyOnce(s: Sys, i: nat)
    requires i < |s.reqs|
  {
    exists k :: 0 <= k < |s.ledger.journal|
      && s.ledger.journal[k].hold == HoldOf(s.reqs[i], i)
      && (s.ledger.journal[k].Charged? <==> BillingOf(s.reqs[i].phase) == Charged)
      && forall j :: 0 <= j < |s.ledger.journal| && j != k ==> s.ledger.journal[j].hold.id != i
  }

  // Every request that took a reservation and ended refunded or charged it exactly once.
  lemma {:induction false} EveryExitClosesOnce(c: Config, events: seq<Event>, i: nat)
    requires i < |Run(c, events).reqs| && Run(c, events).reqs[i].phase.Done?
    ensures var s := Run(c, events);
            if HoldOf(s.reqs[i], i) in s.ledger.grants then ClosedExactlyOnce(s, i)
            else BillingOf(s.reqs[i].phase) == Unbilled && forall k <- s.ledger.journal :: k.hold.id != i
  {
    var s := Run(c, events);
    RunKeepsInv(c, events);
    ServiceRunsLedger(c, events);
    LB.EveryReservationClosedOnce(LedgerOps(c, events), c.window, false);
    ClosedByJournal(s, i);
  }

  lemma ClosedByJournal(s: Sys, i: nat)
    requires LedgerMatches(s) && LB.ClosedOnce(s.ledger)
    requires i < |s.reqs| && s.reqs[i].phase.Done? && EndsClosed(s.reqs[i])
    ensures if HoldOf(s.reqs[i], i) in s.ledger.grants then ClosedExactlyOnce(s, i)
            else BillingOf(s.reqs[i].phase) == Unbilled && forall k <- s.ledger.journal :: k.hold.id != i
  {
    assert ReservationMatches(s, i);
    if HoldOf(s.reqs[i], i) in s.ledger.grants {
      var k :| 0 <= k < |s.ledger.journal| && s.ledger.journal[k].hold.id == i;
      assert s.ledger.journal[k] in s.ledger.journal && ClosingMatches(s, s.ledger.journal[k]);
    } else {
      forall k <- s.ledger.journal ensures k.hold.id != i { assert ClosingMatches(s, k); }
    }
  }

  // What `spent` answers during a run: recorded cost plus open holds, inside the window.
  lemma {:induction false} ServiceSpentIsExact(c: Config, events: seq<Event>, u: L.User)
    ensures LB.SpentIsExact(Run(c, events).ledger, u, Run(c, events).now, c.window)
  {
    ServiceRunsLedger(c, events);
    LB.SpentIsSettledPlusHeld(LedgerOps(c, events), c.window, u, Run(c, events).now);
  }

  // A request that comes with limit x is held if and only if its projected cost fits beside
  // what its user has recorded and on hold inside the window; otherwise it ends unbilled.
  ghost predicate Budgeted(c: Config, s: Sys, i: nat, x: real)
    requires i < |s.reqs|
  {
    var r, t := s.reqs[i], Step(c, s, Act(i, Reserve(x)));
    var fits := LB.RecordedCost(s.ledger.records, r.user, s.now - c.window, s.now)
                + LB.OpenHolds(s.ledger.grants, s.ledger.closed, r.user, s.now - c.window)
                + r.cost <= x + 0.000000001;
    && t.reqs[i].phase == (if fits then Held else Done(Unbilled, C.None))
    && (L.Hold(i, r.user, r.cost, s.now) in t.ledger.grants <==> fits)
  }

  lemma {:induction false} RequestIsBudgeted(c: Config, events: seq<Event>, i: nat, x: real)
    requires i < |Run(c, events).reqs| && Run(c, events).reqs[i].phase.Missed?
    ensures Budgeted(c, Run(c, events), i, x)
  {
    var s := Run(c, events);
    ServiceRunsLedger(c, events);
    LB.ReserveIsBudgeted(LedgerOps(c, events), c.window, s.reqs[i].user, s.reqs[i].cost, x, i, s.now);
    RunKeepsInv(c, events);
    HeldIfFits(c, s, i, x);
  }

  // The request follows the ledger's answer.
  lemma HeldIfFits(c: Config, s: Sys, i: nat, x: real)
    requires LedgerMatches(s) && i < |s.reqs| && s.reqs[i].phase.Missed?
    requires LB.TakenIfFits(s.ledger, s.reqs[i].user, s.reqs[i].cost, x, i, s.now, c.window)
    ensures Budgeted(c, s, i, x)
  {
    NoHoldYet(s, i);
  }

  lemma NoHoldYet(s: Sys, i: nat)
    requires LedgerMatches(s) && i < |s.reqs| && s.reqs[i].phase.Missed?
    ensures forall h <- s.ledger.grants :: h.id != i
  {
  }

  // ---- the cap on a user's window ----------------------------------------

  // Every daily limit that a request of `u` came with to be checked against is at most `limit`.
  ghost predicate LimitsWithin(c: Config, events: seq<Event>, u: L.User, limit: real) {
    events != [] ==>
      var s, e := Run(c, events[..|events| - 1]), events[|events| - 1];
      && LimitsWithin(c, events[..|events| - 1], u, limit)
      && (e.Act? && e.action.Reserve? && Enabled(c, s, e.i, e.action) && s.reqs[e.i].user == u
          ==> e.action.limit <= limit)
  }

  predicate PricesNotNegative(c: Config) {
    forall m <- c.catalog :: m.inputPrice >= 0.0 && m.outputPrice >= 0.0
  }

  lemma Product(a: real, b: real)
    requires a >= 0.0 && b >= 0.0
    ensures a * b >= 0.0
  {
  }

  lemma CostNotNegative(m: R.Model, inputTokens: nat, outputTokens: nat)
    requires m.inputPrice >= 0.0 && m.outputPrice >= 0.0
    ensures R.Cost(m, inputTokens, outputTokens) >= 0.0
  {
    Product(inputTokens as real / 1000.0, m.inputPrice);
    Product(outputTokens as real / 1000.0, m.outputPrice);
  }

  lemma OpIsCapped(c: Config, s: Sys, e: Event, u: L.User, limit: real)
    requires Priced(c, s) && PricesNotNegative(c) && OpOf(c, s, e).Some?
    requires e.action.Reserve? && s.reqs[e.i].user == u ==> e.action.limit <= limit
    ensures LB.CappedOp(OpOf(c, s, e).value, u, limit)
  {
    var r := s.reqs[e.i];
    assert RequestPriced(c, r);
    CostNotNegative(r.model, r.query.inputTokens, r.query.outputTokens);
    if r.phase.Generated? {
      CostNotNegative(r.phase.model, r.phase.usage.inputTokens, r.phase.usage.outputTokens);
    } else if r.phase.Detached? {
      CostNotNegative(r.model, r.phase.usage.inputTokens, r.phase.usage.outputTokens);
    }
  }

  lemma {:induction false} ServiceOpsAreCapped(c: Config, events: seq<Event>, u: L.User, limit: real)
    requires PricesNotNegative(c) && LimitsWithin(c, events, u, limit)
    ensures LB.Capped(LedgerOps(c, events), u, limit)
  {
    if events != [] {
      var before, e := events[..|events| - 1], events[|events| - 1];
      ServiceOpsAreCapped(c, before, u, limit);
      RunKeepsInv(c, before);
      var op := OpOf(c, Run(c, before), e);
      if op.Some? {
        OpIsCapped(c, Run(c, before), e, u, limit);
        assert (LedgerOps(c, before) + [op.value])[..|LedgerOps(c, before)|] == LedgerOps(c, before);
      }
    }
  }

  // Whatever the service did, what a user was charged inside any window is at most the
  // largest limit, plus what generations cost beyond their live holds.
  lemma {:induction false} ServiceSpendIsCapped(c: Config, events: seq<Event>, u: L.User, limit: real, t: real)
    requires PricesNotNegative(c) && LimitsWithin(c, events, u, limit) && 0.0 <= limit
    ensures LB.WindowCapped(Run(c, events).ledger, u, limit, t, c.window)
  {
    ServiceRunsLedger(c, events);
    ServiceOpsAreCapped(c, events, u, limit);
    LB.WindowSpendBound(LedgerOps(c, events), c.window, u, limit, t);
  }

  // ---- autoscaling -------------------------------------------------------

  // Neither a tick's sample nor its resize.
  predicate Between(e: Event) {
    !e.Tick? && !e.Resize?
  }

  lemma {:induction false} BetweenKeepsScaler(c: Config, events: seq<Event>, more: seq<Event>)
    requires forall e <- more :: Between(e)
    ensures var s, t := Run(c, events), Run(c, events + more); t.scaler == s.scaler && t.resizing == s.resizing
  {
    if more == [] {
      assert events + more == events;
    } else {
      var n := |more| - 1;
      BetweenKeepsScaler(c, events, more[..n]);
      assert events + more == (events + more[..n]) + [more[n]];
      assert more[n] in more;
      OneMore(c, events + more[..n], more[n]);
      BetweenStep(c, Run(c, events + more[..n]), more[n]);
    }
  }

  lemma BetweenStep(c: Config, s: Sys, e: Event)
    requires Between(e)
    ensures Step(c, s, e).scaler == s.scaler && Step(c, s, e).resizing == s.resizing
  {
  }

  predicate IsQueued(r: Request) {
    r.phase.Queued?
  }

  lemma {:induction false} QueueCounts(reqs: seq<Request>, queue: multiset<nat>)
    requires forall w: nat :: queue[w] == if w < |reqs| && reqs[w].phase.Queued? then 1 else 0
    ensures |queue| == Count(reqs, IsQueued)
  {
    if reqs == [] {
      assert queue == multiset{};
    } else {
      var n := |reqs| - 1;
      var rest := queue - multiset{n};
      forall w: nat ensures rest[w] == if w < n && reqs[..n][w].phase.Queued? then 1 else 0 {
        assert queue[w] == if w < |reqs| && reqs[w].phase.Queued? then 1 else 0;
      }
      QueueCounts(reqs[..n], rest);
      if reqs[n].phase.Queued? {
        assert queue[n] == 1;
        assert queue == rest + multiset{n};
      } else {
        assert queue[n] == 0;
        assert queue == rest;
      }
    }
  }

  // The load a tick samples is the requests holding a slot and those waiting for one.
  lemma LoadIsRequests(c: Config, s: Sys)
    requires Inv(c, s)
    ensures Load(s) == Count(s.reqs, HoldsSlot) + Count(s.reqs, IsQueued)
  {
    forall w: nat ensures s.gate.Queue()[w] == if w < |s.reqs| && s.reqs[w].phase.Queued? then 1 else 0 {
      assert s.gate.Queue()[w] == if Waits(s, w) then 1 else 0;
    }
    QueueCounts(s.reqs, s.gate.Queue());
  }

  // Where a tick takes the replicas.  With n the fewest that cover the requests holding a slot
  // or waiting for one, and r that number within the bounds: to r once the cooldown of that
  // direction has passed, and otherwise nowhere.
  lemma {:induction false} TickIsExact(c: Config, events: seq<Event>, later: real, n: nat, r: nat)
    requires !Run(c, events).resizing && c.scaling.minReplicas <= c.scaling.maxReplicas
    requires var s := Run(c, events);
             A.Fewest(n, Count(s.reqs, HoldsSlot) + Count(s.reqs, IsQueued), c.scaling.target)
    requires r == if n < c.scaling.minReplicas then c.scaling.minReplicas
                  else if n > c.scaling.maxReplicas then c.scaling.maxReplicas else n
    ensures var s, t := Run(c, events), Run(c, events + [Tick(later)]);
            var was := s.scaler;
            t.scaler
            == if r > was.current && s.now - was.lastUp >= c.scaling.upCooldown then A.Scaler(r, later, was.lastDown)
               else if r < was.current && s.now - was.lastDown >= c.scaling.downCooldown
               then A.Scaler(r, was.lastUp, later)
               else was
  {
    var s := Run(c, events);
    RunKeepsInv(c, events);
    LoadIsRequests(c, s);
    OneMore(c, events, Tick(later));
    A.StepIsExact(c.scaling, s.scaler, Load(s), s.now, later, n, r);
    TickApplies(c, s, later);
  }

  lemma TickApplies(c: Config, s: Sys, later: real)
    requires !s.resizing
    ensures Step(c, s, Tick(later)).scaler
         == A.Apply(s.scaler, A.Decide(c.scaling, s.scaler, Load(s), s.now), later)
  {
  }

  // In any run, let a tick sample the load, anything else happen, and then the tick's resize
  // run.  Once the up cooldown has passed, unless the load needs more replicas than allowed,
  // the gate then has room for all who held a slot or waited for one.  If no more do by then,
  // nobody sleeps, and everybody waiting gets in without a single release.
  lemma {:induction false} TickServesLoad(c: Config, events: seq<Event>, later: real, more: seq<Event>)
    requires forall e <- more :: Between(e)
    requires var s := Run(c, events);
             && !s.resizing && s.now - s.scaler.lastUp >= c.scaling.upCooldown
             && c.scaling.maxReplicas as real * c.scaling.target
                >= (Count(s.reqs, HoldsSlot) + Count(s.reqs, IsQueued)) as real
    ensures var s, mid := Run(c, events), Run(c, events + [Tick(later)] + more);
            var t := Run(c, events + [Tick(later)] + more + [Resize]);
            var load := Count(s.reqs, HoldsSlot) + Count(s.reqs, IsQueued);
            && t.gate.capacity >= load
            && (Count(mid.reqs, HoldsSlot) + Count(mid.reqs, IsQueued) <= load ==>
                  && t.gate.parked == []
                  && G.Drain(t.gate).notified == []
                  && G.Drain(t.gate).active == t.gate.active + |t.gate.notified|)
  {
    var ticked := events + [Tick(later)];
    OneMore(c, events, Tick(later));
    BetweenKeepsScaler(c, ticked, more);
    OneMore(c, ticked + more, Resize);
    RunKeepsInv(c, events);
    RunKeepsInv(c, ticked + more);
    LoadIsRequests(c, Run(c, events));
    LoadIsRequests(c, Run(c, ticked + more));
    TickedServesLoad(c, Run(c, events), later);
    ResizeServesLoad(c, Run(c, events), later, Run(c, ticked + more));
  }

  lemma TickedServesLoad(c: Config, s: Sys, later: real)
    requires !s.resizing && s.now - s.scaler.lastUp >= c.scaling.upCooldown
    requires c.scaling.maxReplicas as real * c.scaling.target >= Load(s) as real
    ensures A.CapacityFor(Step(c, s, Tick(later)).scaler.current, c.scaling.target) >= Load(s)
  {
    A.StepServesLoad(c.scaling, s.scaler, Load(s), s.now, later);
  }

  lemma ResizeServesLoad(c: Config, s: Sys, later: real, mid: Sys)
    requires Inv(c, s) && Inv(c, mid) && !s.resizing
    requires mid.scaler == Step(c, s, Tick(later)).scaler && mid.resizing == Step(c, s, Tick(later)).resizing
    requires A.CapacityFor(Step(c, s, Tick(later)).scaler.current, c.scaling.target) >= Load(s)
    ensures Step(c, mid, Resize).gate.capacity >= Load(s)
    ensures Load(mid) <= Load(s) ==>
              var t := Step(c, mid, Resize);
              && t.gate.parked == []
              && G.Drain(t.gate).Waiting() == 0
              && G.Drain(t.gate).active == t.gate.active + t.gate.Waiting()
  {
    var t := Step(c, mid, Resize);
    StepKeepsInv(c, mid, Resize);
    ResizeKeepsLoad(c, mid);
    if Load(mid) <= Load(s) { G.EnoughCapacityAdmitsAll(t.gate); }
  }

  lemma ResizeKeepsLoad(c: Config, s: Sys)
    requires Inv(c, s)
    ensures var t := Step(c, s, Resize);
            && t.gate.active == s.gate.active && t.gate.Waiting() == s.gate.Waiting()
            && t.gate.capacity == A.CapacityFor(s.scaler.current, c.scaling.target)
  {
  }

  // Between ticks the gate is sized for the current replicas, in every run.
  lemma {:induction false} CapacityFollowsReplicas(c: Config, events: seq<Event>)
    ensures var s := Run(c, events);
            !s.resizing ==> s.gate.capacity == A.CapacityFor(s.scaler.current, c.scaling.target)
  {
    RunKeepsInv(c, events);
  }
}
