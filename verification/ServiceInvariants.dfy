/**
 What every event of the lifecycle keeps, component by component.
 */
module ServiceInvariants {
  import opened ServiceModel
  import opened Sums
  import L = LedgerModel
  import G = GateModel
  import A = Autoscaler
  import M = Metrics
  import R = Router
  import F = Failover

  // ---- what a phase stands for -------------------------------------------

  // Between admission and the gate release.
  predicate HoldsSlot(r: Request) {
    match r.phase
    case Routed => false
    case Missed => false
    case Held => false
    case Queued => false
    case Expired => false
    case Done(_, _) => false
    case _ => true
  }

  // Between request_started and the first request_finished.
  predicate InFlight(r: Request) {
    HoldsSlot(r) && match r.phase
      case Admitted => false
      case Storing(_, _, _) => false
      case Failed(settled) => !settled
      case Released(settled) => !settled
      case Leaving(_, _) => false
      case _ => true
  }

  function BillingOf(p: Phase): Billing {
    match p
    case Routed => Unbilled
    case Missed => Unbilled
    case Settled(_, _, _) => Charged
    case Storing(_, _, _) => Charged
    case Failed(settled) => if settled then Charged else Open
    case Released(settled) => if settled then Charged else Refunded
    case DetachedSettled(_, _) => Charged
    case DetachedStored(_) => Charged
    case Leaving(b, _) => b
    case Done(b, _) => b
    case _ => Open
  }

  predicate IsCharged(r: Request) {
    BillingOf(r.phase) == Charged
  }

  // The totals that metrics and usage records keep in common.
  datatype Measure = Dollars | InputTokens | OutputTokens

  function Of(q: Measure, m: R.Model, u: Usage): real {
    match q
    case Dollars => Price(m, u)
    case InputTokens => u.inputTokens as real
    case OutputTokens => u.outputTokens as real
  }

  function Told(q: Measure, m: M.Counters): real {
    match q
    case Dollars => m.cost
    case InputTokens => m.inputTokens as real
    case OutputTokens => m.outputTokens as real
  }

  function Recorded(q: Measure): L.UsageRecord -> real {
    (r: L.UsageRecord) =>
      match q
      case Dollars => r.cost
      case InputTokens => r.inputTokens as real
      case OutputTokens => r.outputTokens as real
  }

  // What was settled for a request and the metrics have not been told yet.
  function Untold(q: Measure): Request -> real {
    (r: Request) =>
      match r.phase
      case Settled(m, _, u) => Of(q, m, u)
      case DetachedSettled(u, _) => Of(q, r.model, u)
      case DetachedStored(u) => Of(q, r.model, u)
      case _ => 0.0
  }

  // ---- the gate ----------------------------------------------------------

  predicate Waits(s: Sys, w: nat) {
    w < |s.reqs| && s.reqs[w].phase.Queued?
  }

  // The queue is the requests waiting, each once.
  ghost predicate QueueMatches(s: Sys) {
    forall w: nat :: s.gate.Queue()[w] == if Waits(s, w) then 1 else 0
  }

  // And the slots in use are the requests between admission and release.
  ghost predicate GateMatches(s: Sys) {
    G.Inv(s.gate) && QueueMatches(s) && s.gate.active == Count(s.reqs, HoldsSlot)
  }

  // Only admission and the release change who holds a slot; only entering the queue,
  // admission from it and giving up change who waits.
  lemma SlotsMove(c: Config, s: Sys, i: nat, a: Action)
    requires Enabled(c, s, i, a)
    ensures var r, t := s.reqs[i], NextRequest(c, s, i, a);
            && (HoldsSlot(t) <==> match a
                  case EnterGate => s.gate.HasRoom()
                  case Wake => s.gate.HasRoom()
                  case Leave => false
                  case _ => HoldsSlot(r))
            && (t.phase.Queued? <==> match a
                  case EnterGate => !s.gate.HasRoom()
                  case Wake => !s.gate.HasRoom()
                  case GiveUp => false
                  case _ => r.phase.Queued?)
            && (a.EnterGate? || a.Wake? || a.GiveUp? ==> !HoldsSlot(r))
            && (a.Leave? ==> HoldsSlot(r))
  {
  }

  lemma GateEventEnabled(c: Config, s: Sys, i: nat, a: Action)
    requires Enabled(c, s, i, a) && QueueMatches(s) && GateEvent(i, a).Some?
    ensures G.Enabled(s.gate, GateEvent(i, a).value)
  {
    assert s.gate.Queue()[i] == if Waits(s, i) then 1 else 0;
    assert s.gate.IsWaiting(i) <==> i in s.gate.Queue();
  }

  lemma ActKeepsSlots(c: Config, s: Sys, i: nat, a: Action)
    requires Enabled(c, s, i, a) && s.gate.active == Count(s.reqs, HoldsSlot)
    ensures ActStep(c, s, i, a).gate.active == Count(ActStep(c, s, i, a).reqs, HoldsSlot)
    ensures a.Leave? ==> s.gate.active >= 1
  {
    SlotsMove(c, s, i, a);
    CountUpdate(s.reqs, i, NextRequest(c, s, i, a), HoldsSlot);
  }

  // Request i entered the queue, left it, or neither.
  ghost predicate QueueDelta(s: Sys, t: Sys, i: nat, r: Request) {
    && i < |s.reqs| && t.reqs == s.reqs[i := r]
    && t.gate.Queue() == if r.phase.Queued? == s.reqs[i].phase.Queued? then s.gate.Queue()
                         else if r.phase.Queued? then s.gate.Queue() + multiset{i}
                         else s.gate.Queue() - multiset{i}
  }

  lemma QueueMoves(c: Config, s: Sys, i: nat, a: Action)
    requires Enabled(c, s, i, a) && QueueMatches(s)
    ensures QueueDelta(s, ActStep(c, s, i, a), i, NextRequest(c, s, i, a))
  {
    SlotsMove(c, s, i, a);
    if GateEvent(i, a).Some? {
      GateEventEnabled(c, s, i, a);
      G.QueueStep(s.gate, GateEvent(i, a).value);
    }
  }

  lemma DeltaKeepsQueue(s: Sys, t: Sys, i: nat, r: Request)
    requires QueueMatches(s) && QueueDelta(s, t, i, r)
    ensures QueueMatches(t)
  {
    var before, after := s.gate.Queue(), t.gate.Queue();
    assert before[i] == if Waits(s, i) then 1 else 0;
    forall w: nat ensures after[w] == if Waits(t, w) then 1 else 0 {
      assert before[w] == if Waits(s, w) then 1 else 0;
      if w != i { assert after[w] == before[w]; }
    }
  }

  lemma ActKeepsQueue(c: Config, s: Sys, i: nat, a: Action)
    requires Enabled(c, s, i, a) && QueueMatches(s)
    ensures QueueMatches(ActStep(c, s, i, a))
  {
    QueueMoves(c, s, i, a);
    DeltaKeepsQueue(s, ActStep(c, s, i, a), i, NextRequest(c, s, i, a));
  }

  lemma ActKeepsGate(c: Config, s: Sys, i: nat, a: Action)
    requires Enabled(c, s, i, a) && GateMatches(s)
    ensures GateMatches(ActStep(c, s, i, a))
  {
    ActKeepsSlots(c, s, i, a);
    ActKeepsQueue(c, s, i, a);
    if GateEvent(i, a).Some? {
      GateEventEnabled(c, s, i, a);
      G.StepKeepsInv(s.gate, GateEvent(i, a).value);
    }
  }

  // ---- the ledger --------------------------------------------------------

  ghost predicate ReservationMatches(s: Sys, i: nat)
    requires i < |s.reqs|
  {
    var b := BillingOf(s.reqs[i].phase);
    && (b != Unbilled <==> HoldOf(s.reqs[i], i) in s.ledger.grants)
    && (b == Charged || b == Refunded <==> i in s.ledger.closed)
  }

  ghost predicate ClosingMatches(s: Sys, k: L.Closing) {
    k.hold.id < |s.reqs| && BillingOf(s.reqs[k.hold.id].phase) == if k.Charged? then Charged else Refunded
  }

  // The ledger agrees with every request about its reservation: whether it was taken, is
  // still open, was charged or was refunded.
  ghost predicate LedgerMatches(s: Sys) {
    && (forall i: nat :: i < |s.reqs| ==> ReservationMatches(s, i))
    && (forall h <- s.ledger.grants ::
          h.id < |s.reqs| && h == HoldOf(s.reqs[h.id], h.id) && BillingOf(s.reqs[h.id].phase) != Unbilled)
    && (forall k <- s.ledger.journal :: ClosingMatches(s, k))
    && (forall id <- s.ledger.closed :: id < |s.reqs|)
  }

  lemma BillingMoves(c: Config, s: Sys, i: nat, a: Action)
    requires Enabled(c, s, i, a)
    ensures var b, t := BillingOf(s.reqs[i].phase), BillingOf(NextRequest(c, s, i, a).phase);
            match a
            case Reserve(limit) =>
              && b == Unbilled
              && t == if L.Reply(s.ledger, ReserveOp(s, i, limit), c.window).granted then Open else Unbilled
            case Settle => b == Open && t == Charged
            case Release => (b == Open && t == Refunded) || (b == t == Charged)
            case _ => b == t
  {
  }

  lemma OpIsLegal(c: Config, s: Sys, i: nat, a: Action)
    requires Enabled(c, s, i, a) && LedgerMatches(s) && LedgerOp(c, s, i, a).Some?
    ensures L.Legal(s.ledger, LedgerOp(c, s, i, a).value) && LedgerOp(c, s, i, a).value.now == s.now
  {
    BillingMoves(c, s, i, a);
    assert ReservationMatches(s, i);
  }

  // The ledger and request i moved together: the hold was taken, charged, refunded, or
  // nothing happened to it.
  ghost predicate LedgerDelta(s: Sys, t: Sys, i: nat, r: Request)
    requires i < |s.reqs|
  {
    var b, b', h := BillingOf(s.reqs[i].phase), BillingOf(r.phase), HoldOf(r, i);
    var l, l' := s.ledger, t.ledger;
    && t.reqs == s.reqs[i := r] && (b != Unbilled ==> h == HoldOf(s.reqs[i], i))
    && l'.grants == (if b == Unbilled && b' != Unbilled then l.grants + [h] else l.grants)
    && if b' == b then l'.closed == l.closed && l'.journal == l.journal
       else match b' {
         case Open => b == Unbilled && l'.closed == l.closed && l'.journal == l.journal
         case Charged =>
           b == Open && l'.closed == l.closed + {i}
           && exists record :: l'.journal == l.journal + [L.Charged(h, record)]
         case Refunded => b == Open && l'.closed == l.closed + {i} && l'.journal == l.journal + [L.Refunded(h)]
         case Unbilled => false
       }
  }

  lemma LedgerMoves(c: Config, s: Sys, i: nat, a: Action)
    requires Enabled(c, s, i, a) && ReservationMatches(s, i)
    ensures LedgerDelta(s, ActStep(c, s, i, a), i, NextRequest(c, s, i, a))
  {
    BillingMoves(c, s, i, a);
  }

  lemma DeltaKeepsLedger(s: Sys, t: Sys, i: nat, r: Request)
    requires i < |s.reqs| && LedgerMatches(s) && LedgerDelta(s, t, i, r)
    ensures LedgerMatches(t)
  {
    forall j: nat | j < |t.reqs| ensures ReservationMatches(t, j) {
      assert ReservationMatches(s, j);
    }
    forall k <- t.ledger.journal ensures ClosingMatches(t, k) {
      assert ReservationMatches(s, i);
      if k in s.ledger.journal { assert ClosingMatches(s, k); }
    }
  }

  // What the ledger does for request i is what the request expects.
  lemma ActKeepsLedger(c: Config, s: Sys, i: nat, a: Action)
    requires Enabled(c, s, i, a) && LedgerMatches(s)
    ensures LedgerMatches(ActStep(c, s, i, a))
  {
    assert ReservationMatches(s, i);
    LedgerMoves(c, s, i, a);
    DeltaKeepsLedger(s, ActStep(c, s, i, a), i, NextRequest(c, s, i, a));
  }

  // ---- metrics and money -------------------------------------------------

  // The in-flight gauge never exceeds the requests in flight, and counts them unless one
  // was reported twice.
  ghost predicate GaugeMatches(s: Sys) {
    && 0 <= s.metrics.inFlight <= Count(s.reqs, InFlight)
    && (!s.reportedTwice ==> s.metrics.inFlight == Count(s.reqs, InFlight))
  }

  predicate IsHit(r: Request) {
    match r.phase
    case Leaving(_, Some(reply)) => reply.cached
    case Done(_, Some(reply)) => reply.cached
    case _ => false
  }

  ghost predicate Balances(s: Sys, q: Measure) {
    Told(q, s.metrics) + Sum(s.reqs, Untold(q)) == Sum(s.ledger.records, Recorded(q))
  }

  // Every settled dollar and token is in the metrics, or about to be reported; there is one
  // record for each charged request; and every cached answer was counted as a hit.
  ghost predicate MoneyMatches(s: Sys) {
    && (forall q: Measure :: Balances(s, q))
    && |s.ledger.records| == Count(s.reqs, IsCharged)
    && s.metrics.hits == Count(s.reqs, IsHit)
  }

  lemma FlightMoves(c: Config, s: Sys, i: nat, a: Action)
    requires Enabled(c, s, i, a)
    ensures var r, t := s.reqs[i], NextRequest(c, s, i, a);
            match a
            case Begin => !InFlight(r) && InFlight(t)
            case Report => !InFlight(t) && (InFlight(r) <==> r.phase != Released(true))
            case _ => InFlight(t) <==> InFlight(r)
  {
  }

  lemma ActKeepsGauge(c: Config, s: Sys, i: nat, a: Action)
    requires Enabled(c, s, i, a) && GaugeMatches(s)
    ensures GaugeMatches(ActStep(c, s, i, a))
    ensures a.Report? && !ActStep(c, s, i, a).reportedTwice ==> s.metrics.inFlight >= 1
  {
    FlightMoves(c, s, i, a);
    CountUpdate(s.reqs, i, NextRequest(c, s, i, a), InFlight);
  }

  // A settle adds a record of what the request then has untold; nothing else does, and what
  // a report tells the metrics is what the request had untold.
  ghost predicate MoneyDelta(s: Sys, t: Sys, i: nat, r: Request, q: Measure) {
    && i < |s.reqs| && t.reqs == s.reqs[i := r]
    && if IsCharged(r) && !IsCharged(s.reqs[i])
       then && Untold(q)(s.reqs[i]) == 0.0 && Told(q, t.metrics) == Told(q, s.metrics)
            && exists x :: t.ledger.records == s.ledger.records + [x] && Recorded(q)(x) == Untold(q)(r)
       else && IsCharged(r) == IsCharged(s.reqs[i]) && t.ledger.records == s.ledger.records
            && Told(q, t.metrics) == Told(q, s.metrics) + Untold(q)(s.reqs[i]) - Untold(q)(r)
  }

  lemma SettleMovesMoney(c: Config, s: Sys, i: nat, q: Measure)
    requires Enabled(c, s, i, Settle) && ReservationMatches(s, i)
    ensures MoneyDelta(s, ActStep(c, s, i, Settle), i, NextRequest(c, s, i, Settle), q)
  {
    BillingMoves(c, s, i, Settle);
  }

  lemma ReportMovesMoney(c: Config, s: Sys, i: nat, q: Measure)
    requires Enabled(c, s, i, Report)
    ensures MoneyDelta(s, ActStep(c, s, i, Report), i, NextRequest(c, s, i, Report), q)
  {
  }

  lemma OthersSettleNothing(c: Config, s: Sys, i: nat, a: Action, q: Measure)
    requires Enabled(c, s, i, a) && !a.Settle? && !a.Report?
    ensures var r, t := s.reqs[i], NextRequest(c, s, i, a);
            Untold(q)(t) == Untold(q)(r) && IsCharged(t) == IsCharged(r)
  {
  }

  lemma OthersTellNothing(c: Config, s: Sys, i: nat, a: Action, q: Measure)
    requires Enabled(c, s, i, a) && !a.Settle? && !a.Report?
    ensures var t := ActStep(c, s, i, a);
            t.ledger.records == s.ledger.records && Told(q, t.metrics) == Told(q, s.metrics)
  {
  }

  lemma MoneyMoves(c: Config, s: Sys, i: nat, a: Action, q: Measure)
    requires Enabled(c, s, i, a) && ReservationMatches(s, i)
    ensures MoneyDelta(s, ActStep(c, s, i, a), i, NextRequest(c, s, i, a), q)
  {
    match a {
      case Settle => SettleMovesMoney(c, s, i, q);
      case Report => ReportMovesMoney(c, s, i, q);
      case _ =>
        OthersSettleNothing(c, s, i, a, q);
        OthersTellNothing(c, s, i, a, q);
    }
  }

  lemma DeltaKeepsBalance(s: Sys, t: Sys, i: nat, r: Request, q: Measure)
    requires Balances(s, q) && MoneyDelta(s, t, i, r, q)
    ensures Balances(t, q)
    ensures |t.ledger.records| - |s.ledger.records| == Count(t.reqs, IsCharged) - Count(s.reqs, IsCharged)
  {
    SumUpdate(s.reqs, i, r, Untold(q));
    CountUpdate(s.reqs, i, r, IsCharged);
    if IsCharged(r) && !IsCharged(s.reqs[i]) {
      var x :| t.ledger.records == s.ledger.records + [x] && Recorded(q)(x) == Untold(q)(r);
      SumAppend(s.ledger.records, x, Recorded(q));
    }
  }

  lemma HitMoves(c: Config, s: Sys, i: nat, a: Action)
    requires Enabled(c, s, i, a)
    ensures var r, t := s.reqs[i], NextRequest(c, s, i, a);
            ActStep(c, s, i, a).metrics.hits == s.metrics.hits + (if IsHit(t) then 1 else 0) - if IsHit(r) then 1 else 0
  {
  }

  lemma ActKeepsMoney(c: Config, s: Sys, i: nat, a: Action)
    requires Enabled(c, s, i, a) && LedgerMatches(s) && MoneyMatches(s)
    ensures MoneyMatches(ActStep(c, s, i, a))
  {
    var t, r := ActStep(c, s, i, a), NextRequest(c, s, i, a);
    assert ReservationMatches(s, i);
    forall q: Measure
      ensures Balances(t, q)
      ensures |t.ledger.records| - |s.ledger.records| == Count(t.reqs, IsCharged) - Count(s.reqs, IsCharged)
    {
      MoneyMoves(c, s, i, a, q);
      DeltaKeepsBalance(s, t, i, r, q);
    }
    assert Balances(t, Dollars);
    HitMoves(c, s, i, a);
    CountUpdate(s.reqs, i, r, IsHit);
  }

  // ---- prices ------------------------------------------------------------

  // Requests run on the model routing answered, at the projected price, within budget and
  // context.
  ghost predicate RequestPriced(c: Config, r: Request) {
    && R.Route(c.catalog, r.query, {}).Routed?
    && R.Route(c.catalog, r.query, {}).model == r.model && R.Route(c.catalog, r.query, {}).cost == r.cost
    && r.model in c.catalog && r.cost == R.Projected(r.model, r.query) <= r.query.budget
    && R.FitsContext(r.model, r.query)
    && match r.phase
       case Generated(m, _, _) => m in c.catalog
       case Settled(m, _, _) => m in c.catalog
       case Storing(m, _, _) => m in c.catalog
       case _ => true
  }

  // And whatever served a request is a catalog model.
  ghost predicate Priced(c: Config, s: Sys) {
    && (forall i :: 0 <= i < |s.reqs| ==> RequestPriced(c, s.reqs[i]))
    && (forall i <- s.served :: s.served[i].model in c.catalog)
  }

  lemma ActKeepsRequestPriced(c: Config, s: Sys, i: nat, a: Action)
    requires Enabled(c, s, i, a) && RequestPriced(c, s.reqs[i])
    ensures RequestPriced(c, NextRequest(c, s, i, a))
    ensures ServiceBy(c, s, i, a).Some? ==> ServiceBy(c, s, i, a).value.model in c.catalog
  {
    if a.Generate? {
      var r := s.reqs[i];
      F.ChainNeverRepeats(c.catalog, r.query, c.fallback, r.model, a.trace);
      assert a.trace[|a.trace| - 1].model in c.catalog;
    }
  }

  lemma ActKeepsPriced(c: Config, s: Sys, i: nat, a: Action)
    requires Enabled(c, s, i, a) && Priced(c, s)
    ensures Priced(c, ActStep(c, s, i, a))
  {
    ActKeepsRequestPriced(c, s, i, a);
  }

  // ---- capacity ----------------------------------------------------------

  // Between ticks the gate is sized for the current replicas.
  predicate CapacityMatches(c: Config, s: Sys) {
    !s.resizing ==> s.gate.capacity == A.CapacityFor(s.scaler.current, c.scaling.target)
  }
}
