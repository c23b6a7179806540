/**
 Money, user by user and request by request: every charge is the bill of what served its
 request, and how each way out is billed.
 */
module ServiceBilling {
  import opened ServiceAnswers
  import opened ServiceHistory
  import opened ServiceInvariants
  import opened ServiceModel
  import opened ServiceTheorems
  import opened Sums
  import L = LedgerModel
  import LB = LedgerBounds
  import LM = LedgerMemory
  import C = CacheModel
  import R = Router

  // ---- money, user by user -----------------------------------------------

  // Sum of the per-user summary over a list of users.
  function SummaryTotal(records: seq<L.UsageRecord>, users: seq<L.User>): real {
    if users == [] then 0.0
    else SummaryTotal(records, users[1..]) + LM.UserTotal(records, users[0])
  }

  lemma {:induction false} SummaryStep(records: seq<L.UsageRecord>, r: L.UsageRecord, users: seq<L.User>)
    requires forall i, j :: 0 <= i < j < |users| ==> users[i] != users[j]
    ensures SummaryTotal(records + [r], users) == SummaryTotal(records, users) + if r.user in users then r.cost else 0.0
  {
    if users != [] {
      SummaryStep(records, r, users[1..]);
      assert (records + [r])[..|records|] == records;
      assert users == [users[0]] + users[1..];
    }
  }

  lemma {:induction false} SummaryAddsUp(records: seq<L.UsageRecord>, users: seq<L.User>)
    requires forall i, j :: 0 <= i < j < |users| ==> users[i] != users[j]
    requires forall r <- records :: r.user in users
    ensures SummaryTotal(records, users) == Sum(records, Recorded(Dollars))
  {
    if records == [] {
      EmptySummary(users);
    } else {
      var n := |records| - 1;
      assert records == records[..n] + [records[n]];
      assert records[n] in records;
      SummaryAddsUp(records[..n], users);
      SummaryStep(records[..n], records[n], users);
    }
  }

  lemma {:induction false} EmptySummary(users: seq<L.User>)
    ensures SummaryTotal([], users) == 0.0
  {
    if users != [] { EmptySummary(users[1..]); }
  }

  // ---- bills, request by request -----------------------------------------

  // The record names the user and the serving model, and carries the tokens it reported and,
  // for every thousand in and out, its prices.
  ghost predicate IsBill(record: L.UsageRecord, u: L.User, service: Service) {
    && record.user == u && record.model == service.model.name
    && record.inputTokens == service.usage.inputTokens && record.outputTokens == service.usage.outputTokens
    && 1000.0 * record.cost == record.inputTokens as real * service.model.inputPrice
                               + record.outputTokens as real * service.model.outputPrice
  }

  // Closing k is the one closing of request i: a charge of its hold for the bill of what
  // served it, whose usage record stands at that charge's place among the records.
  ghost predicate BilledOnce(s: Sys, i: nat, k: nat)
    requires i < |s.reqs|
  {
    var journal, records := s.ledger.journal, s.ledger.records;
    && i in s.served && k < |journal| && journal[k].Charged?
    && journal[k].hold == HoldOf(s.reqs[i], i)
    && IsBill(journal[k].record, s.reqs[i].user, s.served[i])
    && (forall j :: 0 <= j < |journal| && j != k ==> journal[j].hold.id != i)
    && |LB.Recorded(journal[..k])| < |records|
    && records[|LB.Recorded(journal[..k])|] == journal[k].record
  }

  // Every charged request was charged once, for the tokens reported by the model that served
  // it at that model's price, with one usage record saying so.
  lemma ChargedIsBilledOnce(c: Config, events: seq<Event>, i: nat) returns (k: nat)
    requires i < |Run(c, events).reqs| && IsCharged(Run(c, events).reqs[i])
    ensures BilledOnce(Run(c, events), i, k)
  {
    RunKeepsInv(c, events);
    ServiceRunsLedger(c, events);
    LB.EveryReservationClosedOnce(LedgerOps(c, events), c.window, false);
    LB.RecordsAreCharges(LedgerOps(c, events), c.window, false);
    k := ChargeOf(c, Run(c, events), i);
  }

  lemma BillIsBill(u: L.User, service: Service, at: real)
    ensures IsBill(Bill(u, service, at), u, service)
  {
    R.CostIsPerThousand(service.model, service.usage.inputTokens, service.usage.outputTokens);
  }

  lemma ChargeOf(c: Config, s: Sys, i: nat) returns (k: nat)
    requires LedgerMatches(s) && BillsMatch(s) && LB.ClosedOnce(s.ledger) && LB.RecordsMatch(s.ledger)
    requires i < |s.reqs| && IsCharged(s.reqs[i])
    ensures BilledOnce(s, i, k)
  {
    assert ReservationMatches(s, i);
    k :| 0 <= k < |s.ledger.journal| && s.ledger.journal[k].hold.id == i;
    var closing := s.ledger.journal[k];
    assert closing in s.ledger.journal;
    assert ClosingMatches(s, closing) && Billed(s, closing);
    BillIsBill(s.reqs[i].user, s.served[i], closing.record.at);
    LB.RecordedAt(s.ledger.journal, k);
  }

  // At quiescence the per-user summary adds up to the cost in the metrics, and so do the
  // tokens; there is one record for each charged request, and each charged request has its.
  lemma {:induction false} MoneyIsConserved(c: Config, events: seq<Event>, users: seq<L.User>)
    requires Quiescent(Run(c, events))
    requires forall i, j :: 0 <= i < j < |users| ==> users[i] != users[j]
    requires forall r <- Run(c, events).ledger.records :: r.user in users
    ensures var s := Run(c, events);
            && SummaryTotal(s.ledger.records, users) == s.metrics.cost
            && s.metrics.inputTokens as real == Sum(s.ledger.records, Recorded(InputTokens))
            && s.metrics.outputTokens as real == Sum(s.ledger.records, Recorded(OutputTokens))
            && |s.ledger.records| == Count(s.reqs, IsCharged)
            && forall i: nat :: i < |s.reqs| && IsCharged(s.reqs[i]) ==> exists k: nat :: BilledOnce(s, i, k)
  {
    var s := Run(c, events);
    RunKeepsInv(c, events);
    QuiescentIsBalanced(c, events);
    SummaryAddsUp(s.ledger.records, users);
    assert Told(Dollars, s.metrics) == Sum(s.ledger.records, Recorded(Dollars));
    assert Told(InputTokens, s.metrics) == Sum(s.ledger.records, Recorded(InputTokens));
    assert Told(OutputTokens, s.metrics) == Sum(s.ledger.records, Recorded(OutputTokens));
    forall i: nat | i < |s.reqs| && IsCharged(s.reqs[i]) ensures exists k: nat :: BilledOnce(s, i, k) {
      var k := ChargedIsBilledOnce(c, events, i);
    }
  }

  // A request that ended was charged exactly when something served it, and was left unbilled
  // exactly when it never took a reservation.  A cached answer is unbilled; any other answer
  // was charged, and is the text of the service under the serving model's name.
  lemma {:induction false} BillingIsEarned(c: Config, events: seq<Event>, i: nat)
    requires i < |Run(c, events).reqs| && Run(c, events).reqs[i].phase.Done?
    ensures var s := Run(c, events);
            var p := s.reqs[i].phase;
            && (p.billing == Charged <==> i in s.served)
            && (p.billing == Unbilled <==> HoldOf(s.reqs[i], i) !in s.ledger.grants)
            && p.billing != Open
            && (p.reply.Some? && p.reply.value.cached ==> p.billing == Unbilled)
            && (p.reply.Some? && !p.reply.value.cached ==>
                  && p.billing == Charged
                  && s.served[i].model.name == p.reply.value.model && s.served[i].text == p.reply.value.text)
  {
    RunKeepsInv(c, events);
    assert HistoryMatches(c, Run(c, events), i) && ReservationMatches(Run(c, events), i);
  }

  // ---- from the events ---------------------------------------------------

  // Event k of the run did action `a` for request i.
  ghost predicate ActsAt(c: Config, events: seq<Event>, k: nat, i: nat, a: Action) {
    k < |events| && events[k] == Act(i, a) && Enabled(c, Run(c, events[..k]), i, a)
  }

  // What served a request is what some event of the run completed for it.
  lemma {:induction false} ServedByEvent(c: Config, events: seq<Event>, i: nat) returns (k: nat)
    requires i in Run(c, events).served
    ensures k < |events| && events[k].Act? && ActsAt(c, events, k, i, events[k].action)
    ensures ServiceBy(c, Run(c, events[..k]), i, events[k].action) == C.Some(Run(c, events).served[i])
  {
    var n := |events| - 1;
    var s, e := Run(c, events[..n]), events[n];
    if e.Act? && e.i == i && Enabled(c, s, i, e.action) && ServiceBy(c, s, i, e.action).Some? {
      k := n;
    } else {
      k := ServedByEvent(c, events[..n], i);
      assert events[..n][..k] == events[..k];
    }
  }

  lemma StepKeepsServed(c: Config, s: Sys, e: Event)
    requires Inv(c, s)
    ensures ServedGrows(s, Step(c, s, e))
  {
    if e.Act? && Enabled(c, s, e.i, e.action) {
      assert HistoryMatches(c, s, e.i);
      ActKeepsServed(c, s, e.i, e.action);
    }
  }

  lemma {:induction false} ServedStays(c: Config, events: seq<Event>, k: nat)
    requires k <= |events|
    ensures ServedGrows(Run(c, events[..k]), Run(c, events))
  {
    var n := |events| - 1;
    if k <= n {
      ServedStays(c, events[..n], k);
      assert events[..n][..k] == events[..k];
      RunKeepsInv(c, events[..n]);
      StepKeepsServed(c, Run(c, events[..n]), events[n]);
    } else {
      assert events[..k] == events;
    }
  }

  // A generation that returned and a stream that was finalized, however it ended, are charged:
  // once the request has ended, its billing says so.
  lemma {:induction false} CompletedIsCharged(c: Config, events: seq<Event>, k: nat, i: nat, a: Action)
    requires ActsAt(c, events, k, i, a) && ServiceBy(c, Run(c, events[..k]), i, a).Some?
    ensures i in Run(c, events).served
    ensures Run(c, events).served[i] == ServiceBy(c, Run(c, events[..k]), i, a).value
    ensures var s := Run(c, events); i < |s.reqs| && s.reqs[i].phase.Done? ==> s.reqs[i].phase.billing == Charged
  {
    assert events[..k + 1][..k] == events[..k];
    ServedStays(c, events, k + 1);
    RunKeepsInv(c, events);
    ServedIsCharged(c, Run(c, events), i);
  }

  lemma ServedIsCharged(c: Config, s: Sys, i: nat)
    requires Histories(c, s) && i in s.served
    ensures i < |s.reqs| && (s.reqs[i].phase.Done? ==> s.reqs[i].phase.billing == Charged)
  {
    assert HistoryMatches(c, s, i);
  }

  // A request whose wait or generation failed, on its way out without an answer.
  predicate GoesRefunded(r: Request) {
    match r.phase
    case Expired => true
    case Failed(settled) => !settled
    case Released(settled) => !settled
    case Leaving(b, reply) => b == Refunded && reply.None?
    case Done(b, reply) => b == Refunded && reply.None?
    case _ => false
  }

  lemma StepKeepsRefund(c: Config, s: Sys, e: Event, i: nat)
    requires i < |s.reqs| && GoesRefunded(s.reqs[i])
    ensures i < |Step(c, s, e).reqs| && GoesRefunded(Step(c, s, e).reqs[i])
  {
  }

  lemma {:induction false} RefundStays(c: Config, events: seq<Event>, k: nat, i: nat)
    requires k <= |events| && i < |Run(c, events[..k]).reqs| && GoesRefunded(Run(c, events[..k]).reqs[i])
    ensures i < |Run(c, events).reqs| && GoesRefunded(Run(c, events).reqs[i])
  {
    var n := |events| - 1;
    if k <= n {
      assert events[..n][..k] == events[..k];
      RefundStays(c, events[..n], k, i);
      StepKeepsRefund(c, Run(c, events[..n]), events[n], i);
    } else {
      assert events[..k] == events;
    }
  }

  // A request that was shed, or whose generation failed, ends refunded and without an answer.
  lemma {:induction false} ShedOrFailedIsRefunded(c: Config, events: seq<Event>, k: nat, i: nat, a: Action)
    requires ActsAt(c, events, k, i, a)
    requires a.GiveUp? || (a.Generate? && !a.trace[|a.trace| - 1].reply.Completed?)
    ensures i < |Run(c, events).reqs| && GoesRefunded(Run(c, events).reqs[i])
    ensures Run(c, events).reqs[i].phase.Done? ==> Run(c, events).reqs[i].phase == Done(Refunded, C.None)
  {
    assert events[..k + 1][..k] == events[..k];
    RefundStays(c, events, k + 1, i);
  }

  // ---- what is projected, and what a stream comes to ------------------------

  // Every request runs on a model that routing means for it, and what is held for it is that
  // model's price for the projected tokens.
  lemma {:induction false} RequestsAreRouted(c: Config, events: seq<Event>)
    ensures forall r <- Run(c, events).reqs :: R.MeantRoute(c.catalog, r.query, {}, r.model, r.cost)
  {
    RunKeepsInv(c, events);
    forall r <- Run(c, events).reqs ensures R.MeantRoute(c.catalog, r.query, {}, r.model, r.cost) {
      var i :| 0 <= i < |Run(c, events).reqs| && Run(c, events).reqs[i] == r;
      assert RequestPriced(c, r);
      R.RouteMeansModel(c.catalog, r.query, {});
    }
  }

  // n is the number of tokens estimated for a text: the nearest to its length over the setting,
  // the even one of two, and at least one unless the text is empty.
  ghost predicate IsEstimate(n: nat, text: string, charsPerToken: Divisor) {
    if text == "" then n == 0 else
    var x := |text| as real / charsPerToken;
    && n >= 1
    && (n == 1 ==> x < 1.5)
    && (n > 1 ==> x - 0.5 <= n as real <= x + 0.5 && (x - 0.5 == n as real || x + 0.5 == n as real ==> n % 2 == 0))
  }

  lemma EstimateIsNearest(text: string, charsPerToken: Divisor)
    ensures IsEstimate(CountTokens(text, charsPerToken), text, charsPerToken)
  {
  }

  predicate NoneAfter(chunks: seq<Chunk>, j: int) {
    forall k :: 0 <= k < |chunks| && k > j ==> chunks[k].usage.None?
  }

  // The last chunk of a stream that reported a usage reported this one.
  ghost predicate ReportedLast(chunks: seq<Chunk>, u: Usage) {
    exists j :: 0 <= j < |chunks| && chunks[j].usage == C.Some(u) && NoneAfter(chunks, j)
  }

  lemma {:induction false} LastUsageIsLast(chunks: seq<Chunk>)
    ensures match LastUsage(chunks)
            case Some(u) => ReportedLast(chunks, u)
            case None => NoneAfter(chunks, -1)
  {
    if chunks != [] {
      var n := |chunks| - 1;
      LastUsageIsLast(chunks[..n]);
      if chunks[n].usage.Some? { assert NoneAfter(chunks, n); }
      assert LastUsage(chunks[..n]).None? ==> forall k :: 0 <= k < n ==> chunks[..n][k].usage.None?;
      if chunks[n].usage.None? && LastUsage(chunks[..n]).Some? {
        var u := LastUsage(chunks[..n]).value;
        var j :| 0 <= j < n && chunks[..n][j].usage == C.Some(u) && NoneAfter(chunks[..n], j);
        assert chunks[j].usage == C.Some(u);
        assert forall k :: j < k < n ==> chunks[k] == chunks[..n][k];
        assert NoneAfter(chunks, j);
      }
    }
  }

  // A finalized stream was served by the routed model, with the text of the chunks delivered
  // for it and the usage they reported last; if they reported none, the projected input and
  // the estimate for that text.
  lemma {:induction false} StreamIsBilled(c: Config, events: seq<Event>, i: nat)
    requires i < |Run(c, events).reqs| && Run(c, events).reqs[i].streamed && i in Run(c, events).served
    ensures var r, service, chunks := Run(c, events).reqs[i], Run(c, events).served[i], Delivered(c, events, i);
            && service.model == r.model && service.text == Join(Texts(chunks))
            && if exists j :: 0 <= j < |chunks| && chunks[j].usage.Some?
               then ReportedLast(chunks, service.usage)
               else && service.usage.inputTokens == r.query.inputTokens
                    && IsEstimate(service.usage.outputTokens, service.text, c.charsPerToken)
  {
    var s := Run(c, events);
    RunKeepsInv(c, events);
    ChunksAreDelivered(c, events, i);
    LastUsageIsLast(Delivered(c, events, i));
    EstimateIsNearest(Join(Texts(Delivered(c, events, i))), c.charsPerToken);
    assert HistoryMatches(c, s, i);
    StreamedIsFinalized(c, s, i);
  }

  lemma StreamedIsFinalized(c: Config, s: Sys, i: nat)
    requires i < |s.reqs| && HistoryMatches(c, s, i) && s.reqs[i].streamed && i in s.served
    ensures Finalized(c, s, i)
  {
  }

  // ---- the request counter -------------------------------------------------

  // The event starts a request, or answers one from the cache.
  ghost predicate Counts(c: Config, s: Sys, e: Event) {
    && e.Act? && Enabled(c, s, e.i, e.action)
    && (e.action.Begin? || (e.action.Lookup? && Step(c, s, e).reqs[e.i].phase.Done?))
  }

  ghost function Counted(c: Config, events: seq<Event>): nat {
    if events == [] then 0 else
    var n := |events| - 1;
    Counted(c, events[..n]) + if Counts(c, Run(c, events[..n]), events[n]) then 1 else 0
  }

  lemma StepCounts(c: Config, s: Sys, e: Event)
    ensures Step(c, s, e).metrics.requests == s.metrics.requests + if Counts(c, s, e) then 1 else 0
  {
  }

  // The request counter is the number of requests started or answered from the cache.
  lemma {:induction false} RequestsAreCounted(c: Config, events: seq<Event>)
    ensures Run(c, events).metrics.requests == Counted(c, events)
  {
    if events != [] {
      var n := |events| - 1;
      RequestsAreCounted(c, events[..n]);
      StepCounts(c, Run(c, events[..n]), events[n]);
    }
  }

  // ---- shedding --------------------------------------------------------------

  lemma StepShedsNobody(c: Config, s: Sys, e: Event)
    requires !c.shedding && forall r <- s.reqs :: !r.phase.Expired?
    ensures forall r <- Step(c, s, e).reqs :: !r.phase.Expired?
  {
  }

  // Without an admission deadline nobody is shed.
  lemma {:induction false} NobodyShedWithoutDeadline(c: Config, events: seq<Event>)
    requires !c.shedding
    ensures forall r <- Run(c, events).reqs :: !r.phase.Expired?
  {
    if events != [] {
      NobodyShedWithoutDeadline(c, events[..|events| - 1]);
      StepShedsNobody(c, Run(c, events[..|events| - 1]), events[|events| - 1]);
    }
  }
}
