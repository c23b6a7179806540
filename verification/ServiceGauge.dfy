/**
 The in-flight gauge: a bound in every run, the exact condition for it to be right, and a
 run in which it is wrong.
 */
module ServiceGauge {
  import opened ServiceInvariants
  import opened ServiceModel
  import opened ServiceProgress
  import opened ServiceTheorems
  import opened Sums
  import A = Autoscaler
  import F = Failover
  import L = LedgerModel
  import R = Router

  // ---- the in-flight gauge -----------------------------------------------

  // In every run, whatever the cache does, the gauge is never negative and never exceeds the
  // requests in flight.
  lemma {:induction false} GaugeNeverExceeds(c: Config, events: seq<Event>)
    ensures 0 <= Run(c, events).metrics.inFlight <= Count(Run(c, events).reqs, InFlight)
  {
    RunKeepsInv(c, events);
  }

  ghost predicate GaugeExact(s: Sys) {
    s.metrics.inFlight == Count(s.reqs, InFlight)
  }

  // The event reports a request that was already reported, after its cache store raised.
  ghost predicate SecondReport(c: Config, s: Sys, e: Event) {
    && e.Act? && e.action.Report? && Enabled(c, s, e.i, Report)
    && s.reqs[e.i].phase == Released(true)
  }

  // A second report leaves the gauge right if and only if no request is in flight.
  lemma SecondReportSkewsGauge(c: Config, s: Sys, i: nat)
    requires Enabled(c, s, i, Report) && s.reqs[i].phase == Released(true) && GaugeExact(s)
    ensures GaugeExact(ActStep(c, s, i, Report)) <==> Count(s.reqs, InFlight) == 0
  {
    FlightMoves(c, s, i, Report);
    CountUpdate(s.reqs, i, NextRequest(c, s, i, Report), InFlight);
  }

  lemma ActKeepsExactGauge(c: Config, s: Sys, i: nat, a: Action)
    requires Enabled(c, s, i, a) && GaugeExact(s) && !(a.Report? && s.reqs[i].phase == Released(true))
    ensures GaugeExact(ActStep(c, s, i, a))
  {
    FlightMoves(c, s, i, a);
    CountUpdate(s.reqs, i, NextRequest(c, s, i, a), InFlight);
  }

  lemma StepMovesGauge(c: Config, s: Sys, e: Event)
    requires GaugeExact(s)
    ensures GaugeExact(Step(c, s, e)) <==> (SecondReport(c, s, e) ==> Count(s.reqs, InFlight) == 0)
  {
    match e {
      case Arrive(_, _, _, _) =>
        var t := Step(c, s, e);
        if t != s { CountAppend(s.reqs, t.reqs[|s.reqs|], InFlight); }
      case Act(i, a) =>
        if SecondReport(c, s, e) {
          SecondReportSkewsGauge(c, s, i);
        } else if Enabled(c, s, i, a) {
          ActKeepsExactGauge(c, s, i, a);
        }
      case _ =>
    }
  }

  // The gauge is exact after every prefix of the run.
  ghost predicate ExactThroughout(c: Config, events: seq<Event>) {
    GaugeExact(Run(c, events)) && (events != [] ==> ExactThroughout(c, events[..|events| - 1]))
  }

  // Every second report of the run happens with nobody in flight.
  ghost predicate HarmlessReports(c: Config, events: seq<Event>) {
    events != [] ==>
      var n := |events| - 1;
      && HarmlessReports(c, events[..n])
      && (SecondReport(c, Run(c, events[..n]), events[n]) ==> Count(Run(c, events[..n]).reqs, InFlight) == 0)
  }

  // Over whole runs: the gauge is exact throughout if and only if every second report
  // happens with nobody in flight.
  lemma {:induction false} GaugeExactCondition(c: Config, events: seq<Event>)
    ensures ExactThroughout(c, events) <==> HarmlessReports(c, events)
  {
    if events != [] {
      var n := |events| - 1;
      GaugeExactCondition(c, events[..n]);
      if GaugeExact(Run(c, events[..n])) { StepMovesGauge(c, Run(c, events[..n]), events[n]); }
    }
  }

  predicate NeverRaises(events: seq<Event>) {
    forall e <- events :: e.Act? ==> e.action != Store(true)
  }

  ghost predicate NoneRaised(s: Sys) {
    forall r <- s.reqs :: r.phase != Failed(true) && r.phase != Released(true)
  }

  // With a cache that never raises nothing is reported twice, so the gauge is exact
  // throughout.
  lemma {:induction false} GaugeIsExact(c: Config, events: seq<Event>)
    requires NeverRaises(events)
    ensures NoneRaised(Run(c, events)) && ExactThroughout(c, events)
  {
    if events != [] {
      var before, e := events[..|events| - 1], events[|events| - 1];
      assert e in events;
      GaugeIsExact(c, before);
      StepRaisesNothing(c, Run(c, before), e);
      StepMovesGauge(c, Run(c, before), e);
    }
  }

  lemma StepRaisesNothing(c: Config, s: Sys, e: Event)
    requires NoneRaised(s) && (e.Act? ==> e.action != Store(true))
    ensures NoneRaised(Step(c, s, e)) && !SecondReport(c, s, e)
  {
    if e.Act? && Enabled(c, s, e.i, e.action) {
      assert s.reqs[e.i] in s.reqs;
      ActRaisesNothing(c, s, e.i, e.action);
    }
  }

  lemma ActRaisesNothing(c: Config, s: Sys, i: nat, a: Action)
    requires Enabled(c, s, i, a) && a != Store(true)
    requires s.reqs[i].phase != Failed(true) && s.reqs[i].phase != Released(true)
    ensures NextPhase(c, s, i, a) != Failed(true) && NextPhase(c, s, i, a) != Released(true)
  {
  }

  // The gate's `max(0, ...)` never binds in any run; the gauge's does not bind on the first
  // report of a request while the gauge is exact.
  lemma {:induction false} ClampsNeverBind(c: Config, events: seq<Event>, i: nat, a: Action)
    requires Enabled(c, Run(c, events), i, a)
    ensures a.Leave? ==> Run(c, events).gate.active >= 1
    ensures a.Report? && Run(c, events).reqs[i].phase != Released(true) && HarmlessReports(c, events)
            ==> Run(c, events).metrics.inFlight >= 1
  {
    var s := Run(c, events);
    RunKeepsInv(c, events);
    GaugeExactCondition(c, events);
    ActKeepsSlots(c, s, i, a);
    if a.Report? {
      FlightMoves(c, s, i, a);
      CountUpdate(s.reqs, i, s.reqs[i], InFlight);
    }
  }

  // ---- a run in which it is wrong -----------------------------------------

  // Nothing cached, nothing reported twice, and a free slot.
  predicate Early(s: Sys) {
    s.cache == [] && !s.reportedTwice && s.gate.HasRoom()
  }

  // Request i moved on to `p`, and the rest of the requests, the cache and the gate's
  // capacity are as they were.
  ghost predicate MovedTo(s: Sys, t: Sys, i: nat, p: Phase) {
    && i < |s.reqs| == |t.reqs| && t.reqs[i].phase == p && t.reqs[i].model == s.reqs[i].model
    && t.reqs[i].streamed == s.reqs[i].streamed
    && (forall j :: 0 <= j < |s.reqs| && j != i ==> t.reqs[j] == s.reqs[j])
    && t.cache == s.cache && t.gate.capacity == s.gate.capacity && t.reportedTwice == s.reportedTwice
  }

  lemma LookupMisses(c: Config, s: Sys, i: nat)
    requires i < |s.reqs| && s.reqs[i].phase.Routed? && s.cache == []
    ensures var t := Step(c, s, Act(i, Lookup)); MovedTo(s, t, i, Missed) && t.gate == s.gate
  {
  }

  lemma AmpleLimitGrants(c: Config, s: Sys, i: nat) returns (limit: real)
    requires i < |s.reqs| && s.reqs[i].phase.Missed?
    ensures var t := Step(c, s, Act(i, Reserve(limit))); MovedTo(s, t, i, Held) && t.gate == s.gate
  {
    limit := L.WindowSpend(L.Entries(s.ledger, s.reqs[i].user), s.now, c.window) + s.reqs[i].cost;
  }

  lemma EntersAndBegins(c: Config, s: Sys, i: nat)
    requires i < |s.reqs| && s.reqs[i].phase.Held? && s.gate.HasRoom() && !s.reqs[i].streamed
    ensures var t := Step(c, s, Act(i, EnterGate));
            MovedTo(s, t, i, Admitted) && t.gate.active == s.gate.active + 1
            && MovedTo(t, Step(c, t, Act(i, Begin)), i, Generating) && Step(c, t, Act(i, Begin)).gate == t.gate
  {
  }

  // A new buffered request took the place after the others and stands at `p`.
  ghost predicate Joined(s: Sys, t: Sys, p: Phase) {
    && |t.reqs| == |s.reqs| + 1 && t.reqs[..|s.reqs|] == s.reqs
    && t.reqs[|s.reqs|].phase == p && !t.reqs[|s.reqs|].streamed
    && t.cache == s.cache && t.gate.capacity == s.gate.capacity && t.reportedTwice == s.reportedTwice
  }

  lemma ArrivalJoins(c: Config, s: Sys, user: L.User, prompt: string, query: R.Query)
    requires R.Route(c.catalog, query, {}).Routed?
    ensures var t := Step(c, s, Arrive(user, prompt, query, false)); Joined(s, t, Phase.Routed) && t.gate == s.gate
  {
  }

  lemma MoveAfterJoining(s: Sys, t: Sys, u: Sys, p: Phase, p': Phase)
    requires Joined(s, t, p) && MovedTo(t, u, |s.reqs|, p')
    ensures Joined(s, u, p')
  {
  }

  // A new buffered request can be brought to hold its reservation.
  lemma HoldOne(c: Config, events: seq<Event>, user: L.User, prompt: string, query: R.Query) returns (more: seq<Event>)
    requires Early(Run(c, events)) && R.Route(c.catalog, query, {}).Routed?
    ensures Joined(Run(c, events), Run(c, more), Held) && Run(c, more).gate == Run(c, events).gate
  {
    var s, i := Run(c, events), |Run(c, events).reqs|;
    var e1 := events + [Arrive(user, prompt, query, false)];
    OneMore(c, events, Arrive(user, prompt, query, false));
    ArrivalJoins(c, s, user, prompt, query);
    var e2 := e1 + [Act(i, Lookup)];
    OneMore(c, e1, Act(i, Lookup));
    LookupMisses(c, Run(c, e1), i);
    MoveAfterJoining(s, Run(c, e1), Run(c, e2), Phase.Routed, Missed);
    var limit := AmpleLimitGrants(c, Run(c, e2), i);
    more := e2 + [Act(i, Reserve(limit))];
    OneMore(c, e2, Act(i, Reserve(limit)));
    MoveAfterJoining(s, Run(c, e2), Run(c, more), Missed, Held);
  }

  // And on to its generation.
  lemma AdmitOne(c: Config, events: seq<Event>, user: L.User, prompt: string, query: R.Query) returns (more: seq<Event>)
    requires Early(Run(c, events)) && R.Route(c.catalog, query, {}).Routed?
    ensures Joined(Run(c, events), Run(c, more), Generating)
    ensures Run(c, more).gate.active == Run(c, events).gate.active + 1
  {
    var s, i := Run(c, events), |Run(c, events).reqs|;
    var e3 := HoldOne(c, events, user, prompt, query);
    EntersAndBegins(c, Run(c, e3), i);
    var e4 := e3 + [Act(i, EnterGate)];
    OneMore(c, e3, Act(i, EnterGate));
    MoveAfterJoining(s, Run(c, e3), Run(c, e4), Held, Admitted);
    more := e4 + [Act(i, Begin)];
    OneMore(c, e4, Act(i, Begin));
    MoveAfterJoining(s, Run(c, e4), Run(c, more), Admitted, Generating);
  }

  lemma Answers(c: Config, s: Sys, i: nat)
    requires i < |s.reqs| && s.reqs[i].phase.Generating?
    ensures var m := s.reqs[i].model;
            MovedTo(s, Step(c, s, Act(i, Answer(m))), i, Generated(m, "", Usage(0, 0)))
  {
    var m := s.reqs[i].model;
    assert F.Concluded(c.catalog, s.reqs[i].query, c.fallback, Answer(m).trace, F.Served(m, "", 0, 0));
  }

  lemma Settles(c: Config, s: Sys, i: nat)
    requires i < |s.reqs| && s.reqs[i].phase.Generated?
    ensures var p := s.reqs[i].phase;
            MovedTo(s, Step(c, s, Act(i, Settle)), i, Phase.Settled(p.model, p.text, p.usage))
  {
  }

  lemma Reports(c: Config, s: Sys, i: nat)
    requires i < |s.reqs| && s.reqs[i].phase.Settled?
    ensures var p := s.reqs[i].phase;
            MovedTo(s, Step(c, s, Act(i, Report)), i, Storing(p.model, p.text, p.usage))
  {
  }

  lemma StoreRaises(c: Config, s: Sys, i: nat)
    requires i < |s.reqs| && s.reqs[i].phase.Storing? && c.caching
    ensures MovedTo(s, Step(c, s, Act(i, Store(true))), i, Failed(true))
  {
  }

  lemma FailedReleases(c: Config, s: Sys, i: nat)
    requires i < |s.reqs| && s.reqs[i].phase == Failed(true)
    ensures MovedTo(s, Step(c, s, Act(i, Action.Release)), i, Phase.Released(true))
  {
  }

  // From any run with request i generating, one in which it is about to be reported again.
  lemma ReachesSecondReport(c: Config, events: seq<Event>, i: nat) returns (more: seq<Event>)
    requires c.caching && i < |Run(c, events).reqs| && Run(c, events).reqs[i].phase.Generating?
    ensures MovedTo(Run(c, events), Run(c, more), i, Phase.Released(true))
  {
    var s := Run(c, events);
    var e1 := events + [Act(i, Answer(s.reqs[i].model))];
    OneMore(c, events, Act(i, Answer(s.reqs[i].model)));
    Answers(c, s, i);
    var e2 := e1 + [Act(i, Settle)];
    OneMore(c, e1, Act(i, Settle));
    Settles(c, Run(c, e1), i);
    var e3 := e2 + [Act(i, Report)];
    OneMore(c, e2, Act(i, Report));
    Reports(c, Run(c, e2), i);
    StoreRaises(c, Run(c, e3), i);
    var e4 := e3 + [Act(i, Store(true))];
    OneMore(c, e3, Act(i, Store(true)));
    FailedReleases(c, Run(c, e4), i);
    more := e4 + [Act(i, Action.Release)];
    OneMore(c, e4, Act(i, Action.Release));
  }

  // Wherever answers are cached, two requests fit through the gate and some query can be
  // routed, a cache that raises can leave the gauge wrong.
  lemma GaugeCanGoWrong(c: Config, user: L.User, prompt: string, query: R.Query) returns (events: seq<Event>)
    requires c.caching && R.Route(c.catalog, query, {}).Routed?
    requires A.CapacityFor(c.scaling.minReplicas, c.scaling.target) >= 2
    ensures !GaugeExact(Run(c, events))
  {
    var one := AdmitOne(c, [], user, prompt, query);
    var two := AdmitOne(c, one, user, prompt, query);
    assert Run(c, two).reqs[0] == Run(c, one).reqs[0];
    var failed := ReachesSecondReport(c, two, 0);
    OneInFlight(Run(c, failed), 1);
    events := failed + [Act(0, Report)];
    OneMore(c, failed, Act(0, Report));
    RunKeepsInv(c, failed);
    SecondReportSkewsGauge(c, Run(c, failed), 0);
  }

  lemma OneInFlight(s: Sys, i: nat)
    requires i < |s.reqs| && s.reqs[i].phase.Generating?
    ensures Count(s.reqs, InFlight) >= 1
  {
    CountUpdate(s.reqs, i, s.reqs[i], InFlight);
  }
}
