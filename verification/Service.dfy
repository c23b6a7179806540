/**
 The service object.  Each method is the code a request, a stream, a detached task or the
 autoscaler loop runs between two suspension points, on the component objects themselves.
 */
module Service {
  import opened ServiceModel
  import opened ServiceInvariants
  import opened ServiceTheorems
  import opened LedgerMemory
  import opened CapacityGate
  import opened InMemoryCache
  import L = LedgerModel
  import C = CacheModel
  import A = Autoscaler
  import M = Metrics
  import R = Router
  import F = Failover

  class InferenceService {
    const config: Config
    const ledger: Ledger
    const gate: CapacityGate
    const metrics: M.Metrics
    const cache: InMemoryCache
    const scaler: A.Autoscaler
    var now: real
    var reqs: seq<Request>
    var reservations: map<nat, Reservation>
    var resizing: bool
    ghost var generated: set<Generation>
    ghost var streams: map<nat, Transcript>
    ghost var served: map<nat, Service>
    ghost var reportedTwice: bool

    ghost function View(): Sys
      reads this, ledger, ledger.issued.Values, gate, metrics, cache, scaler
    {
      Sys(now, ledger.View(), gate.View(), metrics.View(), cache.items, scaler.View(), resizing, reqs,
          generated, streams, served, reportedTwice)
    }

    ghost predicate Valid()
      reads this, ledger, ledger.issued.Values, gate, metrics, cache, scaler
    {
      && ledger.Valid() && gate.Valid() && reservations == ledger.issued
      && ledger.window == config.window && cache.maxEntries == CacheLimit(config) && scaler.config == config.scaling
    }

    constructor (config: Config)
      ensures Valid() && View() == Start(config) && this.config == config
    {
      this.config := config;
      ledger := new Ledger(config.window);
      gate := new CapacityGate(A.CapacityFor(config.scaling.minReplicas, config.scaling.target));
      metrics := new M.Metrics();
      cache := new InMemoryCache(config.cacheMax);
      scaler := new A.Autoscaler(config.scaling);
      now, reqs, reservations, resizing := 0.0, [], map[], false;
      generated, streams, served, reportedTwice := {}, map[], map[], false;
    }

    method ReadClock(reading: real)
      requires Valid() && reading >= now
      modifies this`now
      ensures Valid() && View() == Step(config, old(View()), Advance(reading))
    {
      now := reading;
    }

    // ---- admission ----

    method Arrive(user: L.User, prompt: string, query: R.Query, streamed: bool)
      requires Valid()
      modifies this`reqs
      ensures Valid() && View() == Step(config, old(View()), Event.Arrive(user, prompt, query, streamed))
    {
      var route := R.RouteRequest(config.catalog, query, {});
      if route.Routed? {
        reqs := reqs + [Request(user, prompt, query, streamed, route.model, route.cost, 0.0, Phase.Routed)];
      }
    }

    // The cached answer for the routed model, if there is one.
    method FindAnswer(i: nat) returns (hit: C.Option<C.Entry>)
      requires Valid() && i < |reqs|
      modifies cache, metrics
      ensures Valid() && hit == LookupReply(config, old(View()), reqs[i])
      ensures View() == old(View()).(cache := LookedUp(config, old(View()), reqs[i]),
                                     metrics := if hit.Some? then M.Hit(old(metrics.View())) else old(metrics.View()))
    {
      hit := C.None;
      if config.caching {
        hit := cache.Get(KeyFor(reqs[i], reqs[i].model.name), now);
      }
      if hit.Some? {
        metrics.CacheHit();
      }
    }

    method LookupCache(i: nat)
      requires Valid() && i < |reqs| && reqs[i].phase.Routed?
      modifies this`reqs, this`streams, cache, metrics
      ensures Valid() && View() == ActStep(config, old(View()), i, Lookup)
    {
      LookupOutcome(config, View(), i);
      var hit := FindAnswer(i);
      if hit.Some? && reqs[i].streamed {
        streams := streams[i := Transcript([], ReplayDeltas(hit.value.text))];
      }
      SetPhase(i, if hit.Some? then Done(Unbilled, C.Some(CachedReply(hit.value))) else Missed);
    }

    method SetPhase(i: nat, p: Phase)
      requires i < |reqs|
      modifies this`reqs
      ensures reqs == old(reqs)[i := old(reqs)[i].(phase := p)]
    {
      reqs := reqs[i := reqs[i].(phase := p)];
    }

    // The reservation object stays with the request.
    method TakeHold(i: nat, limit: real) returns (granted: bool)
      requires Valid() && i < |reqs| && L.Legal(ledger.View(), ReserveOp(View(), i, limit))
      modifies this`reservations, ledger
      ensures Valid() && granted == L.Reply(old(ledger.View()), ReserveOp(old(View()), i, limit), config.window).granted
      ensures View() == old(View()).(ledger := L.Step(old(ledger.View()), ReserveOp(old(View()), i, limit),
                                                      config.window, false))
    {
      var result := ledger.Reserve(reqs[i].user, reqs[i].cost, limit, i, now);
      granted := result.Granted?;
      if granted {
        reservations := reservations[i := result.reservation];
      }
    }

    method Reserve(i: nat, limit: real)
      requires Valid() && i < |reqs| && reqs[i].phase.Missed? && L.Legal(ledger.View(), ReserveOp(View(), i, limit))
      modifies this`reqs, this`reservations, ledger
      ensures Valid() && View() == ActStep(config, old(View()), i, Action.Reserve(limit))
    {
      ghost var before := View();
      var granted := TakeHold(i, limit);
      reqs := reqs[i := reqs[i].(phase := if granted then Held else Done(Unbilled, C.None), heldAt := now)];
      assert View() == before.(ledger := ledger.View(), reqs := reqs);
      ReserveOutcome(config, before, i, limit);
    }

    method Acquire(i: nat)
      requires Valid() && i < |reqs| && reqs[i].phase.Held? && !gate.View().IsWaiting(i)
      modifies this`reqs, gate
      ensures Valid() && View() == ActStep(config, old(View()), i, EnterGate)
    {
      var admitted := gate.Enter(i);
      SetPhase(i, if admitted then Admitted else Queued);
    }

    method Woken(i: nat)
      requires Valid() && i < |reqs| && reqs[i].phase.Queued? && i in gate.notified
      modifies this`reqs, gate
      ensures Valid() && View() == ActStep(config, old(View()), i, Wake)
    {
      var admitted := gate.Resume(i);
      SetPhase(i, if admitted then Admitted else Queued);
    }

    method TimedOut(i: nat)
      requires Valid() && i < |reqs| && reqs[i].phase.Queued? && config.shedding && gate.View().IsWaiting(i)
      modifies this`reqs, gate
      ensures Valid() && View() == ActStep(config, old(View()), i, GiveUp)
    {
      gate.Timeout(i);
      SetPhase(i, Expired);
    }

    method BeginService(i: nat)
      requires Valid() && i < |reqs| && reqs[i].phase.Admitted?
      modifies this`reqs, metrics
      ensures Valid() && View() == ActStep(config, old(View()), i, Begin)
    {
      metrics.RequestStarted();
      SetPhase(i, if reqs[i].streamed then Streaming([], C.None) else Generating);
    }

    // ---- generation ----

    // `world` is what the attempts meet.
    method GenerateBuffered(i: nat, world: nat -> F.Reply) returns (ghost trace: seq<F.Attempt>)
      requires Valid() && i < |reqs| && reqs[i].phase.Generating? && reqs[i].model in config.catalog
      modifies this`reqs, this`generated, this`served
      ensures Valid() && Enabled(config, old(View()), i, Generate(trace))
      ensures View() == ActStep(config, old(View()), i, Generate(trace))
    {
      var r := reqs[i];
      var result, attempts, _ := F.GenerateWithFailover(config.catalog, r.query, config.fallback, r.model, world);
      trace := attempts;
      TakeResult(i, trace, result);
    }

    method TakeResult(i: nat, ghost trace: seq<F.Attempt>, result: F.Result)
      requires Valid() && i < |reqs| && reqs[i].phase.Generating? && trace != []
      requires F.Chain(config.catalog, reqs[i].query, config.fallback, reqs[i].model, trace)
      requires F.Concluded(config.catalog, reqs[i].query, config.fallback, trace, result)
      modifies this`reqs, this`generated, this`served
      ensures Valid() && Enabled(config, old(View()), i, Generate(trace))
      ensures View() == ActStep(config, old(View()), i, Generate(trace))
    {
      GenerateOutcome(config, View(), i, trace, result);
      generated := generated + CompletedBy(config, old(View()), i, Generate(trace));
      served := ServedAfter(config, old(View()), i, Generate(trace));
      SetPhase(i, match result
                  case Served(m, text, inputTokens, outputTokens) =>
                    Generated(m, text, Usage(inputTokens, outputTokens))
                  case Raised(_) => Failed(false));
    }

    method DeliverChunk(i: nat, chunk: Chunk)
      requires Valid() && i < |reqs| && reqs[i].phase.Streaming?
      modifies this`reqs, this`streams
      ensures Valid() && View() == ActStep(config, old(View()), i, Deliver(chunk))
    {
      var p := reqs[i].phase;
      streams := StreamsAfter(config, View(), i, Deliver(chunk));
      var reported, pieces := p.reported, p.pieces;
      if chunk.usage.Some? {
        reported := chunk.usage;
      }
      if chunk.text != "" {
        pieces := pieces + [chunk.text];
      }
      SetPhase(i, Streaming(pieces, reported));
    }

    method StreamFinished(i: nat)
      requires Valid() && i < |reqs| && reqs[i].phase.Streaming?
      modifies this`reqs, this`generated
      ensures Valid() && View() == ActStep(config, old(View()), i, EndStream)
    {
      var r := reqs[i];
      generated := generated + CompletedBy(config, View(), i, EndStream);
      SetPhase(i, StreamEnded(r.phase.pieces, r.phase.reported));
    }

    method StreamFaulted(i: nat)
      requires Valid() && i < |reqs| && reqs[i].phase.Streaming?
      modifies this`reqs
      ensures Valid() && View() == ActStep(config, old(View()), i, BreakStream)
    {
      SetPhase(i, StreamBroken(reqs[i].phase.pieces, reqs[i].phase.reported));
    }

    // The finalizer, wherever the stream was closed.
    method FinalizeStream(i: nat)
      requires Valid() && i < |reqs|
      requires reqs[i].phase.Streaming? || reqs[i].phase.StreamEnded? || reqs[i].phase.StreamBroken?
      modifies this`reqs, this`served
      ensures Valid() && View() == ActStep(config, old(View()), i, Close)
    {
      var r := reqs[i];
      served := ServedAfter(config, View(), i, Close);
      var text: C.Option<string> := C.None;
      if r.phase.StreamEnded? {
        text := C.Some(Join(r.phase.pieces));
      }
      SetPhase(i, Detached(FinalUsage(config, r, r.phase.pieces, r.phase.reported), text));
    }

    // ---- billing and leaving ----

    ghost predicate HasReservation(i: nat)
      requires i < |reqs|
      reads this, ledger, ledger.issued.Values
    {
      i in ledger.issued && ledger.issued[i].Value() == HoldOf(reqs[i], i)
    }

    method SettleGenerated(i: nat)
      requires Valid() && i < |reqs| && reqs[i].phase.Generated? && HasReservation(i)
      modifies this`reqs, ledger, ledger.issued.Values
      ensures Valid() && View() == ActStep(config, old(View()), i, Settle)
    {
      SettleOutcome(config, View(), i);
      var p := reqs[i].phase;
      ChargeHold(i, p.model, p.usage);
      SetPhase(i, Settled(p.model, p.text, p.usage));
    }

    method SettleDetached(i: nat)
      requires Valid() && i < |reqs| && reqs[i].phase.Detached? && HasReservation(i)
      modifies this`reqs, ledger, ledger.issued.Values
      ensures Valid() && View() == ActStep(config, old(View()), i, Settle)
    {
      SettleOutcome(config, View(), i);
      var p := reqs[i].phase;
      ChargeHold(i, reqs[i].model, p.usage);
      SetPhase(i, DetachedSettled(p.usage, p.full));
    }

    method ChargeHold(i: nat, m: R.Model, u: Usage)
      requires Valid() && i < |reqs| && HasReservation(i)
      modifies ledger, ledger.issued.Values
      ensures Valid()
      ensures View() == old(View()).(ledger := Charge(config, old(View()), i, m, u))
    {
      ledger.Settle(reservations[i], Price(m, u), m.name, u.inputTokens, u.outputTokens, now);
    }

    method ReleaseHold(i: nat)
      requires Valid() && i < |reqs| && (reqs[i].phase.Expired? || reqs[i].phase.Failed?) && HasReservation(i)
      modifies this`reqs, ledger, ledger.issued.Values
      ensures Valid() && View() == ActStep(config, old(View()), i, Release)
    {
      var p := reqs[i].phase;
      ledger.Release(reservations[i], now);
      SetPhase(i, if p.Expired? then Done(Refunded, C.None) else Released(p.settled));
    }

    method ReportSettled(i: nat)
      requires Valid() && i < |reqs| && reqs[i].phase.Settled?
      modifies this`reqs, metrics
      ensures Valid() && View() == ActStep(config, old(View()), i, Report)
    {
      var p := reqs[i].phase;
      metrics.RequestFinished(p.usage.inputTokens, p.usage.outputTokens, Price(p.model, p.usage));
      SetPhase(i, Storing(p.model, p.text, p.usage));
    }

    // The exception handler reports too, even a request that was already reported.
    method ReportFailed(i: nat)
      requires Valid() && i < |reqs| && reqs[i].phase.Released?
      modifies this`reqs, this`reportedTwice, metrics
      ensures Valid() && View() == ActStep(config, old(View()), i, Report)
    {
      FailedReportOutcome(config, View(), i);
      var settled := reqs[i].phase.settled;
      metrics.RequestFinished(0, 0, 0.0);
      reportedTwice := reportedTwice || settled;
      SetPhase(i, Leaving(if settled then Charged else Refunded, C.None));
    }

    method ReportDetached(i: nat)
      requires Valid() && i < |reqs| && reqs[i].phase.DetachedStored?
      modifies this`reqs, metrics
      ensures Valid() && View() == ActStep(config, old(View()), i, Report)
    {
      var u := reqs[i].phase.usage;
      metrics.RequestFinished(u.inputTokens, u.outputTokens, Price(reqs[i].model, u));
      SetPhase(i, Leaving(Charged, C.None));
    }

    // Files a complete text under the model that served it.
    method FileAnswer(r: Request, m: R.Model, text: string, u: Usage)
      requires Valid()
      modifies cache`items
      ensures Valid() && View() == old(View()).(cache := Filed(config, old(View()), r, m, text, u))
    {
      if config.caching {
        cache.Set(KeyFor(r, m.name), EntryFor(m, text, u), config.cacheTtl, now);
      }
    }

    // `raises` says whether the cache raised instead of storing.
    method StoreAnswer(i: nat, raises: bool)
      requires Valid() && i < |reqs| && reqs[i].phase.Storing?
      modifies this`reqs, cache`items
      ensures Valid() && View() == ActStep(config, old(View()), i, Store(raises))
    {
      var r := reqs[i];
      var p := r.phase;
      if raises {
        SetPhase(i, Failed(true));
      } else {
        FileAnswer(r, p.model, p.text, p.usage);
        SetPhase(i, Leaving(Charged, C.Some(Reply(p.text, p.model.name, p.usage, false))));
      }
    }

    // The detached task only logs a raising cache.
    method StoreStreamed(i: nat, raises: bool)
      requires Valid() && i < |reqs| && reqs[i].phase.DetachedSettled?
      modifies this`reqs, cache`items
      ensures Valid() && View() == ActStep(config, old(View()), i, Store(raises))
    {
      StreamedStoreOutcome(config, View(), i, raises);
      var r := reqs[i];
      if !raises && r.phase.full.Some? {
        FileAnswer(r, r.model, r.phase.full.value, r.phase.usage);
      }
      SetPhase(i, DetachedStored(r.phase.usage));
    }

    method LeaveGate(i: nat)
      requires Valid() && i < |reqs| && reqs[i].phase.Leaving?
      modifies this`reqs, gate
      ensures Valid() && View() == ActStep(config, old(View()), i, Leave)
    {
      gate.Release();
      SetPhase(i, Done(reqs[i].phase.billing, reqs[i].phase.reply));
    }

    // ---- autoscaling ----

    method SampleAndStep(later: real)
      requires Valid() && !resizing
      modifies this`resizing, scaler
      ensures Valid() && View() == Step(config, old(View()), Tick(later))
    {
      var d := scaler.Step(gate.active + gate.waiting, now, later);
      resizing := d.desired != d.current;
    }

    method ResizeGate()
      requires Valid() && resizing
      modifies this`resizing, gate
      ensures Valid() && View() == Step(config, old(View()), Event.Resize)
    {
      gate.Resize(A.CapacityFor(scaler.current, config.scaling.target));
      resizing := false;
    }
  }

  function Filed(c: Config, s: Sys, r: Request, m: R.Model, text: string, u: Usage): seq<C.Item> {
    if c.caching then C.Step(s.cache, C.Set(s.now, KeyFor(r, m.name), EntryFor(m, text, u), c.cacheTtl), CacheLimit(c))
    else s.cache
  }

  // A complete stream's text is filed unless the cache raises; the request moves on anyway.
  lemma StreamedStoreOutcome(c: Config, s: Sys, i: nat, raises: bool)
    requires i < |s.reqs| && s.reqs[i].phase.DetachedSettled?
    ensures var r := s.reqs[i];
            var p := r.phase;
            ActStep(c, s, i, Store(raises))
            == s.(cache := if !raises && p.full.Some? then Filed(c, s, r, r.model, p.full.value, p.usage) else s.cache,
                  reqs := s.reqs[i := r.(phase := DetachedStored(p.usage))])
  {
  }

  // A failed request is reported at no cost, and a settled one thereby a second time.
  lemma FailedReportOutcome(c: Config, s: Sys, i: nat)
    requires i < |s.reqs| && s.reqs[i].phase.Released?
    ensures var r := s.reqs[i];
            var settled := r.phase.settled;
            ActStep(c, s, i, Report)
            == s.(metrics := M.Finished(s.metrics, 0, 0, 0.0), reportedTwice := s.reportedTwice || settled,
                  reqs := s.reqs[i := r.(phase := Leaving(if settled then Charged else Refunded, C.None))])
  {
  }

  function CachedReply(e: C.Entry): Reply {
    Reply(e.text, e.model, Usage(e.inputTokens, e.outputTokens), true)
  }

  function LookedUp(c: Config, s: Sys, r: Request): seq<C.Item> {
    if c.caching then C.Step(s.cache, C.Get(s.now, KeyFor(r, r.model.name)), CacheLimit(c)) else s.cache
  }

  // A lookup touches the cache, the metrics on a hit, and its own request.
  lemma LookupOutcome(c: Config, s: Sys, i: nat)
    requires i < |s.reqs|
    ensures var r := s.reqs[i];
            var hit := LookupReply(c, s, r);
            var phase := if hit.Some? then Done(Unbilled, C.Some(CachedReply(hit.value)))
                         else Missed;
            ActStep(c, s, i, Lookup)
            == s.(cache := LookedUp(c, s, r), metrics := if hit.Some? then M.Hit(s.metrics) else s.metrics,
                  reqs := s.reqs[i := r.(phase := phase)], streams := StreamsAfter(c, s, i, Lookup))
  {
  }

  // The ledger once request i has been charged for what `m` did.
  function Charge(c: Config, s: Sys, i: nat, m: R.Model, u: Usage): L.State
    requires i < |s.reqs|
  {
    L.Step(s.ledger, L.Settle(s.now, HoldOf(s.reqs[i], i), Price(m, u), m.name, u.inputTokens, u.outputTokens),
           c.window, false)
  }

  // A settle touches the ledger and its own request, nothing else.
  lemma SettleOutcome(c: Config, s: Sys, i: nat)
    requires i < |s.reqs| && (s.reqs[i].phase.Generated? || s.reqs[i].phase.Detached?)
    ensures var r := s.reqs[i];
            var p := r.phase;
            ActStep(c, s, i, Settle)
            == s.(ledger := Charge(c, s, i, if p.Generated? then p.model else r.model, p.usage),
                  reqs := s.reqs[i := r.(phase := if p.Generated? then Settled(p.model, p.text, p.usage)
                                                  else DetachedSettled(p.usage, p.full))])
  {
  }

  // A reservation touches the ledger and its own request, nothing else.
  lemma ReserveOutcome(c: Config, s: Sys, i: nat, limit: real)
    requires i < |s.reqs|
    ensures var op := ReserveOp(s, i, limit);
            ActStep(c, s, i, Action.Reserve(limit))
            == s.(ledger := L.Step(s.ledger, op, c.window, false),
                  reqs := s.reqs[i := s.reqs[i].(heldAt := s.now,
                    phase := if L.Reply(s.ledger, op, c.window).granted then Held else Done(Unbilled, C.None))])
  {
  }

  // What a finished failover chain does to the request.
  lemma GenerateOutcome(c: Config, s: Sys, i: nat, trace: seq<F.Attempt>, result: F.Result)
    requires i < |s.reqs| && s.reqs[i].phase.Generating? && trace != []
    requires F.Chain(c.catalog, s.reqs[i].query, c.fallback, s.reqs[i].model, trace)
    requires F.Concluded(c.catalog, s.reqs[i].query, c.fallback, trace, result)
    ensures Enabled(c, s, i, Generate(trace))
    ensures var phase := match result
                         case Served(m, text, inputTokens, outputTokens) =>
                           Generated(m, text, Usage(inputTokens, outputTokens))
                         case Raised(_) => Failed(false);
            ActStep(c, s, i, Generate(trace)) == s.(reqs := s.reqs[i := s.reqs[i].(phase := phase)],
                                                    generated := s.generated + CompletedBy(c, s, i, Generate(trace)),
                                                    served := ServedAfter(c, s, i, Generate(trace)))
    ensures ServiceBy(c, s, i, Generate(trace))
         == if result.Served?
            then C.Some(Service(result.model, Usage(result.inputTokens, result.outputTokens), result.text)) else C.None
    ensures CompletedBy(c, s, i, Generate(trace))
         == if result.Served?
            then {Generation(result.model.name, s.reqs[i].prompt, s.reqs[i].query.outputTokens, result.text,
                             Usage(result.inputTokens, result.outputTokens))}
            else {}
  {
  }

  // What the methods ask for beyond the phase always holds in a run.
  lemma RunGivesPreconditions(c: Config, s: Sys, i: nat, a: Action)
    requires Inv(c, s) && Enabled(c, s, i, a)
    ensures a.Reserve? ==> L.Legal(s.ledger, ReserveOp(s, i, a.limit))
    ensures a.EnterGate? ==> !s.gate.IsWaiting(i)
    ensures a.GiveUp? ==> s.gate.IsWaiting(i)
    ensures a.Generate? ==> s.reqs[i].model in c.catalog
    ensures a.Settle? || a.Release? ==> HoldOf(s.reqs[i], i) in s.ledger.grants
    ensures s.gate.active >= 0
  {
    assert s.gate.Queue()[i] == if Waits(s, i) then 1 else 0;
    assert s.gate.IsWaiting(i) <==> i in s.gate.Queue();
    assert ReservationMatches(s, i) && RequestPriced(c, s.reqs[i]);
    BillingMoves(c, s, i, a);
    if a.Reserve? { OpIsLegal(c, s, i, a); }
  }
}
