/**
 Generation with failover: try a model, and while the backend is sick re-route with the
 models tried so far excluded.
 */
module Failover {
  import opened Router

  // What one attempt meets.  `Refused` is the breaker's answer; it and a server fault are
  // the only replies that may move the request to another model.
  datatype Reply =
    | Refused
    | ServerFault(detail: string)
    | ClientFault(detail: string)
    | Completed(text: string, inputTokens: nat, outputTokens: nat)
  {
    predicate Sick() {
      Refused? || ServerFault?
    }
  }

  // What a breaker is told; client faults and refusals are not reported.
  datatype Report = ReportSuccess(name: string) | ReportFailure(name: string)

  datatype Attempt = Attempt(model: Model, reply: Reply)

  datatype Result =
    | Served(model: Model, text: string, inputTokens: nat, outputTokens: nat)
    | Raised(last: Reply)

  function Names(trace: seq<Attempt>): set<string> {
    set i | 0 <= i < |trace| :: trace[i].model.name
  }

  function Reports(trace: seq<Attempt>): seq<Report> {
    if trace == [] then [] else
    var before, last := Reports(trace[..|trace| - 1]), trace[|trace| - 1];
    match last.reply
    case Completed(_, _, _) => before + [ReportSuccess(last.model.name)]
    case ServerFault(_) => before + [ReportFailure(last.model.name)]
    case _ => before
  }

  function Unpinned(q: Query): Query {
    q.(force := "")
  }

  // The model the request moves to once the attempts in `trace` have failed.
  function NextModel(catalog: seq<Model>, q: Query, trace: seq<Attempt>): Outcome {
    Route(catalog, Unpinned(q), Names(trace))
  }

  predicate MayMove(q: Query, fallback: bool) {
    fallback && q.force == ""
  }

  // The attempts form one failover chain from `first`: each later model is the routing
  // answer with all earlier ones excluded, and only sick replies were passed over.
  ghost predicate Chain(catalog: seq<Model>, q: Query, fallback: bool, first: Model, trace: seq<Attempt>) {
    && (forall i :: 0 <= i < |trace| - 1 ==> trace[i].reply.Sick())
    && (|trace| > 1 ==> MayMove(q, fallback))
    && (trace != [] ==> trace[0].model == first)
    && (forall i :: 0 < i < |trace| ==>
          var next := NextModel(catalog, q, trace[..i]);
          next.Routed? && next.model == trace[i].model)
  }

  // Why the chain stopped, and with what result.
  ghost predicate Concluded(catalog: seq<Model>, q: Query, fallback: bool, trace: seq<Attempt>, result: Result)
    requires trace != []
  {
    var last := trace[|trace| - 1];
    match last.reply
    case Completed(text, inputTokens, outputTokens) => result == Served(last.model, text, inputTokens, outputTokens)
    case ClientFault(_) => result == Raised(last.reply)
    case _ => result == Raised(last.reply)
              && (MayMove(q, fallback) ==> !NextModel(catalog, q, trace).Routed?)
  }

  // Each model name is tried at most once.
  lemma ChainNeverRepeats(catalog: seq<Model>, q: Query, fallback: bool, first: Model, trace: seq<Attempt>)
    requires Chain(catalog, q, fallback, first, trace)
    ensures forall i, j :: 0 <= i < j < |trace| ==> trace[i].model.name != trace[j].model.name
    ensures forall i :: 0 < i < |trace| ==>
              && trace[i].model in catalog
              && FitsContext(trace[i].model, q) && Projected(trace[i].model, q) <= q.budget
  {
    forall j | 0 < j < |trace|
      ensures trace[j].model in catalog && trace[j].model.name !in Names(trace[..j])
      ensures FitsContext(trace[j].model, q) && Projected(trace[j].model, q) <= q.budget
    {
      RoutedIsLegal(catalog, Unpinned(q), Names(trace[..j]));
    }
    forall i, j | 0 <= i < j < |trace| ensures trace[i].model.name != trace[j].model.name {
      assert trace[..j][i].model.name in Names(trace[..j]);
    }
  }

  function CatalogNames(catalog: seq<Model>): set<string> {
    set i | 0 <= i < |catalog| :: catalog[i].name
  }

  // The next attempt of the chain may be made on `m`.
  ghost predicate Ready(catalog: seq<Model>, q: Query, fallback: bool, first: Model, trace: seq<Attempt>, m: Model) {
    Chain(catalog, q, fallback, first, trace + [Attempt(m, Refused)])
  }

  // Each attempt met what the world had for it.
  ghost predicate Met(trace: seq<Attempt>, world: nat -> Reply) {
    forall i :: 0 <= i < |trace| ==> trace[i].reply == world(i)
  }

  // Re-routing with the models tried so far excluded.
  method MoveOn(catalog: seq<Model>, q: Query, ghost trace: seq<Attempt>, excluded: set<string>) returns (next: Outcome)
    requires excluded == Names(trace)
    ensures next == NextModel(catalog, q, trace)
    ensures next.Routed? ==> next.model in catalog && next.model.name !in excluded
  {
    next := RouteRequest(catalog, Unpinned(q), excluded);
    if next.Routed? { RoutedIsLegal(catalog, Unpinned(q), excluded); }
  }

  // `world(k)` is what attempt k meets, whatever other requests did to the breakers
  // meanwhile.  The loop ends because every round excludes one more catalog name.
  method GenerateWithFailover(catalog: seq<Model>, q: Query, fallback: bool, first: Model, world: nat -> Reply)
    returns (result: Result, trace: seq<Attempt>, reports: seq<Report>)
    requires first in catalog
    ensures trace != [] && Chain(catalog, q, fallback, first, trace)
    ensures Concluded(catalog, q, fallback, trace, result)
    ensures Met(trace, world)
    ensures reports == Reports(trace)
  {
    var excluded: set<string> := {};
    var current := first;
    trace, reports := [], [];
    while true
      invariant excluded == Names(trace)
      invariant current in catalog && current.name !in excluded
      invariant reports == Reports(trace)
      invariant Met(trace, world)
      invariant Ready(catalog, q, fallback, first, trace, current)
      decreases CatalogNames(catalog) - excluded
    {
      var reply := world(|trace|);
      RoundEnds(catalog, q, fallback, first, trace, current, reply, world);
      trace := trace + [Attempt(current, reply)];
      if reply.Completed? {
        reports := reports + [ReportSuccess(current.name)];
        return Served(current, reply.text, reply.inputTokens, reply.outputTokens), trace, reports;
      }
      if reply.ServerFault? {
        reports := reports + [ReportFailure(current.name)];
      }
      if reply.ClientFault? || !fallback || q.force != "" {
        return Raised(reply), trace, reports;
      }
      ExcludingShrinks(CatalogNames(catalog), excluded, current.name);
      excluded := excluded + {current.name};
      var next := MoveOn(catalog, q, trace, excluded);
      if !next.Routed? {
        return Raised(reply), trace, reports;
      }
      ChainGrows(catalog, q, fallback, first, trace, next.model);
      current := next.model;
    }
  }

  // What a round adds to the names, the reports and the chain.
  lemma {:induction false} RoundEnds(catalog: seq<Model>, q: Query, fallback: bool, first: Model, trace: seq<Attempt>,
                                     m: Model, r: Reply, world: nat -> Reply)
    requires Ready(catalog, q, fallback, first, trace, m) && Met(trace, world) && r == world(|trace|)
    ensures Names(trace + [Attempt(m, r)]) == Names(trace) + {m.name}
    ensures Reports(trace + [Attempt(m, r)])
         == match r
            case Completed(_, _, _) => Reports(trace) + [ReportSuccess(m.name)]
            case ServerFault(_) => Reports(trace) + [ReportFailure(m.name)]
            case _ => Reports(trace)
    ensures Met(trace + [Attempt(m, r)], world)
    ensures Chain(catalog, q, fallback, first, trace + [Attempt(m, r)])
  {
    NamesGrow(trace, Attempt(m, r));
    ReportsGrow(trace, Attempt(m, r));
    MetGrows(trace, Attempt(m, r), world);
    ChainReply(catalog, q, fallback, first, trace, m, r);
  }

  lemma {:induction false} ReportsGrow(trace: seq<Attempt>, a: Attempt)
    ensures Reports(trace + [a]) == match a.reply
                                    case Completed(_, _, _) => Reports(trace) + [ReportSuccess(a.model.name)]
                                    case ServerFault(_) => Reports(trace) + [ReportFailure(a.model.name)]
                                    case _ => Reports(trace)
  {
    assert (trace + [a])[..|trace|] == trace;
  }

  lemma MetGrows(trace: seq<Attempt>, a: Attempt, world: nat -> Reply)
    requires Met(trace, world) && a.reply == world(|trace|)
    ensures Met(trace + [a], world)
  {
  }

  lemma NamesGrow(trace: seq<Attempt>, a: Attempt)
    ensures Names(trace + [a]) == Names(trace) + {a.model.name}
  {
    var t := trace + [a];
    forall i | 0 <= i < |trace| ensures trace[i].model.name in Names(t) { assert t[i] == trace[i]; }
    assert t[|trace|] == a;
  }

  // The reply of the last attempt plays no part in the chain.
  lemma ChainReply(catalog: seq<Model>, q: Query, fallback: bool, first: Model, trace: seq<Attempt>, m: Model, r: Reply)
    requires Chain(catalog, q, fallback, first, trace + [Attempt(m, Refused)])
    ensures Chain(catalog, q, fallback, first, trace + [Attempt(m, r)])
  {
    var s, t := trace + [Attempt(m, Refused)], trace + [Attempt(m, r)];
    forall i | 0 <= i <= |trace| ensures s[..i] == t[..i] {}
    forall i | 0 <= i < |trace| ensures s[i] == t[i] {}
  }

  lemma ChainGrows(catalog: seq<Model>, q: Query, fallback: bool, first: Model, trace: seq<Attempt>, m: Model)
    requires trace != [] && Chain(catalog, q, fallback, first, trace) && MayMove(q, fallback)
    requires trace[|trace| - 1].reply.Sick()
    requires NextModel(catalog, q, trace).Routed? && NextModel(catalog, q, trace).model == m
    ensures Ready(catalog, q, fallback, first, trace, m)
  {
    var t := trace + [Attempt(m, Refused)];
    forall i | 0 <= i <= |trace| ensures t[..i] == trace[..i] {}
    assert trace[..|trace|] == trace;
  }

  lemma ExcludingShrinks(names: set<string>, excluded: set<string>, name: string)
    requires name in names && name !in excluded
    ensures names - (excluded + {name}) < names - excluded
  {
    assert name in names - excluded;
  }

  // A chain is never longer than the catalog has names.
  lemma ChainIsBounded(catalog: seq<Model>, q: Query, fallback: bool, first: Model, trace: seq<Attempt>)
    requires first in catalog && Chain(catalog, q, fallback, first, trace)
    ensures |trace| <= |CatalogNames(catalog)|
    ensures !MayMove(q, fallback) ==> |trace| <= 1
  {
    ChainNeverRepeats(catalog, q, fallback, first, trace);
    NamesCount(trace);
    forall i | 0 <= i < |trace| ensures trace[i].model in catalog {}
    assert Names(trace) <= CatalogNames(catalog);
    SubsetCount(Names(trace), CatalogNames(catalog));
  }

  lemma {:induction false} NamesCount(trace: seq<Attempt>)
    requires forall i, j :: 0 <= i < j < |trace| ==> trace[i].model.name != trace[j].model.name
    ensures |Names(trace)| == |trace|
  {
    if trace != [] {
      var n := |trace| - 1;
      NamesCount(trace[..n]);
      NamesGrow(trace[..n], trace[n]);
      assert trace == trace[..n] + [trace[n]];
    }
  }

  lemma {:induction false} SubsetCount(a: set<string>, b: set<string>)
    requires a <= b
    ensures |a| <= |b|
  {
    if a != {} {
      var x :| x in a;
      SubsetCount(a - {x}, b - {x});
    }
  }

  // The names of the first n attempts.
  ghost function Tried(trace: seq<Attempt>, n: nat): set<string>
    requires n <= |trace|
  {
    if n == 0 then {} else Tried(trace, n - 1) + {trace[n - 1].model.name}
  }

  lemma {:induction false} TriedIsNames(trace: seq<Attempt>, n: nat)
    requires n <= |trace|
    ensures Names(trace[..n]) == Tried(trace, n)
  {
    if n > 0 {
      TriedIsNames(trace, n - 1);
      assert trace[..n] == trace[..n - 1] + [trace[n - 1]];
      NamesGrow(trace[..n - 1], trace[n - 1]);
    }
  }

  // Attempt i was made on what routing answers without the pin and the names tried before.
  ghost predicate Rerouted(catalog: seq<Model>, q: Query, trace: seq<Attempt>, i: nat)
    requires i < |trace|
  {
    var next := Route(catalog, q.(force := ""), Tried(trace, i));
    next.Routed? && next.model == trace[i].model
  }

  lemma LaterIsRerouted(catalog: seq<Model>, q: Query, fallback: bool, first: Model, trace: seq<Attempt>, i: nat)
    requires 0 < i < |trace| && Chain(catalog, q, fallback, first, trace)
    ensures Rerouted(catalog, q, trace, i)
  {
    TriedIsNames(trace, i);
    assert NextModel(catalog, q, trace[..i]).Routed?;
  }

  // What a finished chain means, reply by reply: only refusals and server faults are passed
  // over, a pinned request or one without fallback makes one attempt, each later model is the
  // routing answer for the request without its pin and without the names tried so far, and
  // the last reply is the result.
  lemma {:induction false} ChainMeans(catalog: seq<Model>, q: Query, fallback: bool, first: Model, trace: seq<Attempt>,
                                      result: Result)
    requires trace != [] && Chain(catalog, q, fallback, first, trace)
    requires Concluded(catalog, q, fallback, trace, result)
    ensures trace[0].model == first
    ensures forall i :: 0 <= i < |trace| - 1 ==> trace[i].reply.Refused? || trace[i].reply.ServerFault?
    ensures q.force != "" || !fallback ==> |trace| == 1
    ensures forall i :: 0 < i < |trace| ==> Rerouted(catalog, q, trace, i)
    ensures match trace[|trace| - 1].reply
            case Completed(text, inputTokens, outputTokens) =>
              result == Served(trace[|trace| - 1].model, text, inputTokens, outputTokens)
            case ClientFault(_) => result == Raised(trace[|trace| - 1].reply)
            case _ =>
              && result == Raised(trace[|trace| - 1].reply)
              && (q.force == "" && fallback ==> !Route(catalog, q.(force := ""), Tried(trace, |trace|)).Routed?)
  {
    forall i | 0 < i < |trace| ensures Rerouted(catalog, q, trace, i) {
      LaterIsRerouted(catalog, q, fallback, first, trace, i);
    }
    LastIsFinal(catalog, q, fallback, trace, result);
  }

  lemma {:induction false} LastIsFinal(catalog: seq<Model>, q: Query, fallback: bool, trace: seq<Attempt>,
                                       result: Result)
    requires trace != [] && Concluded(catalog, q, fallback, trace, result)
    ensures match trace[|trace| - 1].reply
            case Completed(text, inputTokens, outputTokens) =>
              result == Served(trace[|trace| - 1].model, text, inputTokens, outputTokens)
            case ClientFault(_) => result == Raised(trace[|trace| - 1].reply)
            case _ =>
              && result == Raised(trace[|trace| - 1].reply)
              && (q.force == "" && fallback ==> !Route(catalog, q.(force := ""), Tried(trace, |trace|)).Routed?)
  {
    TriedIsNames(trace, |trace|);
    assert trace[..|trace|] == trace;
  }
}
