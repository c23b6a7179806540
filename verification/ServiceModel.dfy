/**
 The request lifecycle as a state machine.

 Any number of buffered and streamed requests interleave with autoscaler ticks.  One event
 is one stretch of code between two suspension points: a lock body, a metrics call, a
 provider call, a step of a stream.  The reservation of request i has id i.
 */
module ServiceModel {
  import L = LedgerModel
  import G = GateModel
  import C = CacheModel
  import A = Autoscaler
  import M = Metrics
  import R = Router
  import F = Failover

  // The characters-per-token setting, by which the code divides.
  type Divisor = r: real | r != 0.0 witness 4.0

  // `shedding` says whether waiting in the queue has a deadline.
  datatype Config = Config(window: real, catalog: seq<R.Model>, fallback: bool, scaling: A.Config,
                           caching: bool, cacheTtl: real, cacheMax: int, shedding: bool, charsPerToken: Divisor)

  datatype Usage = Usage(inputTokens: nat, outputTokens: nat)

  datatype Chunk = Chunk(text: string, usage: C.Option<Usage>)

  // What a request owes the ledger.
  datatype Billing = Unbilled | Open | Charged | Refunded

  datatype Reply = Reply(text: string, model: string, usage: Usage, cached: bool)

  datatype Phase =
    | Routed                                             // cache lookup next
    | Missed                                             // reserve next
    | Held                                               // gate next
    | Queued                                             // inside acquire
    | Expired                                            // timed out: refund next
    | Admitted                                           // request_started next
    // buffered
    | Generating
    | Generated(model: R.Model, text: string, usage: Usage)   // settle next
    | Settled(model: R.Model, text: string, usage: Usage)     // request_finished next
    | Storing(model: R.Model, text: string, usage: Usage)     // cache store next
    | Failed(settled: bool)                              // an exception: release next
    | Released(settled: bool)                            // request_finished next
    // streamed
    | Streaming(pieces: seq<string>, reported: C.Option<Usage>)
    | StreamEnded(pieces: seq<string>, reported: C.Option<Usage>)
    | StreamBroken(pieces: seq<string>, reported: C.Option<Usage>)
    | Detached(usage: Usage, full: C.Option<string>)          // detached task: settle next
    | DetachedSettled(usage: Usage, full: C.Option<string>)   // cache store next
    | DetachedStored(usage: Usage)                            // request_finished next
    // both
    | Leaving(billing: Billing, reply: C.Option<Reply>)  // gate release next
    | Done(billing: Billing, reply: C.Option<Reply>)

  datatype Request = Request(user: L.User, prompt: string, query: R.Query, streamed: bool,
                             model: R.Model, cost: real, heldAt: real, phase: Phase)

  // History: a generation that completed: the model that made it, what the request asked
  // for, and what came out.
  datatype Generation =
    Generation(model: string, prompt: string, outputTokens: nat, text: string, usage: Usage)

  // History: what served a request, taken from the provider's reply, or from the chunks of
  // a stream when it was finalized.
  datatype Service = Service(model: R.Model, usage: Usage, text: string)

  // History: the chunks the provider streamed for a request, and the deltas its caller got.
  datatype Transcript = Transcript(chunks: seq<Chunk>, deltas: seq<string>)

  datatype Sys = Sys(now: real, ledger: L.State, gate: G.Gate, metrics: M.Counters, cache: seq<C.Item>,
                     scaler: A.Scaler, resizing: bool, reqs: seq<Request>,
                     generated: set<Generation>, streams: map<nat, Transcript>, served: map<nat, Service>,
                     reportedTwice: bool)

  datatype Action =
    | Lookup
    | Reserve(limit: real)
    | EnterGate
    | Wake
    | GiveUp
    | Begin
    | Generate(trace: seq<F.Attempt>)
    | Settle
    | Report
    | Store(raises: bool)
    | Release
    | Deliver(chunk: Chunk)
    | EndStream
    | BreakStream
    | Close
    | Leave

  datatype Event =
    | Advance(to: real)
    | Arrive(user: L.User, prompt: string, query: R.Query, streamed: bool)
    | Act(i: nat, action: Action)
    | Tick(later: real)   // sample the load and step the autoscaler
    | Resize              // the tick's gate resize

  // ---- pieces ------------------------------------------------------------

  function Join(texts: seq<string>): string {
    if texts == [] then "" else Join(texts[..|texts| - 1]) + texts[|texts| - 1]
  }

  function Texts(chunks: seq<Chunk>): seq<string> {
    seq(|chunks|, i requires 0 <= i < |chunks| => chunks[i].text)
  }

  function RoundHalfEven(x: real): int {
    var f := x.Floor;
    var d := x - f as real;
    if d < 0.5 || (d == 0.5 && f % 2 == 0) then f else f + 1
  }

  // The token estimate without a tokenizer.
  function CountTokens(text: string, charsPerToken: Divisor): nat {
    if text == "" then 0
    else
      var n := RoundHalfEven(|text| as real / charsPerToken);
      if n < 1 then 1 else n
  }

  function KeyFor(r: Request, model: string): C.Key {
    C.Key(model, r.prompt, r.query.outputTokens)
  }

  function HoldOf(r: Request, i: nat): L.Hold {
    L.Hold(i, r.user, r.cost, r.heldAt)
  }

  function Price(m: R.Model, u: Usage): real {
    R.Cost(m, u.inputTokens, u.outputTokens)
  }

  // The events a cached text is replayed as carry these deltas.
  function ReplayDeltas(text: string): seq<string> {
    if text == "" then [] else [text]
  }

  function FinalUsage(c: Config, r: Request, pieces: seq<string>, reported: C.Option<Usage>): Usage {
    if reported.Some? then reported.value
    else Usage(r.query.inputTokens, CountTokens(Join(pieces), c.charsPerToken))
  }

  function TranscriptOf(s: Sys, i: nat): Transcript {
    if i in s.streams then s.streams[i] else Transcript([], [])
  }

  // The usage the provider reported last.
  function LastUsage(chunks: seq<Chunk>): C.Option<Usage> {
    if chunks == [] then C.None
    else if chunks[|chunks| - 1].usage.Some? then chunks[|chunks| - 1].usage
    else LastUsage(chunks[..|chunks| - 1])
  }

  // What a stream is to be billed for: the usage reported, or else the request's input and
  // the estimate for the text produced.
  function StreamUsage(c: Config, r: Request, chunks: seq<Chunk>): Usage {
    if LastUsage(chunks).Some? then LastUsage(chunks).value
    else Usage(r.query.inputTokens, CountTokens(Join(Texts(chunks)), c.charsPerToken))
  }

  function CacheLimit(c: Config): nat {
    if c.cacheMax > 1 then c.cacheMax else 1
  }

  function LookupReply(c: Config, s: Sys, r: Request): C.Option<C.Entry> {
    if c.caching then C.Reply(s.cache, C.Get(s.now, KeyFor(r, r.model.name))) else C.None
  }

  function ReserveOp(s: Sys, i: nat, limit: real): L.Op
    requires i < |s.reqs|
  {
    L.Reserve(s.now, s.reqs[i].user, s.reqs[i].cost, limit, i)
  }

  // ---- which action is possible ------------------------------------------

  ghost predicate Enabled(c: Config, s: Sys, i: nat, a: Action) {
    i < |s.reqs| &&
    var r := s.reqs[i];
    match a
    case Lookup => r.phase.Routed?
    case Reserve(_) => r.phase.Missed?
    case EnterGate => r.phase.Held?
    case Wake => r.phase.Queued? && i in s.gate.notified
    case GiveUp => r.phase.Queued? && c.shedding
    case Begin => r.phase.Admitted?
    case Generate(trace) =>
      && r.phase.Generating? && trace != [] && F.Chain(c.catalog, r.query, c.fallback, r.model, trace)
      && exists result :: F.Concluded(c.catalog, r.query, c.fallback, trace, result)
    case Settle => r.phase.Generated? || r.phase.Detached?
    case Report => r.phase.Settled? || r.phase.Released? || r.phase.DetachedStored?
    case Store(raises) => (r.phase.Storing? || r.phase.DetachedSettled?) && (raises ==> c.caching)
    case Release => r.phase.Expired? || r.phase.Failed?
    case Deliver(_) => r.phase.Streaming?
    case EndStream => r.phase.Streaming?
    case BreakStream => r.phase.Streaming?
    case Close => r.phase.Streaming? || r.phase.StreamEnded? || r.phase.StreamBroken?
    case Leave => r.phase.Leaving?
  }

  // ---- what it does to the request ---------------------------------------

  function NextPhase(c: Config, s: Sys, i: nat, a: Action): Phase
    requires i < |s.reqs|
  {
    var r := s.reqs[i];
    var p := r.phase;
    match a
    case Lookup =>
      (match LookupReply(c, s, r)
       case Some(e) => Done(Unbilled, C.Some(Reply(e.text, e.model, Usage(e.inputTokens, e.outputTokens), true)))
       case None => Missed)
    case Reserve(limit) =>
      if L.Reply(s.ledger, ReserveOp(s, i, limit), c.window).granted then Held else Done(Unbilled, C.None)
    case EnterGate => if s.gate.HasRoom() then Admitted else Queued
    case Wake => if s.gate.HasRoom() then Admitted else Queued
    case GiveUp => Expired
    case Begin => if r.streamed then Streaming([], C.None) else Generating
    case Generate(trace) =>
      if trace == [] then p else
      (match trace[|trace| - 1]
       case Attempt(m, Completed(text, inputTokens, outputTokens)) =>
         Generated(m, text, Usage(inputTokens, outputTokens))
       case _ => Failed(false))
    case Settle =>
      (match p
       case Generated(m, text, usage) => Settled(m, text, usage)
       case Detached(usage, full) => DetachedSettled(usage, full)
       case _ => p)
    case Report =>
      (match p
       case Settled(m, text, usage) => Storing(m, text, usage)
       case Released(settled) => Leaving(if settled then Charged else Refunded, C.None)
       case DetachedStored(_) => Leaving(Charged, C.None)
       case _ => p)
    case Store(raises) =>
      (match p
       case Storing(m, text, u) =>
         if raises then Failed(true) else Leaving(Charged, C.Some(Reply(text, m.name, u, false)))
       case DetachedSettled(usage, _) => DetachedStored(usage)   // a raising cache is only logged
       case _ => p)
    case Release =>
      (match p
       case Expired => Done(Refunded, C.None)
       case Failed(settled) => Released(settled)
       case _ => p)
    case Deliver(chunk) =>
      if !p.Streaming? then p else
      Streaming(if chunk.text == "" then p.pieces else p.pieces + [chunk.text],
                if chunk.usage.Some? then chunk.usage else p.reported)
    case EndStream => if !p.Streaming? then p else StreamEnded(p.pieces, p.reported)
    case BreakStream => if !p.Streaming? then p else StreamBroken(p.pieces, p.reported)
    case Close =>
      if !(p.Streaming? || p.StreamEnded? || p.StreamBroken?) then p else
      Detached(FinalUsage(c, r, p.pieces, p.reported), if p.StreamEnded? then C.Some(Join(p.pieces)) else C.None)
    case Leave => if !p.Leaving? then p else Done(p.billing, p.reply)
  }

  function NextRequest(c: Config, s: Sys, i: nat, a: Action): Request
    requires i < |s.reqs|
  {
    s.reqs[i].(phase := NextPhase(c, s, i, a), heldAt := if a.Reserve? then s.now else s.reqs[i].heldAt)
  }

  // ---- and to each component ---------------------------------------------

  function LedgerOp(c: Config, s: Sys, i: nat, a: Action): C.Option<L.Op>
    requires i < |s.reqs|
  {
    var r := s.reqs[i];
    var hold := HoldOf(r, i);
    match a
    case Reserve(limit) => C.Some(ReserveOp(s, i, limit))
    case Settle =>
      (match r.phase
       case Generated(m, _, u) => C.Some(L.Settle(s.now, hold, Price(m, u), m.name, u.inputTokens, u.outputTokens))
       case Detached(u, _) =>
         C.Some(L.Settle(s.now, hold, Price(r.model, u), r.model.name, u.inputTokens, u.outputTokens))
       case _ => C.None)
    case Release => C.Some(L.Release(s.now, hold))
    case _ => C.None
  }

  function GateEvent(i: nat, a: Action): C.Option<G.Event> {
    match a
    case EnterGate => C.Some(G.Enter(i))
    case Wake => C.Some(G.Resume(i))
    case GiveUp => C.Some(G.Timeout(i))
    case Leave => C.Some(G.Release)
    case _ => C.None
  }

  function CountersAfter(c: Config, s: Sys, i: nat, a: Action): M.Counters
    requires i < |s.reqs|
  {
    var r := s.reqs[i];
    match a
    case Lookup =>
      if LookupReply(c, s, r).Some? then M.Hit(s.metrics) else s.metrics
    case Begin => M.Started(s.metrics)
    case Report =>
      (match r.phase
       case Settled(m, _, u) => M.Finished(s.metrics, u.inputTokens, u.outputTokens, Price(m, u))
       case Released(_) => M.Finished(s.metrics, 0, 0, 0.0)
       case DetachedStored(u) => M.Finished(s.metrics, u.inputTokens, u.outputTokens, Price(r.model, u))
       case _ => s.metrics)
    case _ => s.metrics
  }

  function EntryFor(m: R.Model, text: string, u: Usage): C.Entry {
    C.Entry(text, u.inputTokens, u.outputTokens, m.name)
  }

  function CacheCall(c: Config, s: Sys, i: nat, a: Action): C.Option<C.Call>
    requires i < |s.reqs|
  {
    var r := s.reqs[i];
    if !c.caching then C.None else
    match a
    case Lookup => C.Some(C.Get(s.now, KeyFor(r, r.model.name)))
    case Store(false) =>
      (match r.phase
       case Storing(m, text, u) => C.Some(C.Set(s.now, KeyFor(r, m.name), EntryFor(m, text, u), c.cacheTtl))
       case DetachedSettled(u, Some(text)) =>
         C.Some(C.Set(s.now, KeyFor(r, r.model.name), EntryFor(r.model, text, u), c.cacheTtl))
       case _ => C.None)
    case _ => C.None
  }

  function CompletedBy(c: Config, s: Sys, i: nat, a: Action): set<Generation>
    requires i < |s.reqs|
  {
    var r := s.reqs[i];
    match a
    case Generate(trace) =>
      if trace == [] then {} else
      (match trace[|trace| - 1]
       case Attempt(m, Completed(text, inputTokens, outputTokens)) =>
         {Generation(m.name, r.prompt, r.query.outputTokens, text, Usage(inputTokens, outputTokens))}
       case _ => {})
    case EndStream =>
      var chunks := TranscriptOf(s, i).chunks;
      {Generation(r.model.name, r.prompt, r.query.outputTokens, Join(Texts(chunks)), StreamUsage(c, r, chunks))}
    case _ => {}
  }

  function StreamsAfter(c: Config, s: Sys, i: nat, a: Action): map<nat, Transcript>
    requires i < |s.reqs|
  {
    var r, t := s.reqs[i], TranscriptOf(s, i);
    match a
    case Lookup =>
      if r.streamed && LookupReply(c, s, r).Some?
      then s.streams[i := Transcript([], ReplayDeltas(LookupReply(c, s, r).value.text))] else s.streams
    case Deliver(chunk) =>
      s.streams[i := Transcript(t.chunks + [chunk], if chunk.text == "" then t.deltas else t.deltas + [chunk.text])]
    case _ => s.streams
  }

  // The service an action completes: a generation that returned, or a stream that closed.
  function ServiceBy(c: Config, s: Sys, i: nat, a: Action): C.Option<Service>
    requires i < |s.reqs|
  {
    var r, chunks := s.reqs[i], TranscriptOf(s, i).chunks;
    match a
    case Generate(trace) =>
      if trace == [] then C.None else
      (match trace[|trace| - 1]
       case Attempt(m, Completed(text, inputTokens, outputTokens)) =>
         C.Some(Service(m, Usage(inputTokens, outputTokens), text))
       case _ => C.None)
    case Close => C.Some(Service(r.model, StreamUsage(c, r, chunks), Join(Texts(chunks))))
    case _ => C.None
  }

  function ServedAfter(c: Config, s: Sys, i: nat, a: Action): map<nat, Service>
    requires i < |s.reqs|
  {
    var service := ServiceBy(c, s, i, a);
    if service.Some? then s.served[i := service.value] else s.served
  }

  // ---- the step ----------------------------------------------------------

  function ActStep(c: Config, s: Sys, i: nat, a: Action): Sys
    requires i < |s.reqs|
  {
    var op, ev, call := LedgerOp(c, s, i, a), GateEvent(i, a), CacheCall(c, s, i, a);
    s.(ledger := if op.Some? then L.Step(s.ledger, op.value, c.window, false) else s.ledger,
       gate := if ev.Some? then G.Step(s.gate, ev.value) else s.gate,
       metrics := CountersAfter(c, s, i, a),
       cache := if call.Some? then C.Step(s.cache, call.value, CacheLimit(c)) else s.cache,
       reqs := s.reqs[i := NextRequest(c, s, i, a)],
       generated := s.generated + CompletedBy(c, s, i, a),
       streams := StreamsAfter(c, s, i, a),
       served := ServedAfter(c, s, i, a),
       reportedTwice := s.reportedTwice || (a.Report? && s.reqs[i].phase == Released(true)))
  }

  function Start(c: Config): Sys {
    Sys(0.0, L.INIT, G.Start(A.CapacityFor(c.scaling.minReplicas, c.scaling.target)), M.ZERO, [],
        A.Start(c.scaling), false, [], {}, map[], map[], false)
  }

  function TickDecision(c: Config, s: Sys): A.ScaleDecision {
    A.Decide(c.scaling, s.scaler, Load(s), s.now)
  }

  // In-flight plus queued, as the autoscaler samples it.
  function Load(s: Sys): nat {
    (if s.gate.active >= 0 then s.gate.active else 0) + s.gate.Waiting()
  }

  // An event that is not possible leaves the state alone.
  ghost function Step(c: Config, s: Sys, e: Event): Sys {
    match e
    case Advance(to) => if to >= s.now then s.(now := to) else s
    case Arrive(user, prompt, query, streamed) =>
      (match R.Route(c.catalog, query, {})
       case Routed(m, cost, _) =>
         s.(reqs := s.reqs + [Request(user, prompt, query, streamed, m, cost, 0.0, Phase.Routed)])
       case _ => s)
    case Act(i, a) => if Enabled(c, s, i, a) then ActStep(c, s, i, a) else s
    case Tick(later) =>
      if s.resizing then s else
      var d := TickDecision(c, s);
      s.(scaler := A.Apply(s.scaler, d, later), resizing := d.desired != d.current)
    case Resize =>
      if !s.resizing then s else
      s.(gate := G.Step(s.gate, G.Resize(A.CapacityFor(s.scaler.current, c.scaling.target))), resizing := false)
  }

  ghost function Run(c: Config, events: seq<Event>): Sys {
    if events == [] then Start(c) else Step(c, Run(c, events[..|events| - 1]), events[|events| - 1])
  }
}
