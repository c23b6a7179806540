/**
 What each request's history says: what the provider streamed and the caller got, what
 served the request and what it was billed, and where every answer came from.
 */
module ServiceHistory {
  import opened ServiceModel
  import opened ServiceInvariants
  import L = LedgerModel
  import C = CacheModel

  // ---- streams and services ----------------------------------------------

  // The caller got exactly the text the provider streamed.
  ghost predicate TranscriptSound(t: Transcript) {
    Join(t.deltas) == Join(Texts(t.chunks))
  }

  // A stream under way has kept what its caller got and the usage reported last.
  ghost predicate StreamMatches(s: Sys, i: nat, pieces: seq<string>, reported: C.Option<Usage>)
    requires i < |s.reqs|
  {
    var t := TranscriptOf(s, i);
    && s.reqs[i].streamed && i !in s.served && TranscriptSound(t)
    && pieces == t.deltas && reported == LastUsage(t.chunks)
  }

  ghost predicate ServedAs(s: Sys, i: nat, service: Service)
    requires i < |s.reqs|
  {
    !s.reqs[i].streamed && i in s.served && s.served[i] == service
  }

  // A finalized stream was served by the routed model, with the usage of its chunks and the
  // text its caller got.
  ghost predicate Finalized(c: Config, s: Sys, i: nat)
    requires i < |s.reqs|
  {
    var r, t := s.reqs[i], TranscriptOf(s, i);
    && r.streamed && TranscriptSound(t)
    && i in s.served && s.served[i] == Service(r.model, StreamUsage(c, r, t.chunks), Join(t.deltas))
  }

  // Charged means served; a cached answer was neither, and was replayed whole to a streamed
  // caller; any other answer is the served text under the serving model's name.
  ghost predicate Ended(c: Config, s: Sys, i: nat, b: Billing, reply: C.Option<Reply>)
    requires i < |s.reqs|
  {
    && (b == Charged <==> i in s.served)
    && (s.reqs[i].streamed && i in s.served ==> Finalized(c, s, i))
    && (reply.Some? ==>
          if reply.value.cached
          then b == Unbilled && (s.reqs[i].streamed ==> TranscriptOf(s, i).deltas == ReplayDeltas(reply.value.text))
          else && i in s.served && s.served[i].model.name == reply.value.model
               && s.served[i].text == reply.value.text && s.served[i].usage == reply.value.usage)
  }

  ghost predicate HistoryMatches(c: Config, s: Sys, i: nat)
    requires i < |s.reqs|
  {
    match s.reqs[i].phase
    case Streaming(pieces, reported) => StreamMatches(s, i, pieces, reported)
    case StreamEnded(pieces, reported) => StreamMatches(s, i, pieces, reported)
    case StreamBroken(pieces, reported) => StreamMatches(s, i, pieces, reported)
    case Generating => !s.reqs[i].streamed && i !in s.served
    case Generated(m, text, u) => ServedAs(s, i, Service(m, u, text))
    case Settled(m, text, u) => ServedAs(s, i, Service(m, u, text))
    case Storing(m, text, u) => ServedAs(s, i, Service(m, u, text))
    case Failed(settled) => !s.reqs[i].streamed && (settled <==> i in s.served)
    case Released(settled) => !s.reqs[i].streamed && (settled <==> i in s.served)
    case Detached(u, full) =>
      Finalized(c, s, i) && u == s.served[i].usage && (full.Some? ==> full.value == s.served[i].text)
    case DetachedSettled(u, full) =>
      Finalized(c, s, i) && u == s.served[i].usage && (full.Some? ==> full.value == s.served[i].text)
    case DetachedStored(u) => Finalized(c, s, i) && u == s.served[i].usage
    case Leaving(b, reply) => Ended(c, s, i, b, reply)
    case Done(b, reply) => Ended(c, s, i, b, reply)
    case _ => i !in s.served && i !in s.streams
  }

  ghost predicate Histories(c: Config, s: Sys) {
    && (forall i: nat :: i < |s.reqs| ==> HistoryMatches(c, s, i))
    && (forall i: nat :: i in s.served || i in s.streams ==> i < |s.reqs|)
  }

  lemma {:induction false} JoinAppend(texts: seq<string>, t: string)
    ensures Join(texts + [t]) == Join(texts) + t
  {
    assert (texts + [t])[..|texts|] == texts;
  }

  lemma {:induction false} LastUsageAppend(chunks: seq<Chunk>, chunk: Chunk)
    ensures LastUsage(chunks + [chunk]) == if chunk.usage.Some? then chunk.usage else LastUsage(chunks)
  {
    assert (chunks + [chunk])[..|chunks|] == chunks;
  }

  // A chunk reaches the caller as it comes; an empty one adds nothing.
  lemma TranscriptGrows(t: Transcript, chunk: Chunk)
    requires TranscriptSound(t)
    ensures TranscriptSound(Transcript(t.chunks + [chunk],
                                       if chunk.text == "" then t.deltas else t.deltas + [chunk.text]))
  {
    JoinAppend(t.deltas, chunk.text);
    JoinAppend(Texts(t.chunks), chunk.text);
    assert Texts(t.chunks + [chunk]) == Texts(t.chunks) + [chunk.text];
    assert chunk.text == "" ==> Join(t.deltas) + chunk.text == Join(t.deltas);
  }

  lemma DeliverKeepsHistory(c: Config, s: Sys, i: nat, chunk: Chunk)
    requires Enabled(c, s, i, Deliver(chunk)) && HistoryMatches(c, s, i)
    ensures HistoryMatches(c, ActStep(c, s, i, Deliver(chunk)), i)
  {
    TranscriptGrows(TranscriptOf(s, i), chunk);
    LastUsageAppend(TranscriptOf(s, i).chunks, chunk);
  }

  lemma CloseKeepsHistory(c: Config, s: Sys, i: nat)
    requires Enabled(c, s, i, Close) && HistoryMatches(c, s, i)
    ensures HistoryMatches(c, ActStep(c, s, i, Close), i)
  {
  }

  lemma BeginKeepsHistory(c: Config, s: Sys, i: nat)
    requires Enabled(c, s, i, Begin) && HistoryMatches(c, s, i)
    ensures HistoryMatches(c, ActStep(c, s, i, Begin), i)
  {
    assert Texts([]) == [];
  }

  lemma ReportKeepsHistory(c: Config, s: Sys, i: nat)
    requires Enabled(c, s, i, Report) && HistoryMatches(c, s, i)
    ensures HistoryMatches(c, ActStep(c, s, i, Report), i)
  {
  }

  lemma StoreKeepsHistory(c: Config, s: Sys, i: nat, raises: bool)
    requires Enabled(c, s, i, Store(raises)) && HistoryMatches(c, s, i)
    ensures HistoryMatches(c, ActStep(c, s, i, Store(raises)), i)
  {
  }

  lemma ActKeepsOwnHistory(c: Config, s: Sys, i: nat, a: Action)
    requires Enabled(c, s, i, a) && HistoryMatches(c, s, i)
    ensures HistoryMatches(c, ActStep(c, s, i, a), i)
  {
    match a {
      case Deliver(chunk) => DeliverKeepsHistory(c, s, i, chunk);
      case Close => CloseKeepsHistory(c, s, i);
      case Begin => BeginKeepsHistory(c, s, i);
      case Report => ReportKeepsHistory(c, s, i);
      case Store(raises) => StoreKeepsHistory(c, s, i, raises);
      case Lookup => LookupKeepsHistory(c, s, i);
      case Generate(_) => GenerateKeepsHistory(c, s, i, a);
      case _ => OtherActKeepsHistory(c, s, i, a);
    }
  }

  lemma LookupKeepsHistory(c: Config, s: Sys, i: nat)
    requires Enabled(c, s, i, Lookup) && HistoryMatches(c, s, i)
    ensures HistoryMatches(c, ActStep(c, s, i, Lookup), i)
  {
  }

  lemma GenerateKeepsHistory(c: Config, s: Sys, i: nat, a: Action)
    requires Enabled(c, s, i, a) && HistoryMatches(c, s, i) && a.Generate?
    ensures HistoryMatches(c, ActStep(c, s, i, a), i)
  {
  }

  lemma OtherActKeepsHistory(c: Config, s: Sys, i: nat, a: Action)
    requires Enabled(c, s, i, a) && HistoryMatches(c, s, i)
    requires !a.Deliver? && !a.Close? && !a.Begin? && !a.Report? && !a.Store? && !a.Lookup? && !a.Generate?
    ensures HistoryMatches(c, ActStep(c, s, i, a), i)
  {
  }

  // Nothing done for one request touches the history of another.
  lemma OtherHistoryStays(c: Config, s: Sys, i: nat, a: Action, j: nat)
    requires Enabled(c, s, i, a) && j < |s.reqs| && j != i && HistoryMatches(c, s, j)
    ensures HistoryMatches(c, ActStep(c, s, i, a), j)
  {
  }

  lemma ActKeepsHistories(c: Config, s: Sys, i: nat, a: Action)
    requires Enabled(c, s, i, a) && Histories(c, s)
    ensures Histories(c, ActStep(c, s, i, a))
  {
    ActKeepsOwnHistory(c, s, i, a);
    var t := ActStep(c, s, i, a);
    forall j: nat | j < |t.reqs| ensures HistoryMatches(c, t, j) {
      if j != i { OtherHistoryStays(c, s, i, a, j); }
    }
  }

  // What served a request is settled once and for all.
  ghost predicate ServedGrows(s: Sys, t: Sys) {
    forall j: nat :: j in s.served ==> j in t.served && t.served[j] == s.served[j]
  }

  lemma ActKeepsServed(c: Config, s: Sys, i: nat, a: Action)
    requires Enabled(c, s, i, a) && HistoryMatches(c, s, i)
    ensures ServedGrows(s, ActStep(c, s, i, a))
  {
  }

  // ---- bills -------------------------------------------------------------

  // The usage record of a service: the serving model's name, the tokens reported, and that
  // model's price for them.
  function Bill(u: L.User, service: Service, at: real): L.UsageRecord {
    L.UsageRecord(u, service.model.name, service.usage.inputTokens, service.usage.outputTokens,
                  Price(service.model, service.usage), at)
  }

  ghost predicate Billed(s: Sys, k: L.Closing) {
    k.Charged? ==> k.hold.id in s.served && k.record == Bill(k.hold.user, s.served[k.hold.id], k.record.at)
  }

  // Every charge is the bill of what served its request.
  ghost predicate BillsMatch(s: Sys) {
    forall k <- s.ledger.journal :: Billed(s, k)
  }

  lemma SettleBills(c: Config, s: Sys, i: nat)
    requires Enabled(c, s, i, Settle) && HistoryMatches(c, s, i) && ReservationMatches(s, i)
    ensures i in s.served && ActStep(c, s, i, Settle).served == s.served
    ensures ActStep(c, s, i, Settle).ledger.journal
         == s.ledger.journal + [L.Charged(HoldOf(s.reqs[i], i), Bill(s.reqs[i].user, s.served[i], s.now))]
  {
    BillingMoves(c, s, i, Settle);
  }

  lemma OthersBillNothing(c: Config, s: Sys, i: nat, a: Action)
    requires Enabled(c, s, i, a) && !a.Settle?
    ensures forall k <- ActStep(c, s, i, a).ledger.journal :: k in s.ledger.journal || k.Refunded?
  {
  }

  lemma ActKeepsBills(c: Config, s: Sys, i: nat, a: Action)
    requires Enabled(c, s, i, a) && HistoryMatches(c, s, i) && ReservationMatches(s, i) && BillsMatch(s)
    ensures BillsMatch(ActStep(c, s, i, a))
  {
    ActKeepsServed(c, s, i, a);
    if a.Settle? { SettleBills(c, s, i); } else { OthersBillNothing(c, s, i, a); }
    BillsCarryOver(s, ActStep(c, s, i, a));
  }

  lemma BillsCarryOver(s: Sys, t: Sys)
    requires BillsMatch(s) && ServedGrows(s, t)
    requires forall k <- t.ledger.journal :: k in s.ledger.journal || Billed(t, k)
    ensures BillsMatch(t)
  {
    forall k <- t.ledger.journal ensures Billed(t, k) {
      if k in s.ledger.journal { assert Billed(s, k); }
    }
  }

  // ---- answers -------------------------------------------------------------

  // A generation by `model` completed for what request r asks for, with this outcome.
  ghost predicate Made(s: Sys, r: Request, model: string, text: string, u: Usage) {
    Generation(model, r.prompt, r.query.outputTokens, text, u) in s.generated
  }

  // Every cached answer is that of a generation that completed for what its key says.
  ghost predicate CacheSound(s: Sys) {
    forall item <- s.cache ::
      var k, e := item.key, item.entry;
      && e.model == k.model
      && Generation(k.model, k.prompt, k.maxOutputTokens, e.text, Usage(e.inputTokens, e.outputTokens)) in s.generated
  }

  // So is every answer on its way into the cache or out to a caller.
  ghost predicate TextSound(c: Config, s: Sys, r: Request) {
    match r.phase
    case Generated(m, text, u) => Made(s, r, m.name, text, u)
    case Settled(m, text, u) => Made(s, r, m.name, text, u)
    case Storing(m, text, u) => Made(s, r, m.name, text, u)
    case StreamEnded(pieces, reported) =>
      Made(s, r, r.model.name, Join(pieces), FinalUsage(c, r, pieces, reported))
    case Detached(u, full) => full.Some? ==> Made(s, r, r.model.name, full.value, u)
    case DetachedSettled(u, full) => full.Some? ==> Made(s, r, r.model.name, full.value, u)
    case Leaving(_, reply) =>
      reply.Some? ==> Made(s, r, reply.value.model, reply.value.text, reply.value.usage)
    case Done(_, reply) =>
      reply.Some? ==> Made(s, r, reply.value.model, reply.value.text, reply.value.usage)
    case _ => true
  }

  ghost predicate AnswersSound(c: Config, s: Sys) {
    CacheSound(s) && forall i :: 0 <= i < |s.reqs| ==> TextSound(c, s, s.reqs[i])
  }

  lemma CacheStepMembers(items: seq<C.Item>, call: C.Call, max: nat)
    ensures forall x <- C.Step(items, call, max) ::
              x in items || (call.Set? && x.key == call.key && x.entry == call.entry)
    ensures C.Reply(items, call).Some? ==>
              exists x <- items :: x.key == call.key && x.entry == C.Reply(items, call).value
  {
    RemoveSubset(items, call.key);
    C.FindMember(items, call.key);
  }

  lemma {:induction false} RemoveSubset(items: seq<C.Item>, k: C.Key)
    ensures forall x <- C.Remove(items, k) :: x in items
  {
    if items != [] { RemoveSubset(items[1..], k); }
  }

  lemma ActKeepsCacheSound(c: Config, s: Sys, i: nat, a: Action)
    requires Enabled(c, s, i, a) && AnswersSound(c, s)
    ensures CacheSound(ActStep(c, s, i, a))
  {
    var call := CacheCall(c, s, i, a);
    if call.Some? {
      CacheStepMembers(s.cache, call.value, CacheLimit(c));
      assert TextSound(c, s, s.reqs[i]);
    }
  }

  // A hit is a text completed for this very key.
  lemma LookupIsSound(c: Config, s: Sys, i: nat)
    requires Enabled(c, s, i, Lookup) && CacheSound(s)
    ensures TextSound(c, ActStep(c, s, i, Lookup), NextRequest(c, s, i, Lookup))
  {
    var r := s.reqs[i];
    if LookupReply(c, s, r).Some? {
      var key := KeyFor(r, r.model.name);
      CacheStepMembers(s.cache, C.Get(s.now, key), CacheLimit(c));
      var x :| x in s.cache && x.key == key && x.entry == LookupReply(c, s, r).value;
    }
  }

  // A stream that ends has completed the text its caller got.
  lemma EndIsSound(c: Config, s: Sys, i: nat)
    requires Enabled(c, s, i, EndStream) && HistoryMatches(c, s, i)
    ensures TextSound(c, ActStep(c, s, i, EndStream), NextRequest(c, s, i, EndStream))
  {
  }

  lemma GenerateIsSound(c: Config, s: Sys, i: nat, a: Action)
    requires Enabled(c, s, i, a) && a.Generate?
    ensures TextSound(c, ActStep(c, s, i, a), NextRequest(c, s, i, a))
  {
  }

  lemma ActKeepsTextSound(c: Config, s: Sys, i: nat, a: Action)
    requires Enabled(c, s, i, a) && TextSound(c, s, s.reqs[i]) && !a.Lookup? && !a.EndStream? && !a.Generate?
    ensures TextSound(c, ActStep(c, s, i, a), NextRequest(c, s, i, a))
  {
  }

  lemma ActKeepsAnswersSound(c: Config, s: Sys, i: nat, a: Action)
    requires Enabled(c, s, i, a) && AnswersSound(c, s) && HistoryMatches(c, s, i)
    ensures AnswersSound(c, ActStep(c, s, i, a))
  {
    ActKeepsCacheSound(c, s, i, a);
    assert TextSound(c, s, s.reqs[i]);
    match a {
      case Lookup => LookupIsSound(c, s, i);
      case EndStream => EndIsSound(c, s, i);
      case Generate(_) => GenerateIsSound(c, s, i, a);
      case _ => ActKeepsTextSound(c, s, i, a);
    }
    var t := ActStep(c, s, i, a);
    forall j | 0 <= j < |t.reqs| ensures TextSound(c, t, t.reqs[j]) {
      if j != i { StaysSound(c, s, t, s.reqs[j]); }
    }
  }

  lemma StaysSound(c: Config, s: Sys, t: Sys, r: Request)
    requires TextSound(c, s, r) && s.generated <= t.generated
    ensures TextSound(c, t, r)
  {
  }
}
