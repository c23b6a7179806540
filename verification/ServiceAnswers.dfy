/**
 Answers end to end: where every text handed out came from, and what a caller of a stream
 or of a replay received.
 */
module ServiceAnswers {
  import opened ServiceHistory
  import opened ServiceModel
  import opened ServiceTheorems
  import C = CacheModel
  import CR = CacheRecency
  import F = Failover
  import R = Router

  // ---- answers -----------------------------------------------------------

  // Every answer handed out, from the cache or not, is the full text of a generation that
  // completed for the same prompt, output ceiling and the model it is attributed to; so is
  // every cached entry.  The caller of a stream got exactly the text the provider produced.
  lemma {:induction false} AnswersAreSound(c: Config, events: seq<Event>, i: nat)
    requires i < |Run(c, events).reqs| && Run(c, events).reqs[i].phase.Done?
    ensures var s := Run(c, events);
            var reply, t := s.reqs[i].phase.reply, TranscriptOf(s, i);
            && (reply.Some? ==> Made(s, s.reqs[i], reply.value.model, reply.value.text, reply.value.usage))
            && (s.reqs[i].streamed && i in s.served ==> Join(t.deltas) == Join(Texts(t.chunks)) == s.served[i].text)
            && CacheSound(s)
  {
    RunKeepsInv(c, events);
    assert TextSound(c, Run(c, events), Run(c, events).reqs[i]) && HistoryMatches(c, Run(c, events), i);
  }

  // The chunks that events of the run delivered for request i, in order.
  ghost function Delivered(c: Config, events: seq<Event>, i: nat): seq<Chunk> {
    if events == [] then [] else
    var n := |events| - 1;
    var before, e := Delivered(c, events[..n], i), events[n];
    if e.Act? && e.i == i && e.action.Deliver? && Enabled(c, Run(c, events[..n]), i, e.action)
    then before + [e.action.chunk] else before
  }

  lemma StepDelivers(c: Config, s: Sys, e: Event, i: nat)
    requires Histories(c, s)
    ensures TranscriptOf(Step(c, s, e), i).chunks
         == TranscriptOf(s, i).chunks
            + if e.Act? && e.i == i && e.action.Deliver? && Enabled(c, s, i, e.action) then [e.action.chunk] else []
  {
    if e.Act? && Enabled(c, s, e.i, e.action) { assert HistoryMatches(c, s, e.i); }
  }

  // What a stream is billed for and checked against is what was delivered for it.
  lemma {:induction false} ChunksAreDelivered(c: Config, events: seq<Event>, i: nat)
    ensures TranscriptOf(Run(c, events), i).chunks == Delivered(c, events, i)
  {
    if events != [] {
      var n := |events| - 1;
      ChunksAreDelivered(c, events[..n], i);
      RunKeepsInv(c, events[..n]);
      StepDelivers(c, Run(c, events[..n]), events[n], i);
    }
  }

  // Event k of the run completed `g`: a buffered generation that returned, or a stream
  // whose provider finished.
  ghost predicate CompletedAt(c: Config, events: seq<Event>, k: nat, g: Generation)
    requires k < |events|
  {
    var s, e := Run(c, events[..k]), events[k];
    e.Act? && Enabled(c, s, e.i, e.action) && g in CompletedBy(c, s, e.i, e.action)
  }

  // A generation is on record only because some event completed it, so truncated and
  // failed output never gets there.
  lemma {:induction false} GenerationsWereCompleted(c: Config, events: seq<Event>, g: Generation) returns (k: nat)
    requires g in Run(c, events).generated
    ensures k < |events| && CompletedAt(c, events, k, g)
  {
    var n := |events| - 1;
    if g in Run(c, events[..n]).generated {
      k := GenerationsWereCompleted(c, events[..n], g);
      assert events[..n][..k] == events[..k];
    } else {
      k := n;
    }
  }

  lemma ReplayIsWhole(text: string)
    ensures Join(ReplayDeltas(text)) == text
  {
    if text != "" { JoinAppend([], text); }
  }

  // Event k of the run completed a generation for request j: a buffered call that returned
  // the text and usage, by the model of the last attempt, or a stream that ended, by the
  // routed model, with all that was delivered of it.
  ghost predicate Completes(c: Config, events: seq<Event>, k: nat, j: nat, model: string, text: string, u: Usage) {
    && k < |events| && events[k].Act? && events[k].i == j && Enabled(c, Run(c, events[..k]), j, events[k].action)
    && var r := Run(c, events[..k]).reqs[j];
       match events[k].action
       case Generate(trace) =>
         && trace[|trace| - 1].reply.Completed? && trace[|trace| - 1].model.name == model
         && trace[|trace| - 1].reply == F.Completed(text, u.inputTokens, u.outputTokens)
       case EndStream =>
         && r.model.name == model && text == Join(Texts(Delivered(c, events[..k], j)))
         && u == StreamUsage(c, r, Delivered(c, events[..k], j))
       case _ => false
  }

  // A cached answer, and for a streamed caller the deltas it was replayed as put together, is
  // what some event of the run produced in completing a generation by the model it is
  // attributed to, for a request with the same prompt and the same output ceiling.
  lemma HitIsOriginal(c: Config, events: seq<Event>, i: nat) returns (k: nat, j: nat)
    requires i < |Run(c, events).reqs| && Run(c, events).reqs[i].phase.Done?
    requires var reply := Run(c, events).reqs[i].phase.reply; reply.Some? && reply.value.cached
    ensures var s := Run(c, events);
            var r, reply := s.reqs[i], s.reqs[i].phase.reply.value;
            && Completes(c, events, k, j, reply.model, reply.text, reply.usage)
            && Run(c, events[..k]).reqs[j].prompt == r.prompt
            && Run(c, events[..k]).reqs[j].query.outputTokens == r.query.outputTokens
            && (r.streamed ==> Join(TranscriptOf(s, i).deltas) == reply.text)
  {
    var s := Run(c, events);
    var r, reply := s.reqs[i], s.reqs[i].phase.reply.value;
    AnswersAreSound(c, events, i);
    k := GenerationsWereCompleted(c, events,
                                  Generation(reply.model, r.prompt, r.query.outputTokens, reply.text, reply.usage));
    j := events[k].i;
    ChunksAreDelivered(c, events[..k], j);
    RunKeepsInv(c, events);
    assert HistoryMatches(c, s, i);
    ReplayIsWhole(reply.text);
  }

  // ---- keys ------------------------------------------------------------------

  // A key stands for the model, the prompt and the output ceiling, and for nothing else.
  lemma KeyIsInjective(r: Request, model: string, r': Request, model': string)
    ensures KeyFor(r, model) == KeyFor(r', model')
        <==> model == model' && r.prompt == r'.prompt && r.query.outputTokens == r'.query.outputTokens
  {
  }

  // Once an answer has been stored, a request routed to the model that gave it, with the same
  // prompt and output ceiling, is answered from the cache until the answer expires and no
  // longer; without a cache nothing is.
  lemma StoredIsFound(c: Config, s: Sys, i: nat, m: R.Model, text: string, u: Usage, r: Request, now: real)
    requires Enabled(c, s, i, Store(false)) && c.caching && c.cacheTtl > 0.0
    requires || s.reqs[i].phase == Storing(m, text, u)
             || (s.reqs[i].phase == DetachedSettled(u, C.Some(text)) && m == s.reqs[i].model)
    requires r.model.name == m.name
    requires r.prompt == s.reqs[i].prompt && r.query.outputTokens == s.reqs[i].query.outputTokens
    ensures LookupReply(c, Step(c, s, Act(i, Store(false))).(now := now), r)
         == if now < s.now + c.cacheTtl then C.Some(C.Entry(text, u.inputTokens, u.outputTokens, m.name)) else C.None
    ensures LookupReply(c.(caching := false), Step(c, s, Act(i, Store(false))).(now := now), r) == C.None
  {
    CR.StoredUntilExpiry(s.cache, s.now, KeyFor(r, m.name), EntryFor(m, text, u), c.cacheTtl, CacheLimit(c), now);
  }

  // The cache holds at most as many answers as configured, and at least room for one, each
  // key once.
  ghost predicate CacheBounded(c: Config, s: Sys) {
    C.UniqueKeys(s.cache) && (|s.cache| <= c.cacheMax || |s.cache| <= 1)
  }

  lemma StepKeepsBound(c: Config, s: Sys, e: Event)
    requires CacheBounded(c, s)
    ensures CacheBounded(c, Step(c, s, e))
  {
    if e.Act? && Enabled(c, s, e.i, e.action) && CacheCall(c, s, e.i, e.action).Some? {
      var call := CacheCall(c, s, e.i, e.action).value;
      CR.StepKeepsUnique(s.cache, call, CacheLimit(c));
      CR.StepIsBounded(s.cache, call, CacheLimit(c));
    }
  }

  lemma {:induction false} CacheIsBounded(c: Config, events: seq<Event>)
    ensures CacheBounded(c, Run(c, events))
  {
    if events != [] {
      CacheIsBounded(c, events[..|events| - 1]);
      StepKeepsBound(c, Run(c, events[..|events| - 1]), events[|events| - 1]);
    }
  }
}
