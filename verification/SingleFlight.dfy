/**
 Collapsing concurrent identical work: the first caller of a key starts the work, callers
 that arrive before it has left share its result.

 A caller is suspended until the work it joined is done.  Cancelling a follower frees the
 follower only; cancelling a leader whose work still runs cancels the work, and the leader
 leaves once the work has ended.
 */
module SingleFlight {
  import C = CacheModel

  type Key = string

  datatype Outcome = Value(value: string) | Error(error: string) | Cancelled

  // `starter` is the caller that started the work.
  datatype Work = Work(key: Key, starter: nat, result: C.Option<Outcome>)

  datatype Caller = Caller(key: Key, work: nat, leader: bool, got: C.Option<Outcome>, cancelled: bool)

  datatype State = State(inflight: map<Key, nat>, works: seq<Work>, callers: seq<Caller>)

  datatype Event =
    | Call(key: Key)                       // a new caller runs up to its suspension
    | Finish(work: nat, outcome: Outcome)  // the factory ends, in whatever way
    | Leave(caller: nat)                   // a caller resumes with the outcome of its work
    | Cancel(caller: nat)                  // a caller is cancelled while suspended

  const INIT := State(map[], [], [])

  function Depart(s: State, i: nat, got: Outcome, cancelled: bool): State
    requires i < |s.callers|
  {
    var c := s.callers[i];
    s.(callers := s.callers[i := c.(got := C.Some(got), cancelled := cancelled)],
       inflight := if c.leader then s.inflight - {c.key} else s.inflight)
  }

  predicate Enabled(s: State, e: Event) {
    match e
    case Call(_) => true
    case Finish(w, _) => w < |s.works| && s.works[w].result.None?
    case Leave(i) =>
      && i < |s.callers| && s.callers[i].got.None?
      && s.callers[i].work < |s.works| && s.works[s.callers[i].work].result.Some?
    case Cancel(i) =>
      && i < |s.callers| && s.callers[i].got.None? && s.callers[i].work < |s.works|
  }

  function Step(s: State, e: Event): State {
    if !Enabled(s, e) then s else
    match e
    case Call(k) =>
      if k in s.inflight then s.(callers := s.callers + [Caller(k, s.inflight[k], false, C.None, false)])
      else State(s.inflight[k := |s.works|], s.works + [Work(k, |s.callers|, C.None)],
                 s.callers + [Caller(k, |s.works|, true, C.None, false)])
    case Finish(w, outcome) => s.(works := s.works[w := s.works[w].(result := C.Some(outcome))])
    case Leave(i) => Depart(s, i, s.works[s.callers[i].work].result.value, false)
    case Cancel(i) =>
      // A leader whose work still runs stays until the work has ended.
      if s.callers[i].leader && s.works[s.callers[i].work].result.None? then s
      else Depart(s, i, Cancelled, true)
  }

  predicate IsLeaderInside(s: State, i: int) {
    0 <= i < |s.callers| && s.callers[i].leader && s.callers[i].got.None?
  }

  // Every caller joined the work of its own key, and an uncancelled one that left took
  // that work's outcome.
  ghost predicate Joined(s: State) {
    forall i :: 0 <= i < |s.callers| ==>
      var c := s.callers[i];
      && c.work < |s.works| && s.works[c.work].key == c.key
      && (c.leader ==> s.works[c.work].starter == i)
      && (c.got.Some? && !c.cancelled ==> c.got == s.works[c.work].result)
  }

  // The map holds exactly the keys whose leader is still inside, each with its own work,
  // and unfinished work is in the map.
  ghost predicate MapExact(s: State) {
    && (forall i :: IsLeaderInside(s, i) ==>
          s.callers[i].key in s.inflight && s.inflight[s.callers[i].key] == s.callers[i].work)
    && (forall k <- s.inflight ::
          && s.inflight[k] < |s.works| && s.works[s.inflight[k]].key == k
          && IsLeaderInside(s, s.works[s.inflight[k]].starter)
          && s.callers[s.works[s.inflight[k]].starter].work == s.inflight[k])
    && (forall w :: 0 <= w < |s.works| && s.works[w].result.None? ==>
          s.works[w].key in s.inflight && s.inflight[s.works[w].key] == w)
  }

  ghost predicate Inv(s: State) {
    Joined(s) && MapExact(s)
  }

  lemma DepartKeepsMap(s: State, i: nat, got: Outcome, cancelled: bool)
    requires Inv(s) && i < |s.callers| && s.callers[i].got.None?
    requires s.callers[i].leader ==> s.works[s.callers[i].work].result.Some?
    ensures MapExact(Depart(s, i, got, cancelled))
  {
    var t, c := Depart(s, i, got, cancelled), s.callers[i];
    forall j | IsLeaderInside(t, j)
      ensures t.callers[j].key in t.inflight && t.inflight[t.callers[j].key] == t.callers[j].work
    {
      assert IsLeaderInside(s, j) && s.callers[j] == t.callers[j];
      if c.leader { assert IsLeaderInside(s, i); }
    }
    forall k <- t.inflight
      ensures IsLeaderInside(t, t.works[t.inflight[k]].starter)
              && t.callers[t.works[t.inflight[k]].starter].work == t.inflight[k]
    {
      assert k in s.inflight;
    }
  }

  lemma StepKeepsInv(s: State, e: Event)
    requires Inv(s)
    ensures Inv(Step(s, e))
  {
    if Enabled(s, e) {
      match e
      case Call(k) => CallKeepsInv(s, k);
      case Finish(w, outcome) =>
      case Leave(i) => DepartKeepsMap(s, i, s.works[s.callers[i].work].result.value, false);
      case Cancel(i) =>
        if !(s.callers[i].leader && s.works[s.callers[i].work].result.None?) { DepartKeepsMap(s, i, Cancelled, true); }
    }
  }

  lemma CallKeepsInv(s: State, k: Key)
    requires Inv(s)
    ensures Inv(Step(s, Call(k)))
  {
    if k in s.inflight {
      FollowKeepsMap(s, k);
    } else {
      LeadKeepsMap(s, k);
    }
  }

  lemma FollowKeepsMap(s: State, k: Key)
    requires Inv(s) && k in s.inflight
    ensures MapExact(Step(s, Call(k)))
  {
    var t := Step(s, Call(k));
    assert t.works == s.works && t.inflight == s.inflight;
    forall j | IsLeaderInside(t, j)
      ensures t.callers[j].key in t.inflight && t.inflight[t.callers[j].key] == t.callers[j].work
    {
      assert IsLeaderInside(s, j) && t.callers[j] == s.callers[j];
    }
    forall j <- t.inflight
      ensures IsLeaderInside(t, t.works[t.inflight[j]].starter)
              && t.callers[t.works[t.inflight[j]].starter].work == t.inflight[j]
    {
      assert IsLeaderInside(s, s.works[s.inflight[j]].starter);
    }
  }

  lemma LeadKeepsMap(s: State, k: Key)
    requires Inv(s) && k !in s.inflight
    ensures MapExact(Step(s, Call(k)))
  {
    var t := Step(s, Call(k));
    forall j | IsLeaderInside(t, j)
      ensures t.callers[j].key in t.inflight && t.inflight[t.callers[j].key] == t.callers[j].work
    {
      if j < |s.callers| { assert IsLeaderInside(s, j) && t.callers[j] == s.callers[j]; }
    }
    forall j <- t.inflight
      ensures t.inflight[j] < |t.works| && t.works[t.inflight[j]].key == j
              && IsLeaderInside(t, t.works[t.inflight[j]].starter)
              && t.callers[t.works[t.inflight[j]].starter].work == t.inflight[j]
    {
      if j in s.inflight { assert IsLeaderInside(s, s.works[s.inflight[j]].starter); }
    }
  }

  function Run(events: seq<Event>): State {
    if events == [] then INIT else Step(Run(events[..|events| - 1]), events[|events| - 1])
  }

  lemma {:induction false} RunKeepsInv(events: seq<Event>)
    ensures Inv(Run(events))
  {
    if events != [] {
      RunKeepsInv(events[..|events| - 1]);
      StepKeepsInv(Run(events[..|events| - 1]), events[|events| - 1]);
    }
  }

  // In every interleaving a key has at most one unfinished run of its factory.
  lemma {:induction false} OneRunPerKey(events: seq<Event>, v: nat, w: nat)
    requires v < |Run(events).works| && w < |Run(events).works|
    requires Run(events).works[v].result.None? && Run(events).works[w].result.None?
    requires Run(events).works[v].key == Run(events).works[w].key
    ensures v == w
  {
    RunKeepsInv(events);
  }

  // The map holds exactly the keys whose leader has not left.
  lemma {:induction false} InflightIsLeaders(events: seq<Event>, k: Key)
    ensures k in Run(events).inflight <==>
            exists i :: IsLeaderInside(Run(events), i) && Run(events).callers[i].key == k
  {
    RunKeepsInv(events);
    var s := Run(events);
    if k in s.inflight { assert IsLeaderInside(s, s.works[s.inflight[k]].starter); }
  }

  // A departing leader takes out its own entry and nothing else, once its work has ended.
  lemma {:induction false} LeaderRemovesOwnEntry(events: seq<Event>, e: Event)
    requires (e.Leave? || e.Cancel?) && IsLeaderInside(Run(events), e.caller)
    ensures var s, t := Run(events), Step(Run(events), e);
            var c := s.callers[e.caller];
            && c.key in s.inflight && s.inflight[c.key] == c.work < |s.works|
            && (t == s || (s.works[c.work].result.Some? && t.inflight == s.inflight - {c.key}))
  {
    RunKeepsInv(events);
  }

  predicate LeftWithOutcome(s: State, i: nat) {
    i < |s.callers| && s.callers[i].got.Some? && !s.callers[i].cancelled
  }

  // Callers that joined the same work and left uncancelled all got that work's outcome.
  lemma {:induction false} EveryoneGetsTheOneOutcome(events: seq<Event>, i: nat, j: nat)
    requires LeftWithOutcome(Run(events), i) && LeftWithOutcome(Run(events), j)
    requires Run(events).callers[i].work == Run(events).callers[j].work
    ensures var s := Run(events);
            && s.callers[i].work < |s.works|
            && s.callers[i].got == s.callers[j].got == s.works[s.callers[i].work].result
  {
    RunKeepsInv(events);
  }

  // A caller joins the work of its key while the key's leader is inside, and otherwise starts
  // the one new work of that key and leads it.
  lemma {:induction false} CallJoinsOrLeads(events: seq<Event>, k: Key)
    ensures var s := Run(events);
            var t := Step(s, Call(k));
            var c := t.callers[|s.callers|];
            && |t.callers| == |s.callers| + 1 && t.callers[..|s.callers|] == s.callers && c.key == k && c.got.None?
            && c.work < |t.works| && t.works[c.work].key == k
            && if exists i :: IsLeaderInside(s, i) && s.callers[i].key == k
               then t.works == s.works && !c.leader
               else t.works == s.works + [t.works[c.work]] && c.leader && t.works[c.work].result.None?
  {
    RunKeepsInv(events);
    InflightIsLeaders(events, k);
  }

  // A follower that is cancelled leaves alone: the shared work, the map and every other
  // caller stay as they were.  A leader that is cancelled leaves its work to end.
  lemma CancelTouchesOneCaller(s: State, i: nat)
    requires Enabled(s, Cancel(i))
    ensures var t := Step(s, Cancel(i));
            && t.works == s.works && |t.callers| == |s.callers|
            && (forall j :: 0 <= j < |s.callers| && j != i ==> t.callers[j] == s.callers[j])
            && (!s.callers[i].leader ==>
                  t.inflight == s.inflight && t.callers[i].got == C.Some(Cancelled) && t.callers[i].cancelled)
            && (s.callers[i].leader && s.works[s.callers[i].work].result.None? ==> t == s)
  {
  }

  // A caller whose work has ended leaves with that outcome, and nothing else changes for
  // anyone but the key it led.
  lemma LeaveTakesOutcome(s: State, i: nat)
    requires Enabled(s, Leave(i))
    ensures var t, c := Step(s, Leave(i)), s.callers[i];
            && t.works == s.works && t.callers == s.callers[i := t.callers[i]]
            && t.callers[i].got == s.works[c.work].result && t.callers[i].cancelled == false
            && t.inflight == if c.leader then s.inflight - {c.key} else s.inflight
  {
  }

  // Only a caller that some event of the run cancelled counts as cancelled.
  lemma {:induction false} CancelledByEvent(events: seq<Event>, i: nat) returns (k: nat)
    requires i < |Run(events).callers| && Run(events).callers[i].cancelled
    ensures k < |events| && events[k] == Cancel(i)
  {
    var n := |events| - 1;
    if i < |Run(events[..n]).callers| && Run(events[..n]).callers[i].cancelled {
      k := CancelledByEvent(events[..n], i);
    } else {
      k := n;
    }
  }
}
