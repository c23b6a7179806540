/**
 No run gets stuck: whoever is left can be brought to an end, one action after another,
 without a new arrival, a tick or a time-out.
 */
module ServiceProgress {
  import opened ServiceInvariants
  import opened ServiceModel
  import opened ServiceTheorems
  import opened Sums
  import F = Failover
  import R = Router

  // A first attempt that completes.
  function Answer(m: R.Model): Action {
    Generate([F.Attempt(m, F.Completed("", 0, 0))])
  }

  // A way on for a request that has not ended and is not asleep.
  function NextAction(r: Request): Action {
    match r.phase
    case Routed => Lookup
    case Missed => Reserve(0.0)
    case Held => EnterGate
    case Queued => Wake
    case Expired => Action.Release
    case Admitted => Begin
    case Generating => Answer(r.model)
    case Generated(_, _, _) => Settle
    case Settled(_, _, _) => Report
    case Storing(_, _, _) => Store(false)
    case Failed(_) => Action.Release
    case Released(_) => Report
    case Streaming(_, _) => EndStream
    case StreamEnded(_, _) => Close
    case StreamBroken(_, _) => Close
    case Detached(_, _) => Settle
    case DetachedSettled(_, _) => Store(false)
    case DetachedStored(_) => Report
    case _ => Leave
  }

  // How many actions a request is away from its end, at most.
  function Distance(p: Phase): nat {
    match p
    case Routed => 11
    case Missed => 10
    case Held => 9
    case Queued => 8
    case Admitted => 7
    case Streaming(_, _) => 6
    case StreamEnded(_, _) => 5
    case StreamBroken(_, _) => 5
    case Generating => 5
    case Generated(_, _, _) => 4
    case Detached(_, _) => 4
    case Settled(_, _, _) => 3
    case DetachedSettled(_, _) => 3
    case Failed(_) => 3
    case Storing(_, _, _) => 2
    case DetachedStored(_) => 2
    case Released(_) => 2
    case Expired => 1
    case Leaving(_, _) => 1
    case Done(_, _) => 0
  }

  // Not ended, and if it waits, woken with a slot free.
  predicate CanGoOn(s: Sys, i: nat) {
    && i < |s.reqs| && !s.reqs[i].phase.Done?
    && (s.reqs[i].phase.Queued? ==> i in s.gate.notified && s.gate.HasRoom())
  }

  lemma AnswerIsEnabled(c: Config, s: Sys, i: nat)
    requires i < |s.reqs| && s.reqs[i].phase.Generating?
    ensures Enabled(c, s, i, Answer(s.reqs[i].model))
  {
    var r := s.reqs[i];
    assert F.Concluded(c.catalog, r.query, c.fallback, Answer(r.model).trace, F.Served(r.model, "", 0, 0));
  }

  lemma GoesOn(c: Config, s: Sys, i: nat)
    requires CanGoOn(s, i)
    ensures Enabled(c, s, i, NextAction(s.reqs[i]))
    ensures Distance(NextRequest(c, s, i, NextAction(s.reqs[i])).phase) < Distance(s.reqs[i].phase)
  {
    if s.reqs[i].phase.Generating? { AnswerIsEnabled(c, s, i); }
  }

  // As long as some request has not ended, one can go on: when all that are left wait, no
  // slot is held, and because no wake-up is lost one of them has been woken.
  lemma SomeoneCanGoOn(c: Config, s: Sys) returns (i: nat)
    requires Inv(c, s) && !Quiescent(s)
    ensures CanGoOn(s, i)
  {
    if j: nat :| j < |s.reqs| && !s.reqs[j].phase.Done? && !s.reqs[j].phase.Queued? {
      return j;
    }
    CountNone(s.reqs, HoldsSlot);
    var r :| r in s.reqs && !r.phase.Done?;
    var j: nat :| j < |s.reqs| && s.reqs[j] == r;
    assert s.gate.Queue()[j] == if Waits(s, j) then 1 else 0;
    assert j in s.gate.Queue();
    i := s.gate.notified[0];
    assert i in s.gate.Queue();
    assert s.gate.Queue()[i] == if Waits(s, i) then 1 else 0;
  }

  function Distances(reqs: seq<Request>): nat {
    if reqs == [] then 0 else Distances(reqs[..|reqs| - 1]) + Distance(reqs[|reqs| - 1].phase)
  }

  lemma {:induction false} CloserOverall(reqs: seq<Request>, i: nat, r: Request)
    requires i < |reqs| && Distance(r.phase) < Distance(reqs[i].phase)
    ensures Distances(reqs[i := r]) < Distances(reqs)
  {
    var n := |reqs| - 1;
    if i < n {
      assert reqs[i := r][..n] == reqs[..n][i := r];
      CloserOverall(reqs[..n], i, r);
    } else {
      assert reqs[i := r][..n] == reqs[..n];
    }
  }

  // In every run, as long as some request has not ended some action is possible that brings
  // its request nearer to the end.
  lemma NeverStuck(c: Config, events: seq<Event>) returns (i: nat, a: Action)
    requires !Quiescent(Run(c, events))
    ensures Enabled(c, Run(c, events), i, a) && !a.GiveUp?
    ensures Distances(Run(c, events + [Act(i, a)]).reqs) < Distances(Run(c, events).reqs)
  {
    var s := Run(c, events);
    RunKeepsInv(c, events);
    i := SomeoneCanGoOn(c, s);
    a := NextAction(s.reqs[i]);
    GoesOn(c, s, i);
    OneMore(c, events, Act(i, a));
    CloserOverall(s.reqs, i, NextRequest(c, s, i, a));
  }

  predicate InHouse(e: Event) {
    e.Act? && !e.action.GiveUp?
  }

  lemma Regroup(events: seq<Event>, e: Event, rest: seq<Event>)
    requires InHouse(e) && forall x <- rest :: InHouse(x)
    ensures events + ([e] + rest) == events + [e] + rest
    ensures forall x <- [e] + rest :: InHouse(x)
  {
  }

  // From every run, actions of the requests already there lead to quiescence: no arrival, no
  // tick and no time-out is needed.
  lemma {:induction false} DrainsToQuiescence(c: Config, events: seq<Event>) returns (more: seq<Event>)
    ensures Quiescent(Run(c, events + more)) && forall e <- more :: InHouse(e)
    decreases Distances(Run(c, events).reqs)
  {
    if Quiescent(Run(c, events)) {
      more := [];
      assert events + more == events;
    } else {
      var i, a := NeverStuck(c, events);
      var rest := DrainsToQuiescence(c, events + [Act(i, a)]);
      more := [Act(i, a)] + rest;
      Regroup(events, Act(i, a), rest);
    }
  }
}
