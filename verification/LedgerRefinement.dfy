/**
 The pruned ledger gives the answers of a ledger that never prunes.
 */
module LedgerRefinement {
  import opened LedgerModel

  // ---- lists of entries --------------------------------------------------

  ghost predicate UniqueIds(es: seq<Entry>) {
    forall i, j :: 0 <= i < j < |es| ==> es[i].id != es[j].id
  }

  lemma {:induction false} LiveMembers(es: seq<Entry>, cutoff: real)
    ensures forall e :: e in Live(es, cutoff) <==> e in es && e.at >= cutoff
    ensures UniqueIds(es) ==> UniqueIds(Live(es, cutoff))
  {
    if es != [] {
      LiveMembers(es[1..], cutoff);
      assert es == [es[0]] + es[1..];
    }
  }

  lemma {:induction false} LiveAppend(es: seq<Entry>, e: Entry, cutoff: real)
    ensures Live(es + [e], cutoff) == if e.at >= cutoff then Live(es, cutoff) + [e] else Live(es, cutoff)
  {
    if es == [] {
    } else {
      assert (es + [e])[1..] == es[1..] + [e];
      LiveAppend(es[1..], e, cutoff);
    }
  }

  lemma {:induction false} LiveTwice(es: seq<Entry>, c: real, d: real)
    requires c <= d
    ensures Live(Live(es, c), d) == Live(es, d)
  {
    if es != [] {
      LiveTwice(es[1..], c, d);
      assert ([es[0]] + Live(es[1..], c))[1..] == Live(es[1..], c);
    }
  }

  lemma {:induction false} DropMembers(es: seq<Entry>, id: Id)
    requires UniqueIds(es)
    ensures forall e :: e in Drop(es, id) <==> e in es && e.id != id
    ensures UniqueIds(Drop(es, id))
  {
    if es != [] {
      assert es == [es[0]] + es[1..];
      if es[0].id != id { DropMembers(es[1..], id); }
    }
  }

  lemma {:induction false} DropAbsent(es: seq<Entry>, id: Id)
    requires forall e <- es :: e.id != id
    ensures Drop(es, id) == es
  {
    if es != [] { DropAbsent(es[1..], id); }
  }

  // Dropping an entry and forgetting old entries commute: it does not matter whether
  // the hold was still there when the list was pruned.
  lemma {:induction false} LiveDrop(es: seq<Entry>, id: Id, cutoff: real)
    requires UniqueIds(es)
    ensures Live(Drop(es, id), cutoff) == Drop(Live(es, cutoff), id)
  {
    if es == [] {
    } else if es[0].id == id {
      LiveMembers(es[1..], cutoff);
      DropAbsent(Live(es[1..], cutoff), id);
      assert ([es[0]] + Live(es[1..], cutoff))[1..] == Live(es[1..], cutoff);
    } else {
      LiveDrop(es[1..], id, cutoff);
      assert ([es[0]] + Drop(es[1..], id))[1..] == Drop(es[1..], id);
      assert ([es[0]] + Live(es[1..], cutoff))[1..] == Live(es[1..], cutoff);
    }
  }

  // ---- what every ledger state satisfies ---------------------------------

  ghost predicate Granted(s: State, id: Id) {
    exists g <- s.grants :: g.id == id
  }

  ghost predicate Inv(s: State) {
    && (forall u: User :: UniqueIds(Entries(s, u)))
    && (forall u: User, e: Entry :: e in Entries(s, u) ==> Granted(s, e.id))
    && (forall id <- s.closed :: Granted(s, id))
    && (forall i, j :: 0 <= i < j < |s.grants| ==> s.grants[i].id != s.grants[j].id)
  }

  lemma UniqueAppend(es: seq<Entry>, e: Entry)
    requires UniqueIds(es) && forall x <- es :: x.id != e.id
    ensures UniqueIds(es + [e])
  {
    forall i, j | 0 <= i < j < |es + [e]| ensures (es + [e])[i].id != (es + [e])[j].id {
      assert (es + [e])[i] == es[i];
      if j < |es| { assert (es + [e])[j] == es[j]; }
    }
  }

  lemma NextEntriesKeepsUnique(es: seq<Entry>, op: Op, window: real, keepAll: bool)
    requires UniqueIds(es) && (op.Reserve? ==> forall e <- es :: e.id != op.id)
    ensures UniqueIds(NextEntries(es, op, window, keepAll))
    ensures forall e <- NextEntries(es, op, window, keepAll) ::
              || e in es
              || (op.Settle? && e.id == op.hold.id)
              || (op.Reserve? && e.id == op.id && Fits(WindowSpend(es, op.now, window), op.amount, op.limit))
  {
    match op {
      case Spent(now, _) => LiveMembers(es, now - window);
      case Reserve(now, _, amount, _, id) =>
        var kept := if keepAll then es else Live(es, now - window);
        LiveMembers(es, now - window);
        UniqueAppend(kept, Entry(now, amount, id));
      case Settle(now, h, cost, _, _, _) =>
        DropMembers(es, h.id);
        UniqueAppend(Drop(es, h.id), Entry(now, cost, h.id));
      case Release(_, h) => DropMembers(es, h.id);
    }
  }

  lemma EntriesAfterStep(s: State, op: Op, window: real, keepAll: bool, u: User)
    ensures Entries(Step(s, op, window, keepAll), u)
         == if u == UserOf(op) && !Ignored(s, op) then NextEntries(Entries(s, u), op, window, keepAll)
            else Entries(s, u)
  {
  }

  lemma StepKeepsInv(s: State, op: Op, window: real, keepAll: bool)
    requires Inv(s) && Legal(s, op)
    ensures Inv(Step(s, op, window, keepAll))
  {
    var t := Step(s, op, window, keepAll);
    assert s.grants <= t.grants;
    forall id | Granted(s, id) ensures Granted(t, id) {
      var k :| 0 <= k < |s.grants| && s.grants[k].id == id;
      assert t.grants[k].id == id;
    }
    var es := Entries(s, UserOf(op));
    assert forall e <- es :: Granted(s, e.id);
    NextEntriesKeepsUnique(es, op, window, keepAll);
    forall u: User ensures UniqueIds(Entries(t, u)) {
      EntriesAfterStep(s, op, window, keepAll, u);
    }
    forall u: User, e: Entry | e in Entries(t, u) ensures Granted(t, e.id) {
      EntriesAfterStep(s, op, window, keepAll, u);
      if e in Entries(s, u) {
      } else if op.Reserve? {
        assert t.grants[|s.grants|].id == op.id;
      }
    }
  }

  // ---- pruning is invisible ----------------------------------------------

  ghost predicate Agree(p: State, f: State, since: real) {
    && p.records == f.records && p.closed == f.closed && p.grants == f.grants && p.journal == f.journal
    && forall u: User, c: real :: c >= since ==> Live(Entries(p, u), c) == Live(Entries(f, u), c)
  }

  // Taking an entry out, and perhaps a new one in, looks the same in both lists.
  lemma {:induction false} ReplacementAgrees(ps: seq<Entry>, fs: seq<Entry>, id: Id, e: Entry, c: real)
    requires UniqueIds(ps) && UniqueIds(fs) && Live(ps, c) == Live(fs, c)
    ensures Live(Drop(ps, id), c) == Live(Drop(fs, id), c)
    ensures Live(Drop(ps, id) + [e], c) == Live(Drop(fs, id) + [e], c)
  {
    LiveDrop(ps, id, c);
    LiveDrop(fs, id, c);
    LiveAppend(Drop(ps, id), e, c);
    LiveAppend(Drop(fs, id), e, c);
  }

  lemma NextEntriesAgree(ps: seq<Entry>, fs: seq<Entry>, op: Op, window: real, c: real)
    requires UniqueIds(ps) && UniqueIds(fs) && op.now - window <= c
    requires Live(ps, c) == Live(fs, c) && Live(ps, op.now - window) == Live(fs, op.now - window)
    ensures Live(NextEntries(ps, op, window, false), c) == Live(NextEntries(fs, op, window, true), c)
  {
    var at := op.now - window;
    match op {
      case Spent(_, _) =>
        LiveTwice(ps, at, c);
      case Reserve(now, _, amount, _, id) =>
        LiveTwice(ps, at, c);
        LiveAppend(Live(ps, at), Entry(now, amount, id), c);
        LiveAppend(fs, Entry(now, amount, id), c);
      case Settle(now, h, cost, _, _, _) => ReplacementAgrees(ps, fs, h.id, Entry(now, cost, h.id), c);
      case Release(now, h) => ReplacementAgrees(ps, fs, h.id, Entry(now, 0.0, h.id), c);
    }
  }

  lemma StepKeepsAgreement(p: State, f: State, op: Op, since: real, window: real)
    requires Inv(p) && Inv(f) && Agree(p, f, since) && since <= op.now - window
    ensures Reply(p, op, window) == Reply(f, op, window)
    ensures Agree(Step(p, op, window, false), Step(f, op, window, true), op.now - window)
  {
    var v, at := UserOf(op), op.now - window;
    assert Live(Entries(p, v), at) == Live(Entries(f, v), at);
    forall u: User, c: real | c >= at
      ensures Live(Entries(Step(p, op, window, false), u), c) == Live(Entries(Step(f, op, window, true), u), c)
    {
      EntriesAfterStep(p, op, window, false, u);
      EntriesAfterStep(f, op, window, true, u);
      assert Live(Entries(p, u), c) == Live(Entries(f, u), c);
      if u == v { NextEntriesAgree(Entries(p, u), Entries(f, u), op, window, c); }
    }
  }

  lemma {:induction false} RunKeepsInv(ops: seq<Op>, window: real, keepAll: bool)
    requires LegalRun(ops, window, keepAll)
    ensures Inv(Run(ops, window, keepAll))
  {
    if ops != [] {
      var n := |ops| - 1;
      RunKeepsInv(ops[..n], window, keepAll);
      StepKeepsInv(Run(ops[..n], window, keepAll), ops[n], window, keepAll);
    }
  }

  // On every run with a clock that never goes back, `spent` and the grant/deny answers
  // are those of the ledger that keeps everything, and so are the records, the
  // reservations handed out and the closings; the same runs are legal for both.
  lemma {:induction false} PruningIsInvisible(ops: seq<Op>, window: real)
    requires LegalRun(ops, window, false) || LegalRun(ops, window, true)
    ensures LegalRun(ops, window, false) && LegalRun(ops, window, true)
    ensures Replies(ops, window, false) == Replies(ops, window, true)
    ensures ops != [] ==> Agree(Run(ops, window, false), Run(ops, window, true), ops[|ops| - 1].now - window)
  {
    if ops != [] {
      var n := |ops| - 1;
      PruningIsInvisible(ops[..n], window);
      RunKeepsInv(ops[..n], window, false);
      RunKeepsInv(ops[..n], window, true);
      var since := if n > 0 then ops[n - 1].now - window else ops[n].now - window;
      StepKeepsAgreement(Run(ops[..n], window, false), Run(ops[..n], window, true), ops[n], since, window);
    }
  }
}
