/**
 The shared ledger and the in-process one give the same answers, except for entries whose
 age is exactly the window, which Redis drops and the in-process ledger keeps.
 */
module RedisAgreement {
  import opened LedgerModel
  import opened LedgerRefinement
  import opened RedisModel

  // ---- sums --------------------------------------------------------------

  lemma {:induction false} UnitTotalRemove(ms: set<Member>, m: Member)
    requires m in ms
    ensures UnitTotal(ms) == m.units + UnitTotal(ms - {m})
  {
    var k :| k in ms && UnitTotal(ms) == k.units + UnitTotal(ms - {k});
    if k != m {
      UnitTotalRemove(ms - {k}, m);
      UnitTotalRemove(ms - {m}, k);
      assert ms - {k} - {m} == ms - {m} - {k};
    }
  }

  // Amounts that the ten-digit text represents exactly.
  predicate Exact(usd: real) {
    Usd(Units(usd)) == usd
  }

  function AsMember(e: Entry): Member {
    Member(e.id, Units(e.amount))
  }

  // Members and total of the entries strictly younger than the cutoff.
  function MembersAfter(es: seq<Entry>, cutoff: real): set<Member> {
    if es == [] then {}
    else if es[0].at > cutoff then {AsMember(es[0])} + MembersAfter(es[1..], cutoff)
    else MembersAfter(es[1..], cutoff)
  }

  function TotalAt(es: seq<Entry>, at: real): real {
    if es == [] then 0.0 else (if es[0].at == at then es[0].amount else 0.0) + TotalAt(es[1..], at)
  }

  lemma {:induction false} MembersAfterMembers(es: seq<Entry>, cutoff: real)
    ensures forall m :: m in MembersAfter(es, cutoff) <==> exists e <- es :: e.at > cutoff && m == AsMember(e)
  {
    if es != [] {
      MembersAfterMembers(es[1..], cutoff);
      assert es == [es[0]] + es[1..];
    }
  }

  // The in-process sum is the Redis sum plus the entries of age exactly the window.
  lemma {:induction false} TotalSplits(es: seq<Entry>, cutoff: real)
    requires UniqueIds(es) && forall e <- es :: Exact(e.amount)
    ensures Total(Live(es, cutoff)) == Usd(UnitTotal(MembersAfter(es, cutoff))) + TotalAt(es, cutoff)
  {
    if es != [] {
      var rest := MembersAfter(es[1..], cutoff);
      TotalSplits(es[1..], cutoff);
      if es[0].at > cutoff {
        MembersAfterMembers(es[1..], cutoff);
        assert AsMember(es[0]) !in rest;
        UnitTotalRemove({AsMember(es[0])} + rest, AsMember(es[0]));
        assert {AsMember(es[0])} + rest - {AsMember(es[0])} == rest;
      }
    }
  }

  // ---- a key against the reference list ----------------------------------

  // Every member is an entry, every entry younger than `since` is a member, and the key
  // outlives the window of each of its members.
  ghost predicate Linked(k: Key, es: seq<Entry>, since: real, window: real) {
    && (forall m <- k.members ::
          Entry(k.members[m], Usd(m.units), m.id) in es && k.members[m] + window < k.expireAt)
    && (forall e <- es :: e.at > since ==> AsMember(e) in k.members && k.members[AsMember(e)] == e.at)
    && (forall e <- es :: Exact(e.amount) && e.at <= since + window)
  }

  // Expiry never hides a member still inside the window.
  lemma ExpiryIsHarmless(k: Key, es: seq<Entry>, since: real, now: real, window: real)
    requires Linked(k, es, since, window)
    ensures Trim(Visible(k, now), now - window) == Trim(k.members, now - window)
    ensures since <= now - window ==> Linked(Key(Visible(k, now), k.expireAt), es, now - window, window)
    ensures since <= now - window ==> Linked(Key(Trim(k.members, now - window), k.expireAt), es, now - window, window)
  {
  }

  lemma UnitsOfUsd(units: int)
    ensures Units(Usd(units)) == units
  {
    assert Usd(units) * UNITS_PER_USD == units as real;
  }

  // The members inside the window are the entries inside it.
  lemma {:induction false} KeptMembers(k: Key, es: seq<Entry>, since: real, cutoff: real, window: real)
    requires Linked(k, es, since, window) && since <= cutoff
    ensures Trim(k.members, cutoff).Keys == MembersAfter(es, cutoff)
  {
    var kept := Trim(k.members, cutoff);
    MembersAfterMembers(es, cutoff);
    forall m <- kept ensures m in MembersAfter(es, cutoff) {
      var e := Entry(kept[m], Usd(m.units), m.id);
      UnitsOfUsd(m.units);
      assert e in es && AsMember(e) == m;
    }
    forall m <- MembersAfter(es, cutoff) ensures m in kept {
      var e :| e in es && e.at > cutoff && m == AsMember(e);
    }
  }

  // One call: Redis reads less than the in-process ledger by exactly what the user has
  // in entries whose age is the window to the instant.
  lemma {:induction false} ReadsDifferByBoundary(k: Key, es: seq<Entry>, since: real, now: real, window: real)
    requires UniqueIds(es) && Linked(k, es, since, window) && since <= now - window
    ensures WindowSpend(es, now, window) == WindowTotal(k, now, window) + TotalAt(es, now - window)
  {
    ExpiryIsHarmless(k, es, since, now, window);
    KeptMembers(k, es, since, now - window, window);
    TotalSplits(es, now - window);
  }

  lemma AddKeepsLink(k: Key, es: seq<Entry>, e: Entry, since: real, window: real)
    requires Linked(k, es, since, window) && Exact(e.amount) && e.at == since + window
    requires forall x <- es :: x.id != e.id
    ensures Linked(Key(k.members[AsMember(e) := e.at], e.at + Ttl(window)), es + [e], since, window)
  {
  }

  lemma {:induction false} DropKeepsLink(k: Key, es: seq<Entry>, id: Id, since: real, window: real)
    requires UniqueIds(es) && Linked(k, es, since, window)
    ensures Linked(Key(Without(k.members, id), k.expireAt), Drop(es, id), since, window)
  {
    DropMembers(es, id);
  }

  // What the reserve script leaves under a key whose expiry hides nothing.
  lemma KeyAfterReserve(k: Key, op: Op, window: real)
    requires op.Reserve? && Trim(Visible(k, op.now), op.now - window) == Trim(k.members, op.now - window)
    ensures var kept := Trim(k.members, op.now - window);
            NextKey(k, op, window)
            == if Fits(WindowTotal(k, op.now, window), op.amount, op.limit)
               then Key(kept[Member(op.id, Units(op.amount)) := op.now], op.now + Ttl(window))
               else Key(kept, k.expireAt)
  {
  }

  // The money of age exactly the window does not flip the decision of a reservation.
  predicate Unflipped(es: seq<Entry>, op: Op, window: real) {
    op.Reserve? ==>
      var spent, boundary := WindowSpend(es, op.now, window), TotalAt(es, op.now - window);
      Fits(spent - boundary, op.amount, op.limit) <==> Fits(spent, op.amount, op.limit)
  }

  // A trimmed key, reserved from, is linked to the list reserved from.
  lemma TrimmedReserveLinks(k: Key, es: seq<Entry>, op: Op, window: real)
    requires op.Reserve? && Exact(op.amount) && (forall e <- es :: e.id != op.id)
    requires Trim(Visible(k, op.now), op.now - window) == Trim(k.members, op.now - window)
    requires Linked(Key(Trim(k.members, op.now - window), k.expireAt), es, op.now - window, window)
    requires Fits(WindowTotal(k, op.now, window), op.amount, op.limit)
         <==> Fits(WindowSpend(es, op.now, window), op.amount, op.limit)
    ensures Linked(NextKey(k, op, window), NextEntries(es, op, window, true), op.now - window, window)
  {
    var kept, e := Trim(k.members, op.now - window), Entry(op.now, op.amount, op.id);
    KeyAfterReserve(k, op, window);
    if Fits(WindowSpend(es, op.now, window), op.amount, op.limit) {
      assert NextEntries(es, op, window, true) == es + [e];
      AddKeepsLink(Key(kept, k.expireAt), es, e, op.now - window, window);
    } else {
      assert NextEntries(es, op, window, true) == es;
    }
  }

  lemma ReserveKeepsLink(k: Key, es: seq<Entry>, op: Op, since: real, window: real)
    requires op.Reserve? && Exact(op.amount) && (forall e <- es :: e.id != op.id)
    requires UniqueIds(es) && Linked(k, es, since, window) && since <= op.now - window
    requires Unflipped(es, op, window)
    ensures Linked(NextKey(k, op, window), NextEntries(es, op, window, true), op.now - window, window)
  {
    ReadsDifferByBoundary(k, es, since, op.now, window);
    ExpiryIsHarmless(k, es, since, op.now, window);
    TrimmedReserveLinks(k, es, op, window);
  }

  lemma SettleKeepsLink(k: Key, es: seq<Entry>, op: Op, since: real, window: real)
    requires op.Settle? && Exact(op.cost)
    requires UniqueIds(es) && Linked(k, es, since, window) && since <= op.now - window
    ensures Linked(NextKey(k, op, window), NextEntries(es, op, window, true), op.now - window, window)
  {
    var at, id := op.now - window, op.hold.id;
    var seen := Visible(k, op.now);
    ExpiryIsHarmless(k, es, since, op.now, window);
    DropMembers(es, id);
    DropKeepsLink(Key(seen, k.expireAt), es, id, at, window);
    AddKeepsLink(Key(Without(seen, id), k.expireAt), Drop(es, id), Entry(op.now, op.cost, id), at, window);
  }

  lemma NextKeyKeepsLink(k: Key, es: seq<Entry>, op: Op, since: real, window: real)
    requires UniqueIds(es) && Linked(k, es, since, window) && since <= op.now - window
    requires op.Reserve? ==> Exact(op.amount) && forall e <- es :: e.id != op.id
    requires Unflipped(es, op, window)
    requires op.Settle? ==> Exact(op.cost)
    ensures Linked(NextKey(k, op, window), NextEntries(es, op, window, true), op.now - window, window)
  {
    match op {
      case Spent(_, _) => ExpiryIsHarmless(k, es, since, op.now, window);
      case Reserve(_, _, _, _, _) => ReserveKeepsLink(k, es, op, since, window);
      case Settle(_, _, _, _, _, _) => SettleKeepsLink(k, es, op, since, window);
      case Release(_, h) =>
        ExpiryIsHarmless(k, es, since, op.now, window);
        DropKeepsLink(Key(Visible(k, op.now), k.expireAt), es, h.id, op.now - window, window);
    }
  }

  // Storing a key, or deleting it once it is empty.
  lemma PutKeepsLink(store: map<User, Key>, v: User, k: Key, es: seq<Entry>, since: real, window: real)
    requires Linked(k, es, since, window)
    ensures Linked(KeyOf(Put(store, v, k), v), es, since, window)
  {
  }

  // ---- runs --------------------------------------------------------------

  ghost predicate Matches(r: RedisState, f: State, since: real, window: real) {
    && r.closed == f.closed && r.grants == f.grants
    && forall u: User :: Linked(KeyOf(r.store, u), Entries(f, u), since, window)
  }

  predicate ExactOp(op: Op) {
    (op.Reserve? ==> Exact(op.amount)) && (op.Settle? ==> Exact(op.cost))
  }

  lemma KeyAfterStep(r: RedisState, op: Op, window: real, u: User)
    ensures KeyOf(RedisStep(r, op, window).store, u)
         == if u == UserOf(op) && !Skipped(r, op) then KeyOf(Put(r.store, u, NextKey(KeyOf(r.store, u), op, window)), u)
            else KeyOf(r.store, u)
  {
  }

  lemma LinkOutlives(k: Key, es: seq<Entry>, since: real, later: real, window: real)
    requires Linked(k, es, since, window) && since <= later
    ensures Linked(k, es, later, window)
  {
  }

  lemma StepKeepsLink(r: RedisState, f: State, op: Op, since: real, window: real, u: User)
    requires Inv(f) && Legal(f, op) && Matches(r, f, since, window) && since <= op.now - window
    requires ExactOp(op) && Unflipped(Entries(f, UserOf(op)), op, window)
    ensures Linked(KeyOf(RedisStep(r, op, window).store, u),
                   Entries(Step(f, op, window, true), u), op.now - window, window)
  {
    var k, es, at := KeyOf(r.store, u), Entries(f, u), op.now - window;
    assert Linked(k, es, since, window);
    KeyAfterStep(r, op, window, u);
    EntriesAfterStep(f, op, window, true, u);
    if u == UserOf(op) && !Skipped(r, op) {
      assert op.Reserve? ==> forall e <- es :: Granted(f, e.id);
      NextKeyKeepsLink(k, es, op, since, window);
      PutKeepsLink(r.store, u, NextKey(k, op, window), NextEntries(es, op, window, true), at, window);
    } else {
      LinkOutlives(k, es, since, at, window);
    }
  }

  lemma StepKeepsMatch(r: RedisState, f: State, op: Op, since: real, window: real)
    requires Inv(f) && Legal(f, op) && Matches(r, f, since, window) && since <= op.now - window
    requires ExactOp(op) && Unflipped(Entries(f, UserOf(op)), op, window)
    ensures Matches(RedisStep(r, op, window), Step(f, op, window, true), op.now - window, window)
  {
    MatchingReply(r, f, op, since, window);
    forall u: User ensures Linked(KeyOf(RedisStep(r, op, window).store, u),
                                  Entries(Step(f, op, window, true), u), op.now - window, window)
    {
      StepKeepsLink(r, f, op, since, window, u);
    }
  }

  // What a command reads of matching states differs by the boundary money only.
  lemma {:induction false} MatchingReply(r: RedisState, f: State, op: Op, since: real, window: real)
    requires Inv(f) && Matches(r, f, since, window) && since <= op.now - window
    ensures WindowSpend(Entries(f, UserOf(op)), op.now, window)
         == WindowTotal(KeyOf(r.store, UserOf(op)), op.now, window) + TotalAt(Entries(f, UserOf(op)), op.now - window)
  {
    ReadsDifferByBoundary(KeyOf(r.store, UserOf(op)), Entries(f, UserOf(op)), since, op.now, window);
  }

  lemma {:induction false} TotalAtLive(es: seq<Entry>, at: real)
    ensures TotalAt(Live(es, at), at) == TotalAt(es, at)
  {
    if es != [] {
      TotalAtLive(es[1..], at);
      assert ([es[0]] + Live(es[1..], at))[1..] == Live(es[1..], at);
    }
  }

  // Every amount of the run is represented exactly.
  predicate ExactRun(ops: seq<Op>) {
    ops != [] ==> ExactRun(ops[..|ops| - 1]) && ExactOp(ops[|ops| - 1])
  }

  // At no reservation of the run does the in-process ledger hold money of age exactly the
  // window that flips the decision.
  predicate Undisturbed(ops: seq<Op>, window: real) {
    ops != [] ==>
      var n := |ops| - 1;
      && Undisturbed(ops[..n], window)
      && Unflipped(Entries(Run(ops[..n], window, false), UserOf(ops[n])), ops[n], window)
  }

  lemma {:induction false} UnflippedAgrees(ps: seq<Entry>, fs: seq<Entry>, op: Op, window: real)
    requires Live(ps, op.now - window) == Live(fs, op.now - window)
    ensures Unflipped(ps, op, window) <==> Unflipped(fs, op, window)
  {
    TotalAtLive(ps, op.now - window);
    TotalAtLive(fs, op.now - window);
  }

  lemma {:induction false} AgreeingLive(p: State, f: State, since: real, u: User, at: real)
    requires Agree(p, f, since) && since <= at
    ensures Live(Entries(p, u), at) == Live(Entries(f, u), at)
  {
  }

  lemma MatchingStep(r: RedisState, p: State, f: State, op: Op, before: real, since: real, window: real)
    requires Inv(f) && Legal(f, op) && Agree(p, f, before) && before <= op.now - window <= since
    requires Matches(r, f, op.now - window, window)
    requires ExactOp(op) && Unflipped(Entries(p, UserOf(op)), op, window)
    ensures Matches(RedisStep(r, op, window), Step(f, op, window, true), since, window)
  {
    AgreeingLive(p, f, before, UserOf(op), op.now - window);
    UnflippedAgrees(Entries(p, UserOf(op)), Entries(f, UserOf(op)), op, window);
    StepKeepsMatch(r, f, op, op.now - window, window);
    MatchOutlives(RedisStep(r, op, window), Step(f, op, window, true), op.now - window, since, window);
  }

  // What a run leaves for its last op to start from.
  lemma {:induction false} BeforeLast(ops: seq<Op>, window: real)
    requires LegalRun(ops, window, true) && ops != []
    ensures var n := |ops| - 1;
            var since := if n > 0 then ops[n - 1].now - window else ops[n].now - window;
            && Inv(Run(ops[..n], window, true)) && Legal(Run(ops[..n], window, true), ops[n])
            && Agree(Run(ops[..n], window, false), Run(ops[..n], window, true), since)
            && since <= ops[n].now - window
  {
    RunKeepsInv(ops[..|ops| - 1], window, true);
    PruningIsInvisible(ops[..|ops| - 1], window);
  }

  lemma {:induction false} LastStep(ops: seq<Op>, window: real)
    requires ops != []
    ensures var n := |ops| - 1;
            && RedisRun(ops, window) == RedisStep(RedisRun(ops[..n], window), ops[n], window)
            && Run(ops, window, true) == Step(Run(ops[..n], window, true), ops[n], window, true)
  {
  }

  // The last op of a run takes matching states to matching states.
  lemma {:induction false} LastOpMatches(ops: seq<Op>, window: real, since: real)
    requires LegalRun(ops, window, true) && ops != [] && ops[|ops| - 1].now - window <= since
    requires var n := |ops| - 1;
             && Matches(RedisRun(ops[..n], window), Run(ops[..n], window, true), ops[n].now - window, window)
             && ExactOp(ops[n]) && Unflipped(Entries(Run(ops[..n], window, false), UserOf(ops[n])), ops[n], window)
    ensures var n := |ops| - 1;
            Matches(RedisStep(RedisRun(ops[..n], window), ops[n], window),
                    Step(Run(ops[..n], window, true), ops[n], window, true), since, window)
  {
    var op, n := ops[|ops| - 1], |ops| - 1;
    BeforeLast(ops, window);
    var r, p, f := RedisRun(ops[..n], window), Run(ops[..n], window, false), Run(ops[..n], window, true);
    MatchingStep(r, p, f, op, if n > 0 then ops[n - 1].now - window else op.now - window, since, window);
  }

  lemma {:induction false} RunMatches(ops: seq<Op>, window: real, since: real)
    requires LegalRun(ops, window, true) && ExactRun(ops) && Undisturbed(ops, window)
    requires ops != [] ==> ops[|ops| - 1].now - window <= since
    ensures Matches(RedisRun(ops, window), Run(ops, window, true), since, window)
  {
    if ops != [] {
      RunMatches(ops[..|ops| - 1], window, ops[|ops| - 1].now - window);
      LastStep(ops, window);
      LastOpMatches(ops, window, since);
    }
  }

  lemma MatchOutlives(r: RedisState, f: State, since: real, later: real, window: real)
    requires Matches(r, f, since, window) && since <= later
    ensures Matches(r, f, later, window)
  {
    forall u: User ensures Linked(KeyOf(r.store, u), Entries(f, u), later, window) {
      LinkOutlives(KeyOf(r.store, u), Entries(f, u), since, later, window);
    }
  }

  // ---- when the two ledgers agree -----------------------------------------

  // The in-process reading exceeds the Redis reading by the money of age exactly the window.
  ghost predicate DifferByBoundary(r: RedisState, p: State, u: User, now: real, window: real) {
    WindowSpend(Entries(p, u), now, window)
    == WindowTotal(KeyOf(r.store, u), now, window) + TotalAt(Entries(p, u), now - window)
  }

  lemma {:induction false} BoundaryReading(k: Key, ps: seq<Entry>, fs: seq<Entry>, now: real, window: real)
    requires UniqueIds(fs) && Linked(k, fs, now - window, window)
    requires Live(ps, now - window) == Live(fs, now - window)
    ensures WindowSpend(ps, now, window) == WindowTotal(k, now, window) + TotalAt(ps, now - window)
  {
    TotalAtLive(ps, now - window);
    TotalAtLive(fs, now - window);
    ReadsDifferByBoundary(k, fs, now - window, now, window);
  }

  lemma StatesDifferByBoundary(r: RedisState, p: State, f: State, since: real, u: User, now: real, window: real)
    requires Inv(f) && Agree(p, f, since) && Matches(r, f, now - window, window) && since <= now - window
    ensures DifferByBoundary(r, p, u, now, window)
  {
    assert Live(Entries(p, u), now - window) == Live(Entries(f, u), now - window);
    assert Linked(KeyOf(r.store, u), Entries(f, u), now - window, window);
    BoundaryReading(KeyOf(r.store, u), Entries(p, u), Entries(f, u), now, window);
  }

  // Whatever was read before, after a run whose reservations met no flip the next reading
  // differs by exactly that money, so the two ledgers read alike if and only if it is zero.
  lemma {:induction false} NextReadDiffersByBoundary(ops: seq<Op>, window: real, u: User, now: real)
    requires LegalRun(ops, window, false) && ExactRun(ops) && Undisturbed(ops, window)
    requires ops != [] ==> ops[|ops| - 1].now <= now
    ensures DifferByBoundary(RedisRun(ops, window), Run(ops, window, false), u, now, window)
  {
    PruningIsInvisible(ops, window);
    RunMatches(ops, window, now - window);
    RunKeepsInv(ops, window, true);
    StatesDifferByBoundary(RedisRun(ops, window), Run(ops, window, false), Run(ops, window, true),
                           if ops == [] then now - window else ops[|ops| - 1].now - window, u, now, window);
  }

  // The two ledgers decide `op` alike.
  ghost predicate SameDecision(r: RedisState, p: State, op: Op, window: real) {
    op.Reserve? ==> RedisReply(r, op, window).granted == Reply(p, op, window).granted
  }

  lemma DecisionsDiffer(r: RedisState, p: State, op: Op, window: real)
    requires DifferByBoundary(r, p, UserOf(op), op.now, window)
    ensures SameDecision(r, p, op, window) <==> Unflipped(Entries(p, UserOf(op)), op, window)
  {
  }

  // The next reservation is decided alike if and only if that money does not flip it.
  lemma {:induction false} NextReserveDiffersByBoundary(ops: seq<Op>, window: real, op: Op)
    requires LegalRun(ops, window, false) && ExactRun(ops) && Undisturbed(ops, window)
    requires ops != [] ==> ops[|ops| - 1].now <= op.now
    ensures var r, p := RedisRun(ops, window), Run(ops, window, false);
            SameDecision(r, p, op, window) <==> Unflipped(Entries(p, UserOf(op)), op, window)
  {
    NextReadDiffersByBoundary(ops, window, UserOf(op), op.now);
    DecisionsDiffer(RedisRun(ops, window), Run(ops, window, false), op, window);
  }

  // Every reservation of the run is decided alike.
  ghost predicate DecidedAlike(ops: seq<Op>, window: real) {
    ops != [] ==>
      var n := |ops| - 1;
      && DecidedAlike(ops[..n], window)
      && SameDecision(RedisRun(ops[..n], window), Run(ops[..n], window, false), ops[n], window)
  }

  // Over whole runs: all reservations are decided alike if and only if at none of them the
  // money of age exactly the window flips the decision.
  lemma {:induction false} DecisionsAgreeCondition(ops: seq<Op>, window: real)
    requires LegalRun(ops, window, false) && ExactRun(ops)
    ensures DecidedAlike(ops, window) <==> Undisturbed(ops, window)
  {
    if ops != [] {
      var n := |ops| - 1;
      DecisionsAgreeCondition(ops[..n], window);
      if Undisturbed(ops[..n], window) { NextReserveDiffersByBoundary(ops[..n], window, ops[n]); }
    }
  }

  // The in-process ledger holds nothing of age exactly the window when it is read.
  predicate OffBoundary(es: seq<Entry>, op: Op, window: real) {
    op.Spent? || op.Reserve? ==> TotalAt(es, op.now - window) == 0.0
  }

  predicate Comparable(ops: seq<Op>, window: real) {
    ops != [] ==>
      var n := |ops| - 1;
      && Comparable(ops[..n], window)
      && OffBoundary(Entries(Run(ops[..n], window, false), UserOf(ops[n])), ops[n], window)
  }

  lemma {:induction false} ComparableIsUndisturbed(ops: seq<Op>, window: real)
    requires Comparable(ops, window)
    ensures Undisturbed(ops, window)
  {
    if ops != [] { ComparableIsUndisturbed(ops[..|ops| - 1], window); }
  }

  lemma RepliesDiffer(r: RedisState, p: State, op: Op, window: real)
    requires DifferByBoundary(r, p, UserOf(op), op.now, window)
    ensures RedisReply(r, op, window) == Reply(p, op, window) <==> OffBoundary(Entries(p, UserOf(op)), op, window)
  {
  }

  lemma {:induction false} ReplyCounts(ops: seq<Op>, window: real)
    ensures |RedisReplies(ops, window)| == |Replies(ops, window, false)| == |ops|
  {
    if ops != [] { ReplyCounts(ops[..|ops| - 1], window); }
  }

  lemma {:induction false} LastReplies(ops: seq<Op>, window: real)
    requires ops != []
    ensures var n := |ops| - 1;
            RedisReplies(ops, window) == Replies(ops, window, false)
            <==> && RedisReplies(ops[..n], window) == Replies(ops[..n], window, false)
                 && RedisReply(RedisRun(ops[..n], window), ops[n], window)
                    == Reply(Run(ops[..n], window, false), ops[n], window)
  {
    var n := |ops| - 1;
    ReplyCounts(ops[..n], window);
    var rs, ps := RedisReplies(ops[..n], window), Replies(ops[..n], window, false);
    assert RedisReplies(ops, window)[..n] == rs && Replies(ops, window, false)[..n] == ps;
    assert RedisReplies(ops, window)[n] == RedisReply(RedisRun(ops[..n], window), ops[n], window);
    assert Replies(ops, window, false)[n] == Reply(Run(ops[..n], window, false), ops[n], window);
  }

  // The scripts give every answer of the in-process ledger, amounts included, if and only if
  // the ledger is never read while it holds money of age exactly the window.
  lemma {:induction false} RedisAnswersAlike(ops: seq<Op>, window: real)
    requires LegalRun(ops, window, false) && ExactRun(ops)
    ensures RedisReplies(ops, window) == Replies(ops, window, false) <==> Comparable(ops, window)
  {
    if ops != [] {
      var n := |ops| - 1;
      RedisAnswersAlike(ops[..n], window);
      LastReplies(ops, window);
      if Comparable(ops[..n], window) {
        ComparableIsUndisturbed(ops[..n], window);
        NextReadDiffersByBoundary(ops[..n], window, UserOf(ops[n]), ops[n].now);
        RepliesDiffer(RedisRun(ops[..n], window), Run(ops[..n], window, false), ops[n], window);
      }
    }
  }

  // While all reservations are decided alike, the two ledgers have granted the same ones and
  // closed the same ones.
  lemma {:induction false} SameGrantsAndClosings(ops: seq<Op>, window: real)
    requires LegalRun(ops, window, false) && ExactRun(ops) && DecidedAlike(ops, window)
    ensures var r, p := RedisRun(ops, window), Run(ops, window, false);
            r.grants == p.grants && r.closed == p.closed
  {
    DecisionsAgreeCondition(ops, window);
    PruningIsInvisible(ops, window);
    RunMatches(ops, window, if ops == [] then 0.0 else ops[|ops| - 1].now - window);
  }

  // The boundary is real: money held at time 0 is still counted in process at the instant
  // the window ends, and no longer counted by Redis.
  lemma BoundaryExample(u: User, limit: real)
    requires limit >= 1.0
    ensures var ops := [Reserve(0.0, u, 1.0, limit, 0)];
            && LegalRun(ops, 10.0, false) && ExactRun(ops) && DecidedAlike(ops, 10.0)
            && Reply(Run(ops, 10.0, false), Spent(10.0, u), 10.0) == Amount(1.0)
            && RedisReply(RedisRun(ops, 10.0), Spent(10.0, u), 10.0) == Amount(0.0)
  {
    var op := Reserve(0.0, u, 1.0, limit, 0);
    var ops, e := [op], Entry(0.0, 1.0, 0);
    assert ops[..0] == [];
    UnitsOfUsd(10000000000);
    assert Entries(INIT, u) == [] && Live([], -10.0) == [];
    assert Run(ops, 10.0, false) == Step(INIT, op, 10.0, false);
    assert Entries(Run(ops, 10.0, false), u) == [e];
    assert Live([e][1..], 0.0) == [] && Live([e], 0.0) == [e] && TotalAt([e], 0.0) == 1.0;
    DecisionsAgreeCondition(ops, 10.0);
    NextReadDiffersByBoundary(ops, 10.0, u, 10.0);
  }

  // ---- key expiry over runs ----------------------------------------------

  predicate Clocked(ops: seq<Op>) {
    forall i, j :: 0 <= i < j < |ops| ==> ops[i].now <= ops[j].now
  }

  // No member is stamped after `now`, and the key outlives the window of each.
  ghost predicate KeyOutlives(k: Key, now: real, window: real) {
    forall m <- k.members :: k.members[m] <= now && k.members[m] + window < k.expireAt
  }

  ghost predicate Outlives(r: RedisState, now: real, window: real) {
    forall u: User :: KeyOutlives(KeyOf(r.store, u), now, window)
  }

  lemma StepKeepsKey(k: Key, op: Op, window: real)
    requires KeyOutlives(k, op.now, window)
    ensures KeyOutlives(NextKey(k, op, window), op.now, window)
  {
  }

  lemma StepOutlives(r: RedisState, op: Op, before: real, window: real)
    requires Outlives(r, before, window) && before <= op.now
    ensures Outlives(RedisStep(r, op, window), op.now, window)
  {
    forall u: User ensures KeyOutlives(KeyOf(RedisStep(r, op, window).store, u), op.now, window) {
      KeyAfterStep(r, op, window, u);
      assert KeyOutlives(KeyOf(r.store, u), op.now, window);
      StepKeepsKey(KeyOf(r.store, u), op, window);
    }
  }

  // In every run with a clock that never goes back, expiry never hides a member that is
  // still inside the window: what a command keeps of the visible members is what it would
  // keep of all of them.
  lemma {:induction false} ExpiryHidesNothing(ops: seq<Op>, window: real, u: User, now: real)
    requires Clocked(ops) && (ops != [] ==> ops[|ops| - 1].now <= now)
    ensures Outlives(RedisRun(ops, window), now, window)
    ensures var k := KeyOf(RedisRun(ops, window).store, u);
            Trim(Visible(k, now), now - window) == Trim(k.members, now - window)
  {
    if ops != [] {
      var n := |ops| - 1;
      ExpiryHidesNothing(ops[..n], window, u, ops[n].now);
      StepOutlives(RedisRun(ops[..n], window), ops[n], ops[n].now, window);
    }
    var k := KeyOf(RedisRun(ops, window).store, u);
    assert KeyOutlives(k, now, window);
  }
}
