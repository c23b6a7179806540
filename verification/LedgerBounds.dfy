/**
 What the ledger promises about money: `spent` is the settled cost plus the open holds
 inside the window, no reservation is closed twice, and the spend of any window is capped.
 */
module LedgerBounds {
  import opened LedgerModel
  import opened LedgerRefinement

  // ---- sums over the history ---------------------------------------------

  predicate ChargedIn(c: Closing, u: User, from: real, to: real) {
    c.Charged? && c.hold.user == u && from <= c.record.at <= to
  }

  // Settled cost of `u` stamped within [from, to].
  function SettledCost(journal: seq<Closing>, u: User, from: real, to: real): real {
    if journal == [] then 0.0 else
    var c := journal[|journal| - 1];
    SettledCost(journal[..|journal| - 1], u, from, to) + if ChargedIn(c, u, from, to) then c.record.cost else 0.0
  }

  // The part of a charge that a hold still in the window covered when it was settled.
  function Covered(c: Closing, window: real): real
    requires c.Charged?
  {
    var held := if c.hold.at >= c.record.at - window then c.hold.amount else 0.0;
    if c.record.cost <= held then c.record.cost else held
  }

  function CoveredCost(journal: seq<Closing>, u: User, from: real, to: real, window: real): real {
    if journal == [] then 0.0 else
    var c := journal[|journal| - 1];
    CoveredCost(journal[..|journal| - 1], u, from, to, window)
    + if ChargedIn(c, u, from, to) then Covered(c, window) else 0.0
  }

  // What the charges cost beyond what live holds covered.
  function Overruns(journal: seq<Closing>, u: User, from: real, to: real, window: real): real {
    if journal == [] then 0.0 else
    var c := journal[|journal| - 1];
    Overruns(journal[..|journal| - 1], u, from, to, window)
    + if ChargedIn(c, u, from, to) then c.record.cost - Covered(c, window) else 0.0
  }

  lemma {:induction false} CostSplits(journal: seq<Closing>, u: User, from: real, to: real, window: real)
    ensures SettledCost(journal, u, from, to)
         == CoveredCost(journal, u, from, to, window) + Overruns(journal, u, from, to, window)
  {
    if journal != [] { CostSplits(journal[..|journal| - 1], u, from, to, window); }
  }

  // What a settle or release that takes effect leaves in the journal.
  function ClosingOf(op: Op): Closing
    requires op.Settle? || op.Release?
  {
    if op.Release? then Refunded(op.hold)
    else Charged(op.hold, UsageRecord(op.hold.user, op.model, op.inputTokens, op.outputTokens, op.cost, op.now))
  }

  predicate IsOpen(h: Hold, closed: set<Id>, u: User, from: real) {
    h.user == u && h.id !in closed && h.at >= from
  }

  // Open holds of `u` taken at or after `from`.
  function OpenHolds(grants: seq<Hold>, closed: set<Id>, u: User, from: real): real {
    if grants == [] then 0.0 else
    var h := grants[|grants| - 1];
    OpenHolds(grants[..|grants| - 1], closed, u, from) + if IsOpen(h, closed, u, from) then h.amount else 0.0
  }

  lemma {:induction false} OneMoreClosing(journal: seq<Closing>, c: Closing, u: User, from: real, to: real,
                                          window: real)
    ensures SettledCost(journal + [c], u, from, to)
         == SettledCost(journal, u, from, to) + if ChargedIn(c, u, from, to) then c.record.cost else 0.0
    ensures CoveredCost(journal + [c], u, from, to, window)
         == CoveredCost(journal, u, from, to, window) + if ChargedIn(c, u, from, to) then Covered(c, window) else 0.0
  {
    assert (journal + [c])[..|journal|] == journal;
  }

  lemma {:induction false} OneMoreHold(grants: seq<Hold>, h: Hold, closed: set<Id>, u: User, from: real)
    ensures OpenHolds(grants + [h], closed, u, from)
         == OpenHolds(grants, closed, u, from) + if IsOpen(h, closed, u, from) then h.amount else 0.0
  {
    assert (grants + [h])[..|grants|] == grants;
  }

  // ---- the reference ledger holds exactly the open holds and the charges --

  ghost predicate HoldsPresent(s: State) {
    forall h <- s.grants :: h.id !in s.closed ==> Entry(h.at, h.amount, h.id) in Entries(s, h.user)
  }

  lemma {:induction false} TotalAppend(es: seq<Entry>, e: Entry)
    ensures Total(es + [e]) == Total(es) + e.amount
  {
    if es == [] {
    } else {
      assert (es + [e])[1..] == es[1..] + [e];
      TotalAppend(es[1..], e);
    }
  }

  lemma {:induction false} TotalDrop(es: seq<Entry>, e: Entry, c: real)
    requires UniqueIds(es) && e in es
    ensures Total(Live(es, c)) == Total(Live(Drop(es, e.id), c)) + if e.at >= c then e.amount else 0.0
  {
    if es[0] == e {
    } else {
      var k :| 0 <= k < |es| && es[k] == e;
      assert es[0].id != e.id;
      TotalDrop(es[1..], e, c);
      assert Drop(es, e.id)[1..] == Drop(es[1..], e.id);
    }
  }

  lemma {:induction false} CloseAbsent(grants: seq<Hold>, closed: set<Id>, id: Id, u: User, from: real)
    requires forall g <- grants :: g.id != id
    ensures OpenHolds(grants, closed + {id}, u, from) == OpenHolds(grants, closed, u, from)
  {
    if grants != [] {
      CloseAbsent(grants[..|grants| - 1], closed, id, u, from);
    }
  }

  lemma {:induction false} Close(grants: seq<Hold>, closed: set<Id>, h: Hold, u: User, from: real)
    requires forall i, j :: 0 <= i < j < |grants| ==> grants[i].id != grants[j].id
    requires h in grants && h.id !in closed
    ensures OpenHolds(grants, closed, u, from)
         == OpenHolds(grants, closed + {h.id}, u, from) + if IsOpen(h, closed, u, from) then h.amount else 0.0
  {
    var before := grants[..|grants| - 1];
    if grants[|grants| - 1] == h {
      CloseAbsent(before, closed, h.id, u, from);
    } else {
      Close(before, closed, h, u, from);
    }
  }

  lemma StepKeepsHoldsPresent(s: State, op: Op, window: real)
    requires Inv(s) && Legal(s, op) && HoldsPresent(s)
    ensures HoldsPresent(Step(s, op, window, true))
  {
    var t := Step(s, op, window, true);
    forall h <- t.grants | h.id !in t.closed ensures Entry(h.at, h.amount, h.id) in Entries(t, h.user) {
      EntriesAfterStep(s, op, window, true, h.user);
      if op.Settle? || op.Release? { DropMembers(Entries(s, h.user), op.hold.id); }
    }
  }

  // The books balance: what the reference ledger holds for a user since `from` is what
  // was charged since then plus the holds taken since then that are still open.
  ghost predicate Balanced(s: State, u: User, until: real) {
    forall from: real :: Total(Live(Entries(s, u), from))
                      == SettledCost(s.journal, u, from, until) + OpenHolds(s.grants, s.closed, u, from)
  }

  // A fresh hold weighs in the list what it weighs among the open holds.
  lemma {:induction false} HoldWeighsSame(es: seq<Entry>, grants: seq<Hold>, closed: set<Id>, h: Hold, from: real)
    requires h.id !in closed
    ensures Total(Live(es + [Entry(h.at, h.amount, h.id)], from)) - Total(Live(es, from))
         == OpenHolds(grants + [h], closed, h.user, from) - OpenHolds(grants, closed, h.user, from)
  {
    var e := Entry(h.at, h.amount, h.id);
    LiveAppend(es, e, from);
    TotalAppend(Live(es, from), e);
    OneMoreHold(grants, h, closed, h.user, from);
  }

  lemma ReserveKeepsBalance(s: State, op: Op, window: real, u: User, until: real)
    requires Inv(s) && Legal(s, op) && op.Reserve? && Balanced(s, u, until)
    ensures Balanced(Step(s, op, window, true), u, until)
  {
    var es, h := Entries(s, u), Hold(op.id, op.user, op.amount, op.now);
    var t := Step(s, op, window, true);
    EntriesAfterStep(s, op, window, true, u);
    assert op.id !in s.closed;
    forall from: real ensures Total(Live(Entries(t, u), from))
                           == SettledCost(t.journal, u, from, until) + OpenHolds(t.grants, t.closed, u, from)
    {
      assert Total(Live(es, from)) == SettledCost(s.journal, u, from, until) + OpenHolds(s.grants, s.closed, u, from);
      if op.user == u {
        HoldWeighsSame(es, s.grants, s.closed, h, from);
      } else {
        OneMoreHold(s.grants, h, s.closed, u, from);
      }
    }
  }

  // A settle or release takes the open hold out; a settle puts the charge in its place.
  lemma {:induction false} ReplaceEntry(es: seq<Entry>, h: Hold, now: real, cost: real, from: real)
    requires UniqueIds(es) && Entry(h.at, h.amount, h.id) in es
    ensures var held := if h.at >= from then h.amount else 0.0;
            var rest := Drop(es, h.id);
            && Total(Live(rest, from)) == Total(Live(es, from)) - held
            && Total(Live(rest + [Entry(now, cost, h.id)], from))
               == Total(Live(es, from)) - held + if now >= from then cost else 0.0
  {
    var rest := Drop(es, h.id);
    TotalDrop(es, Entry(h.at, h.amount, h.id), from);
    LiveAppend(rest, Entry(now, cost, h.id), from);
    TotalAppend(Live(rest, from), Entry(now, cost, h.id));
  }

  lemma ClosingKeepsBalance(s: State, op: Op, window: real, u: User, until: real)
    requires Inv(s) && Legal(s, op) && HoldsPresent(s) && op.now <= until && Balanced(s, u, until)
    requires (op.Settle? || op.Release?) && !Ignored(s, op)
    ensures Balanced(Step(s, op, window, true), u, until)
  {
    var h, t := op.hold, Step(s, op, window, true);
    var c := ClosingOf(op);
    EntriesAfterStep(s, op, window, true, u);
    forall from: real ensures Total(Live(Entries(t, u), from))
                           == SettledCost(t.journal, u, from, until) + OpenHolds(t.grants, t.closed, u, from)
    {
      assert Total(Live(Entries(s, u), from))
          == SettledCost(s.journal, u, from, until) + OpenHolds(s.grants, s.closed, u, from);
      OneMoreClosing(s.journal, c, u, from, until, window);
      Close(s.grants, s.closed, h, u, from);
      if h.user == u { ReplaceEntry(Entries(s, u), h, op.now, if op.Settle? then op.cost else 0.0, from); }
    }
  }

  lemma StepKeepsBalance(s: State, op: Op, window: real, u: User, until: real)
    requires Inv(s) && Legal(s, op) && HoldsPresent(s) && op.now <= until && Balanced(s, u, until)
    ensures Balanced(Step(s, op, window, true), u, until)
  {
    if op.Reserve? {
      ReserveKeepsBalance(s, op, window, u, until);
    } else if op.Spent? {
      EntriesAfterStep(s, op, window, true, u);
    } else if !Ignored(s, op) {
      ClosingKeepsBalance(s, op, window, u, until);
    }
  }

  lemma {:induction false} RunBalances(ops: seq<Op>, window: real, u: User, until: real)
    requires LegalRun(ops, window, true) && (ops != [] ==> ops[|ops| - 1].now <= until)
    ensures HoldsPresent(Run(ops, window, true)) && Balanced(Run(ops, window, true), u, until)
  {
    if ops != [] {
      var n := |ops| - 1;
      RunBalances(ops[..n], window, u, until);
      RunKeepsInv(ops[..n], window, true);
      StepKeepsHoldsPresent(Run(ops[..n], window, true), ops[n], window);
      StepKeepsBalance(Run(ops[..n], window, true), ops[n], window, u, until);
    }
  }

  // ---- the usage records are the charges ----------------------------------

  // The records of the charges in a journal, in order.
  function Recorded(journal: seq<Closing>): seq<UsageRecord> {
    if journal == [] then [] else
    var before, c := Recorded(journal[..|journal| - 1]), journal[|journal| - 1];
    if c.Charged? then before + [c.record] else before
  }

  // Recorded cost of `u` stamped within [from, to].
  function RecordedCost(records: seq<UsageRecord>, u: User, from: real, to: real): real {
    if records == [] then 0.0 else
    var r := records[|records| - 1];
    RecordedCost(records[..|records| - 1], u, from, to) + if r.user == u && from <= r.at <= to then r.cost else 0.0
  }

  ghost predicate RecordsMatch(s: State) {
    && s.records == Recorded(s.journal)
    && forall c <- s.journal :: c.Charged? ==> c.record.user == c.hold.user
  }

  lemma {:induction false} RecordedAppend(journal: seq<Closing>, c: Closing)
    ensures Recorded(journal + [c]) == if c.Charged? then Recorded(journal) + [c.record] else Recorded(journal)
  {
    assert (journal + [c])[..|journal|] == journal;
  }

  // A charge's record stands behind the records of the charges before it.
  lemma {:induction false} RecordedAt(journal: seq<Closing>, k: nat)
    requires k < |journal| && journal[k].Charged?
    ensures |Recorded(journal[..k])| < |Recorded(journal)|
    ensures Recorded(journal)[|Recorded(journal[..k])|] == journal[k].record
  {
    var n := |journal| - 1;
    if k < n {
      RecordedAt(journal[..n], k);
      assert journal[..n][..k] == journal[..k];
    }
  }

  lemma StepKeepsRecords(s: State, op: Op, window: real, keepAll: bool)
    requires RecordsMatch(s)
    ensures RecordsMatch(Step(s, op, window, keepAll))
  {
    if op.Settle? || op.Release? { RecordedAppend(s.journal, ClosingOf(op)); }
  }

  // In every run the usage records are, in order, the charges: the same user, cost and time.
  lemma {:induction false} RecordsAreCharges(ops: seq<Op>, window: real, keepAll: bool)
    ensures RecordsMatch(Run(ops, window, keepAll))
  {
    if ops != [] {
      RecordsAreCharges(ops[..|ops| - 1], window, keepAll);
      StepKeepsRecords(Run(ops[..|ops| - 1], window, keepAll), ops[|ops| - 1], window, keepAll);
    }
  }

  lemma {:induction false} RecordedCostAppend(records: seq<UsageRecord>, r: UsageRecord, u: User, from: real, to: real)
    ensures RecordedCost(records + [r], u, from, to)
         == RecordedCost(records, u, from, to) + if r.user == u && from <= r.at <= to then r.cost else 0.0
  {
    assert (records + [r])[..|records|] == records;
  }

  lemma {:induction false} SettledIsRecorded(journal: seq<Closing>, u: User, from: real, to: real)
    requires forall c <- journal :: c.Charged? ==> c.record.user == c.hold.user
    ensures SettledCost(journal, u, from, to) == RecordedCost(Recorded(journal), u, from, to)
  {
    if journal != [] {
      var n := |journal| - 1;
      SettledIsRecorded(journal[..n], u, from, to);
      assert journal[n] in journal;
      if journal[n].Charged? { RecordedCostAppend(Recorded(journal[..n]), journal[n].record, u, from, to); }
    }
  }

  // What `spent` means: recorded cost inside the window plus the open holds taken inside it.
  ghost predicate SpentIsExact(s: State, u: User, now: real, window: real) {
    Reply(s, Spent(now, u), window)
    == Amount(RecordedCost(s.records, u, now - window, now) + OpenHolds(s.grants, s.closed, u, now - window))
  }

  lemma AgreeingSpent(p: State, f: State, since: real, u: User, now: real, window: real)
    requires Agree(p, f, since) && since <= now - window && Balanced(f, u, now) && RecordsMatch(f)
    ensures SpentIsExact(p, u, now, window)
  {
    assert Live(Entries(p, u), now - window) == Live(Entries(f, u), now - window);
    SpentWhenBalanced(f, u, now, window, now);
    SettledIsRecorded(f.journal, u, now - window, now);
  }

  lemma {:induction false} SpentIsSettledPlusHeld(ops: seq<Op>, window: real, u: User, now: real)
    requires LegalRun(ops, window, false) && (ops != [] ==> ops[|ops| - 1].now <= now)
    ensures SpentIsExact(Run(ops, window, false), u, now, window)
  {
    var since := if ops == [] then now - window else ops[|ops| - 1].now - window;
    PruningIsInvisible(ops, window);
    RunBalances(ops, window, u, now);
    RecordsAreCharges(ops, window, true);
    AgreeingSpent(Run(ops, window, false), Run(ops, window, true), since, u, now, window);
  }

  // The hold is taken if and only if it fits beside the recorded cost and the open holds of
  // the window, landing on the limit and 1e-9 beyond included; and that use is reported.
  ghost predicate TakenIfFits(s: State, u: User, amount: real, limit: real, id: Id, now: real, window: real) {
    var op := Op.Reserve(now, u, amount, limit, id);
    var used := RecordedCost(s.records, u, now - window, now) + OpenHolds(s.grants, s.closed, u, now - window);
    var fits := used + amount <= limit + 0.000000001;
    && Reply(s, op, window) == Decision(fits, used)
    && Step(s, op, window, false).grants == if fits then s.grants + [Hold(id, u, amount, now)] else s.grants
  }

  lemma {:induction false} ReserveIsBudgeted(ops: seq<Op>, window: real, u: User, amount: real, limit: real, id: Id,
                                             now: real)
    requires LegalRun(ops, window, false) && (ops != [] ==> ops[|ops| - 1].now <= now)
    ensures TakenIfFits(Run(ops, window, false), u, amount, limit, id, now, window)
  {
    SpentIsSettledPlusHeld(ops, window, u, now);
    ExactSpentBudgets(Run(ops, window, false), u, amount, limit, id, now, window);
  }

  lemma ExactSpentBudgets(s: State, u: User, amount: real, limit: real, id: Id, now: real, window: real)
    requires SpentIsExact(s, u, now, window)
    ensures TakenIfFits(s, u, amount, limit, id, now, window)
  {
  }

  // ---- each reservation is closed at most once ---------------------------

  // `closed` is exactly the set of ids in the journal, where no id appears twice.
  ghost predicate ClosedOnce(s: State) {
    && (forall i, j :: 0 <= i < j < |s.journal| ==> s.journal[i].hold.id != s.journal[j].hold.id)
    && (forall c <- s.journal :: c.hold in s.grants && c.hold.id in s.closed)
    && (forall id <- s.closed :: exists i :: 0 <= i < |s.journal| && s.journal[i].hold.id == id)
  }

  lemma StepKeepsClosedOnce(s: State, op: Op, window: real, keepAll: bool)
    requires ClosedOnce(s) && Legal(s, op)
    ensures ClosedOnce(Step(s, op, window, keepAll))
  {
    var t := Step(s, op, window, keepAll);
    assert s.journal <= t.journal;
    forall id <- t.closed ensures exists i :: 0 <= i < |t.journal| && t.journal[i].hold.id == id {
      if id in s.closed {
        var i :| 0 <= i < |s.journal| && s.journal[i].hold.id == id;
        assert t.journal[i].hold.id == id;
      } else {
        assert t.journal[|s.journal|].hold.id == id;
      }
    }
  }

  // In every run each reservation is charged or refunded at most once in all, however
  // often settle and release are called on it.
  lemma {:induction false} EveryReservationClosedOnce(ops: seq<Op>, window: real, keepAll: bool)
    requires LegalRun(ops, window, keepAll)
    ensures ClosedOnce(Run(ops, window, keepAll))
  {
    if ops != [] {
      var n := |ops| - 1;
      EveryReservationClosedOnce(ops[..n], window, keepAll);
      StepKeepsClosedOnce(Run(ops[..n], window, keepAll), ops[n], window, keepAll);
    }
  }

  // ---- the cap on every window -------------------------------------------

  // Amounts and costs are not negative, and a limit passed for `u` is at most `limit`.
  predicate CappedOp(op: Op, u: User, limit: real) {
    && (op.Reserve? ==> op.amount >= 0.0 && (op.user == u ==> op.limit <= limit))
    && (op.Settle? ==> op.cost >= 0.0)
  }

  ghost predicate NonNegative(s: State) {
    && (forall h <- s.grants :: h.amount >= 0.0)
    && (forall c <- s.journal :: c.hold.amount >= 0.0 && (c.Charged? ==> c.record.cost >= 0.0))
  }

  // The covered part of the settled cost, plus the open holds.
  function Exposure(s: State, u: User, from: real, until: real, window: real): real {
    CoveredCost(s.journal, u, from, until, window) + OpenHolds(s.grants, s.closed, u, from)
  }

  lemma {:induction false} CoveredShrinks(journal: seq<Closing>, u: User, from: real, later: real, until: real,
                                          window: real)
    requires from <= later
    requires forall c <- journal :: c.hold.amount >= 0.0 && (c.Charged? ==> c.record.cost >= 0.0)
    ensures CoveredCost(journal, u, later, until, window) <= CoveredCost(journal, u, from, until, window)
    ensures CoveredCost(journal, u, from, until, window) <= SettledCost(journal, u, from, until)
  {
    if journal != [] { CoveredShrinks(journal[..|journal| - 1], u, from, later, until, window); }
  }

  lemma {:induction false} HoldsShrink(grants: seq<Hold>, closed: set<Id>, u: User, from: real, later: real)
    requires from <= later && forall h <- grants :: h.amount >= 0.0
    ensures 0.0 <= OpenHolds(grants, closed, u, later) <= OpenHolds(grants, closed, u, from)
  {
    if grants != [] { HoldsShrink(grants[..|grants| - 1], closed, u, from, later); }
  }

  // From `since` on, no window start sees more exposure than the cap.
  ghost predicate WithinCap(s: State, u: User, limit: real, since: real, until: real, window: real) {
    forall from: real :: since <= from ==> Exposure(s, u, from, until, window) <= limit + SLACK
  }

  // A hold that fits beside everything the ledger counts keeps the exposure under the cap.
  lemma {:induction false} FittingHold(journal: seq<Closing>, grants: seq<Hold>, closed: set<Id>, h: Hold,
                    u: User, from: real, until: real, window: real, cap: real)
    requires h.user == u && h.amount >= 0.0
    requires forall c <- journal :: c.hold.amount >= 0.0 && (c.Charged? ==> c.record.cost >= 0.0)
    requires SettledCost(journal, u, from, until) + OpenHolds(grants, closed, u, from) + h.amount <= cap
    ensures CoveredCost(journal, u, from, until, window) + OpenHolds(grants + [h], closed, u, from) <= cap
  {
    CoveredShrinks(journal, u, from, from, until, window);
    OneMoreHold(grants, h, closed, u, from);
  }

  lemma {:induction false} SpentWhenBalanced(s: State, u: User, now: real, window: real, until: real)
    requires Balanced(s, u, until)
    ensures WindowSpend(Entries(s, u), now, window)
         == SettledCost(s.journal, u, now - window, until) + OpenHolds(s.grants, s.closed, u, now - window)
  {
    assert Total(Live(Entries(s, u), now - window))
        == SettledCost(s.journal, u, now - window, until) + OpenHolds(s.grants, s.closed, u, now - window);
  }

  lemma ReserveKeepsExposure(s: State, op: Op, window: real, u: User, limit: real, until: real)
    requires op.Reserve? && NonNegative(s) && CappedOp(op, u, limit)
    requires Balanced(s, u, until)
    requires Exposure(s, u, op.now - window, until, window) <= limit + SLACK
    ensures Exposure(Step(s, op, window, true), u, op.now - window, until, window) <= limit + SLACK
  {
    var h, from := Hold(op.id, op.user, op.amount, op.now), op.now - window;
    if !Fits(WindowSpend(Entries(s, op.user), op.now, window), op.amount, op.limit) {
    } else if op.user != u {
      OneMoreHold(s.grants, h, s.closed, u, from);
    } else {
      SpentWhenBalanced(s, u, op.now, window, until);
      FittingHold(s.journal, s.grants, s.closed, h, u, from, until, window, limit + SLACK);
    }
  }

  // A charge adds its covered part, which is at most the hold it takes out.
  lemma ClosingKeepsExposure(s: State, op: Op, window: real, u: User, until: real)
    requires Inv(s) && NonNegative(s) && Legal(s, op) && (op.Settle? || op.Release?) && !Ignored(s, op)
    ensures Exposure(Step(s, op, window, true), u, op.now - window, until, window)
         <= Exposure(s, u, op.now - window, until, window)
  {
    var h, from := op.hold, op.now - window;
    OneMoreClosing(s.journal, ClosingOf(op), u, from, until, window);
    Close(s.grants, s.closed, h, u, from);
  }

  lemma {:induction false} ExposureShrinks(s: State, u: User, from: real, later: real, until: real, window: real)
    requires NonNegative(s) && from <= later
    ensures Exposure(s, u, later, until, window) <= Exposure(s, u, from, until, window)
    ensures CoveredCost(s.journal, u, from, until, window) <= Exposure(s, u, from, until, window)
  {
    CoveredShrinks(s.journal, u, from, later, until, window);
    HoldsShrink(s.grants, s.closed, u, from, later);
  }

  lemma StepKeepsExposure(s: State, op: Op, window: real, u: User, limit: real, until: real)
    requires Inv(s) && NonNegative(s) && Legal(s, op) && CappedOp(op, u, limit) && Balanced(s, u, until)
    requires Exposure(s, u, op.now - window, until, window) <= limit + SLACK
    ensures Exposure(Step(s, op, window, true), u, op.now - window, until, window) <= limit + SLACK
  {
    if op.Reserve? {
      ReserveKeepsExposure(s, op, window, u, limit, until);
    } else if !op.Spent? && !Ignored(s, op) {
      ClosingKeepsExposure(s, op, window, u, until);
    }
  }

  lemma StepKeepsNonNegative(s: State, op: Op, window: real, u: User, limit: real)
    requires Inv(s) && NonNegative(s) && Legal(s, op) && CappedOp(op, u, limit)
    ensures NonNegative(Step(s, op, window, true))
  {
  }

  lemma ExposureCaps(s: State, u: User, limit: real, at: real, since: real, until: real, window: real)
    requires NonNegative(s) && at <= since && Exposure(s, u, at, until, window) <= limit + SLACK
    ensures WithinCap(s, u, limit, since, until, window)
  {
    forall from: real | since <= from ensures Exposure(s, u, from, until, window) <= limit + SLACK {
      ExposureShrinks(s, u, at, from, until, window);
    }
  }

  lemma CapAt(s: State, u: User, limit: real, since: real, until: real, window: real)
    requires WithinCap(s, u, limit, since, until, window)
    ensures Exposure(s, u, since, until, window) <= limit + SLACK
  {
  }

  lemma StepIsCapped(s: State, op: Op, window: real, u: User, limit: real, since: real, until: real)
    requires Inv(s) && NonNegative(s) && Legal(s, op) && CappedOp(op, u, limit)
    requires Balanced(s, u, until) && op.now - window <= since
    requires WithinCap(s, u, limit, op.now - window, until, window)
    ensures NonNegative(Step(s, op, window, true))
    ensures WithinCap(Step(s, op, window, true), u, limit, since, until, window)
  {
    CapAt(s, u, limit, op.now - window, until, window);
    StepKeepsNonNegative(s, op, window, u, limit);
    StepKeepsExposure(s, op, window, u, limit, until);
    ExposureCaps(Step(s, op, window, true), u, limit, op.now - window, since, until, window);
  }

  predicate Capped(ops: seq<Op>, u: User, limit: real) {
    ops != [] ==> CappedOp(ops[|ops| - 1], u, limit) && Capped(ops[..|ops| - 1], u, limit)
  }

  lemma {:induction false} RunIsCapped(ops: seq<Op>, window: real, u: User, limit: real, since: real, until: real)
    requires LegalRun(ops, window, true) && Capped(ops, u, limit) && 0.0 <= limit
    requires ops != [] ==> ops[|ops| - 1].now - window <= since && ops[|ops| - 1].now <= until
    ensures NonNegative(Run(ops, window, true))
    ensures WithinCap(Run(ops, window, true), u, limit, since, until, window)
  {
    if ops != [] {
      var n := |ops| - 1;
      RunIsCapped(ops[..n], window, u, limit, ops[n].now - window, until);
      RunKeepsInv(ops[..n], window, true);
      RunBalances(ops[..n], window, u, until);
      StepIsCapped(Run(ops[..n], window, true), ops[n], window, u, limit, since, until);
    }
  }

  ghost predicate ChargesCapped(j: seq<Closing>, u: User, limit: real, t: real, window: real) {
    CoveredCost(j, u, t - window, t, window) <= limit + SLACK
  }

  lemma CapIsSpendBound(s: State, u: User, limit: real, t: real, window: real)
    requires NonNegative(s) && WithinCap(s, u, limit, t - window, t, window)
    ensures ChargesCapped(s.journal, u, limit, t, window)
  {
    ExposureShrinks(s, u, t - window, t - window, t, window);
    assert Exposure(s, u, t - window, t, window) <= limit + SLACK;
  }

  lemma {:induction false} ChargesAreCapped(ops: seq<Op>, window: real, u: User, limit: real, t: real)
    requires LegalRun(ops, window, false) && Capped(ops, u, limit) && 0.0 <= limit
    ensures ChargesCapped(Run(ops, window, false).journal, u, limit, t, window)
  {
    PruningIsInvisible(ops, window);
    if ops == [] || ops[|ops| - 1].now <= t {
      RunIsCapped(ops, window, u, limit, t - window, t);
      CapIsSpendBound(Run(ops, window, true), u, limit, t, window);
    } else {
      var n := |ops| - 1;
      ChargesAreCapped(ops[..n], window, u, limit, t);
      LaterStepIsOutside(Run(ops[..n], window, false), ops[n], window, u, limit, t);
    }
  }

  lemma LaterStepIsOutside(s: State, op: Op, window: real, u: User, limit: real, t: real)
    requires t < op.now && ChargesCapped(s.journal, u, limit, t, window)
    ensures ChargesCapped(Step(s, op, window, false).journal, u, limit, t, window)
  {
    if op.Settle? || op.Release? {
      OneMoreClosing(s.journal, ClosingOf(op), u, t - window, t, window);
    }
  }

  // The cost recorded in the window [t - W, t] is at most the limit plus the overruns of
  // the charges in it.
  ghost predicate WindowCapped(s: State, u: User, limit: real, t: real, window: real) {
    RecordedCost(s.records, u, t - window, t) <= limit + SLACK + Overruns(s.journal, u, t - window, t, window)
  }

  // With every limit passed for `u` at most `limit`, the bound holds for every window of
  // every run of the code's ledger, past or future.
  lemma {:induction false} WindowSpendBound(ops: seq<Op>, window: real, u: User, limit: real, t: real)
    requires LegalRun(ops, window, false) && Capped(ops, u, limit) && 0.0 <= limit
    ensures WindowCapped(Run(ops, window, false), u, limit, t, window)
  {
    ChargesAreCapped(ops, window, u, limit, t);
    RecordsAreCharges(ops, window, false);
    ChargesCapRecords(Run(ops, window, false), u, limit, t, window);
  }

  lemma ChargesCapRecords(s: State, u: User, limit: real, t: real, window: real)
    requires RecordsMatch(s) && ChargesCapped(s.journal, u, limit, t, window)
    ensures WindowCapped(s, u, limit, t, window)
  {
    SettledIsRecorded(s.journal, u, t - window, t);
    CostSplits(s.journal, u, t - window, t, window);
  }

  // Every charge of `u` in [from, to] costs at most its hold and was settled while the
  // hold was still inside the window.
  ghost predicate NoOverrun(journal: seq<Closing>, u: User, from: real, to: real, window: real) {
    forall c <- journal :: ChargedIn(c, u, from, to) ==>
      c.record.cost <= c.hold.amount && c.record.at - c.hold.at <= window
  }

  lemma {:induction false} NothingOverran(journal: seq<Closing>, u: User, from: real, to: real, window: real)
    requires NoOverrun(journal, u, from, to, window)
    ensures Overruns(journal, u, from, to, window) == 0.0
  {
    if journal != [] {
      assert journal[|journal| - 1] in journal;
      NothingOverran(journal[..|journal| - 1], u, from, to, window);
    }
  }

  // Without overruns the cap is the limit itself and its slack.
  lemma WindowSpendCap(ops: seq<Op>, window: real, u: User, limit: real, t: real)
    requires LegalRun(ops, window, false) && Capped(ops, u, limit) && 0.0 <= limit
    requires NoOverrun(Run(ops, window, false).journal, u, t - window, t, window)
    ensures RecordedCost(Run(ops, window, false).records, u, t - window, t) <= limit + SLACK
  {
    WindowSpendBound(ops, window, u, limit, t);
    NothingOverran(Run(ops, window, false).journal, u, t - window, t, window);
  }
}
