/**
 The in-process ledger, as the object whose lists are updated in place.

 A lock body contains no suspension point, so each method is one atomic step.  The clock
 reading and the unique id drawn for a new reservation are parameters.
 */
module LedgerMemory {
  import opened LedgerModel

  // A budget hold.  `closed` is set once it has been settled or released.
  class Reservation {
    const id: Id
    const user: User
    const amount: real
    const createdAt: real
    var closed: bool

    constructor (id: Id, user: User, amount: real, createdAt: real)
      ensures Value() == Hold(id, user, amount, createdAt) && !closed
    {
      this.id, this.user, this.amount, this.createdAt := id, user, amount, createdAt;
      closed := false;
    }

    function Value(): Hold {
      Hold(id, user, amount, createdAt)
    }
  }

  datatype ReserveResult =
    | Granted(reservation: Reservation)
    | BudgetExceeded(spent: real)

  function UserTotal(records: seq<UsageRecord>, u: User): real {
    if records == [] then 0.0 else
    var r := records[|records| - 1];
    UserTotal(records[..|records| - 1], u) + if r.user == u then r.cost else 0.0
  }

  class Ledger {
    const window: real
    var spend: map<User, seq<Entry>>
    var records: seq<UsageRecord>
    ghost var issued: map<Id, Reservation>
    ghost var grants: seq<Hold>
    ghost var journal: seq<Closing>

    ghost predicate Valid()
      reads this, issued.Values
    {
      && (forall id <- issued :: issued[id].id == id && issued[id].Value() in grants)
      && (forall h <- grants :: h.id in issued && issued[h.id].Value() == h)
    }

    ghost function View(): State
      reads this, issued.Values
    {
      State(spend, records, (set id | id in issued && issued[id].closed), grants, journal)
    }

    constructor (window: real)
      ensures Valid() && View() == INIT && this.window == window
    {
      this.window := window;
      spend, records := map[], [];
      issued, grants, journal := map[], [], [];
    }

    function List(u: User): seq<Entry>
      reads this
    {
      if u in spend then spend[u] else []
    }

    method Prune(u: User, now: real)
      modifies this`spend
      ensures spend == old(spend)[u := Live(old(List(u)), now - window)]
    {
      var entries, kept := List(u), [];
      assert entries[0..] == entries;
      for i := 0 to |entries|
        invariant Live(entries, now - window) == kept + Live(entries[i..], now - window)
      {
        if entries[i].at >= now - window {
          kept := kept + [entries[i]];
        }
        assert entries[i..][1..] == entries[i + 1..];
      }
      assert kept + Live(entries[|entries|..], now - window) == kept;
      spend := spend[u := kept];
    }

    method Spent(u: User, now: real) returns (total: real)
      requires Valid()
      modifies this`spend
      ensures Valid() && View() == Step(old(View()), Op.Spent(now, u), window, false)
      ensures Amount(total) == Reply(old(View()), Op.Spent(now, u), window)
    {
      Prune(u, now);
      total := Total(spend[u]);
    }

    method Reserve(u: User, amount: real, limit: real, id: Id, now: real) returns (r: ReserveResult)
      requires Valid() && Legal(View(), Op.Reserve(now, u, amount, limit, id))
      modifies this
      ensures Valid()
      ensures View() == Step(old(View()), Op.Reserve(now, u, amount, limit, id), window, false)
      ensures match r
              case BudgetExceeded(spent) =>
                && Decision(false, spent) == Reply(old(View()), Op.Reserve(now, u, amount, limit, id), window)
                && issued == old(issued)
              case Granted(res) =>
                && Reply(old(View()), Op.Reserve(now, u, amount, limit, id), window).granted
                && fresh(res) && res.id == id && issued == old(issued)[id := res]
    {
      ghost var before := View();
      ghost var kept := Live(Entries(before, u), now - window);
      Prune(u, now);
      assert View() == before.(spend := before.spend[u := kept]);
      var current := Total(spend[u]);
      if current + amount > limit + SLACK {
        return BudgetExceeded(current);
      }
      var reservation := new Reservation(id, u, amount, now);
      spend := spend[u := spend[u] + [Entry(now, amount, reservation.id)]];
      assert View() == before.(spend := before.spend[u := kept + [Entry(now, amount, id)]]);
      Issue(reservation);
      r := Granted(reservation);
    }

    // The ledger's history learns of a reservation.
    ghost method Issue(r: Reservation)
      requires Valid() && !r.closed && forall g <- grants :: g.id != r.id
      modifies this`issued, this`grants
      ensures Valid() && issued == old(issued)[r.id := r]
      ensures View() == old(View()).(grants := old(grants) + [r.Value()])
    {
      ghost var before := View();
      issued := issued[r.id := r];
      grants := grants + [r.Value()];
      assert View().closed == before.closed;
    }

    method DropEntry(u: User, id: Id)
      modifies this`spend
      ensures spend == old(spend)[u := Drop(old(List(u)), id)]
    {
      var entries := List(u);
      var i := 0;
      assert entries[0..] == entries;
      while i < |entries|
        invariant 0 <= i <= |entries|
        invariant Drop(entries, id) == entries[..i] + Drop(entries[i..], id)
      {
        if entries[i].id == id {
          assert Drop(entries[i..], id) == entries[i + 1..];
          spend := spend[u := entries[..i] + entries[i + 1..]];
          return;
        }
        assert Drop(entries[i..], id) == [entries[i]] + Drop(entries[i + 1..], id);
        i := i + 1;
      }
      assert entries[..i] + Drop(entries[i..], id) == entries;
      spend := spend[u := entries];
    }

    method Settle(r: Reservation, cost: real, model: string, inputTokens: nat, outputTokens: nat, now: real)
      requires Valid() && r.id in issued && issued[r.id] == r
      modifies this, r
      ensures Valid() && r.closed && issued == old(issued)
      ensures View()
           == Step(old(View()), Op.Settle(now, r.Value(), cost, model, inputTokens, outputTokens), window, false)
    {
      if r.closed {
        return;
      }
      ghost var before := View();
      DropEntry(r.user, r.id);
      spend := spend[r.user := List(r.user) + [Entry(now, cost, r.id)]];
      var record := UsageRecord(r.user, model, inputTokens, outputTokens, cost, now);
      records := records + [record];
      r.closed := true;
      journal := journal + [Charged(r.Value(), record)];
      assert View().closed == before.closed + {r.id};
    }

    method Release(r: Reservation, ghost now: real)
      requires Valid() && r.id in issued && issued[r.id] == r
      modifies this, r
      ensures Valid() && r.closed && issued == old(issued)
      ensures View() == Step(old(View()), Op.Release(now, r.Value()), window, false)
    {
      if r.closed {
        return;
      }
      ghost var before := View();
      DropEntry(r.user, r.id);
      r.closed := true;
      journal := journal + [Refunded(r.Value())];
      assert View().closed == before.closed + {r.id};
    }

    // Lifetime settled spend per user, read off the records.
    method Summary() returns (out: map<User, real>)
      ensures forall u :: u in out <==> exists r <- records :: r.user == u
      ensures forall u <- out :: out[u] == UserTotal(records, u)
    {
      out := map[];
      for i := 0 to |records|
        invariant forall u :: u in out <==> exists r <- records[..i] :: r.user == u
        invariant forall u: User :: (if u in out then out[u] else 0.0) == UserTotal(records[..i], u)
      {
        var r := records[i];
        assert records[..i + 1] == records[..i] + [r];
        assert records[..i + 1][..i] == records[..i];
        out := out[r.user := (if r.user in out then out[r.user] else 0.0) + r.cost];
      }
      assert records[..|records|] == records;
    }
  }
}
