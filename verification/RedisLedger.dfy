/**
 The three scripts as they run inside Redis, looping over the members of a key, with the
 client side that marks a reservation closed.
 */
module RedisLedger {
  import opened LedgerModel
  import opened RedisModel
  import opened RedisAgreement

  ghost predicate OneMemberPerId(k: Key) {
    forall m, m' :: m in k.members && m' in k.members && m.id == m'.id ==> m == m'
  }

  // No key is empty, and no id has two members under a key.
  ghost predicate WellFormed(store: map<User, Key>) {
    forall u <- store :: store[u].members != map[] && OneMemberPerId(store[u])
  }

  lemma PutKeepsWellFormed(store: map<User, Key>, u: User, k: Key)
    requires WellFormed(store) && OneMemberPerId(k)
    ensures WellFormed(Put(store, u, k))
  {
  }

  lemma AddedMember(members: map<Member, real>, m: Member, at: real)
    requires forall x <- members :: x.id != m.id
    ensures members[m := at] != map[]
    ensures forall e: real :: OneMemberPerId(Key(members, e)) ==> OneMemberPerId(Key(members[m := at], e))
  {
    assert m in members[m := at];
  }

  class RedisLedger {
    const window: real
    var store: map<User, Key>
    var closed: set<Id>
    ghost var grants: seq<Hold>

    ghost predicate Valid()
      reads this
    {
      WellFormed(store)
    }

    ghost function View(): RedisState
      reads this
    {
      RedisState(store, closed, grants)
    }

    constructor (window: real)
      ensures Valid() && View() == RedisState(map[], {}, []) && this.window == window
    {
      this.window := window;
      store, closed, grants := map[], {}, [];
    }

    // ZRANGE key 0 -1: each member once, in some order.
    static method ZRange(members: map<Member, real>) returns (ms: seq<Member>)
      ensures forall m :: m in ms <==> m in members
      ensures forall i, j :: 0 <= i < j < |ms| ==> ms[i] != ms[j]
    {
      var left := members.Keys;
      ms := [];
      while left != {}
        invariant left <= members.Keys
        invariant forall m :: m in ms <==> m in members && m !in left
        invariant forall i, j :: 0 <= i < j < |ms| ==> ms[i] != ms[j]
        decreases |left|
      {
        var m :| m in left;
        ms, left := ms + [m], left - {m};
      }
    }

    // The running total of the scripts and of `spent`.
    static method SumMembers(members: map<Member, real>) returns (total: real)
      ensures total == Usd(UnitTotal(members.Keys))
    {
      var ms := ZRange(members);
      total := 0.0;
      ghost var seen: set<Member> := {};
      for i := 0 to |ms|
        invariant seen == set m | m in ms[..i]
        invariant total == Usd(UnitTotal(seen))
      {
        assert ms[..i + 1] == ms[..i] + [ms[i]];
        assert ms[i] !in seen;
        UnitTotalRemove(seen + {ms[i]}, ms[i]);
        assert seen + {ms[i]} - {ms[i]} == seen;
        total := total + Usd(ms[i].units);
        seen := seen + {ms[i]};
      }
      assert seen == members.Keys;
    }

    // ZREM of the first member whose text starts with "id:".
    static method RemoveId(members: map<Member, real>, id: Id) returns (rest: map<Member, real>)
      requires forall m, m' :: m in members && m' in members && m.id == m'.id ==> m == m'
      ensures rest == Without(members, id)
    {
      var ms := ZRange(members);
      for i := 0 to |ms|
        invariant forall m <- ms[..i] :: m.id != id
      {
        if ms[i].id == id {
          rest := members - {ms[i]};
          assert rest == Without(members, id);
          return;
        }
      }
      rest := members;
    }

    method Spent(u: User, now: real) returns (total: real)
      requires Valid()
      modifies this`store
      ensures Valid() && View() == RedisStep(old(View()), Op.Spent(now, u), window)
      ensures Amount(total) == RedisReply(old(View()), Op.Spent(now, u), window)
    {
      var k := KeyOf(store, u);
      var kept := Trim(Visible(k, now), now - window);
      store := Put(store, u, Key(kept, k.expireAt));
      total := SumMembers(kept);
    }

    method ReserveScript(u: User, amount: real, limit: real, id: Id, now: real) returns (allowed: bool, current: real)
      requires Valid() && forall m <- KeyOf(store, u).members :: m.id != id
      modifies this`store, this`grants
      ensures Valid() && View() == RedisStep(old(View()), Op.Reserve(now, u, amount, limit, id), window)
      ensures Decision(allowed, current) == RedisReply(old(View()), Op.Reserve(now, u, amount, limit, id), window)
    {
      var k := KeyOf(store, u);
      var kept := Trim(Visible(k, now), now - window);
      current := SumMembers(kept);
      allowed := Fits(current, amount, limit);
      var key := Key(kept, k.expireAt);
      if allowed {
        AddedMember(kept, Member(id, Units(amount)), now);
        key := Key(kept[Member(id, Units(amount)) := now], now + Ttl(window));
        grants := grants + [Hold(id, u, amount, now)];
      }
      assert current == WindowTotal(k, now, window);
      assert key == NextKey(k, Op.Reserve(now, u, amount, limit, id), window);
      PutKeepsWellFormed(store, u, key);
      store := Put(store, u, key);
    }

    method SettleScript(h: Hold, cost: real, ghost model: string, ghost inputTokens: nat, ghost outputTokens: nat,
                        now: real)
      requires Valid()
      modifies this`store, this`closed
      ensures Valid()
      ensures View() == RedisStep(old(View()), Op.Settle(now, h, cost, model, inputTokens, outputTokens), window)
    {
      if h.id in closed {
        return;
      }
      var rest := RemoveId(Visible(KeyOf(store, h.user), now), h.id);
      var added := rest[Member(h.id, Units(cost)) := now];
      assert Member(h.id, Units(cost)) in added;
      store := store[h.user := Key(added, now + Ttl(window))];
      closed := closed + {h.id};
    }

    method ReleaseScript(h: Hold, now: real)
      requires Valid()
      modifies this`store, this`closed
      ensures Valid() && View() == RedisStep(old(View()), Op.Release(now, h), window)
    {
      if h.id in closed {
        return;
      }
      var k := KeyOf(store, h.user);
      var rest := RemoveId(Visible(k, now), h.id);
      store := Put(store, h.user, Key(rest, k.expireAt));
      closed := closed + {h.id};
    }
  }
}
