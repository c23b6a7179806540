/**
 What the cache still has: it forgets the least recently used first.
 */
module CacheRecency {
  import opened CacheModel

  // The other keys called for since `k` was last stored or read.
  function Crowd(calls: seq<Call>, k: Key): set<Key> {
    if calls == [] then {} else
    var before, c := Crowd(calls[..|calls| - 1], k), calls[|calls| - 1];
    if c.key != k then before + {c.key}
    else if c.Get? || c.ttl > 0.0 then {}
    else before
  }

  // Since `k` was stored, there were never `max` other keys called for after its latest use.
  predicate Uncrowded(calls: seq<Call>, k: Key, max: nat) {
    calls != [] &&
    var c := calls[|calls| - 1];
    || (c.Set? && c.key == k && c.ttl > 0.0)
    || (Uncrowded(calls[..|calls| - 1], k, max) && |Crowd(calls, k)| < max)
  }

  predicate Clocked(calls: seq<Call>) {
    forall i, j :: 0 <= i < j < |calls| ==> calls[i].now <= calls[j].now
  }

  // The items used more recently than that of `k`.
  function After(items: seq<Item>, k: Key): seq<Item> {
    if items == [] then [] else if items[0].key == k then items[1..] else After(items[1..], k)
  }

  // `x` is cached, and only keys of the crowd were used after it.
  ghost predicate Within(items: seq<Item>, x: Item, crowd: set<Key>) {
    Find(items, x.key) == Some(x) && forall y <- After(items, x.key) :: y.key in crowd
  }

  lemma {:induction false} AppendKeepsWithin(items: seq<Item>, x: Item, y: Item, crowd: set<Key>)
    requires Within(items, x, crowd) && y.key in crowd
    ensures Within(items + [y], x, crowd)
  {
    if items[0].key == x.key {
      assert (items + [y])[1..] == items[1..] + [y];
    } else {
      assert (items + [y])[1..] == items[1..] + [y];
      AppendKeepsWithin(items[1..], x, y, crowd);
    }
  }

  lemma {:induction false} RemoveKeepsWithin(items: seq<Item>, x: Item, k: Key, crowd: set<Key>)
    requires Within(items, x, crowd) && k != x.key
    ensures Within(Remove(items, k), x, crowd)
  {
    if items[0].key == x.key {
      assert ([items[0]] + Remove(items[1..], k))[1..] == Remove(items[1..], k);
      SubsetAfterRemove(items[1..], k);
    } else {
      RemoveKeepsWithin(items[1..], x, k, crowd);
      assert ([items[0]] + Remove(items[1..], k))[1..] == Remove(items[1..], k);
    }
  }

  lemma {:induction false} SubsetAfterRemove(items: seq<Item>, k: Key)
    ensures forall y <- Remove(items, k) :: y in items
  {
    if items != [] { SubsetAfterRemove(items[1..], k); }
  }

  // Something just used is at the recent end.
  lemma {:induction false} LastIsWithin(items: seq<Item>, x: Item, crowd: set<Key>)
    requires forall y <- items :: y.key != x.key
    ensures Within(items + [x], x, crowd)
  {
    if items != [] {
      LastIsWithin(items[1..], x, crowd);
      assert (items + [x])[1..] == items[1..] + [x];
    }
  }

  lemma {:induction false} CrowdHolds(items: seq<Item>, crowd: set<Key>)
    requires UniqueKeys(items) && forall y <- items :: y.key in crowd
    ensures |items| <= |crowd|
  {
    if items != [] {
      assert forall y <- items[1..] :: y.key in crowd - {items[0].key};
      CrowdHolds(items[1..], crowd - {items[0].key});
    }
  }

  // Eviction takes from the other end, so what fewer than `max` items follow stays.
  lemma {:induction false} EvictKeepsWithin(items: seq<Item>, x: Item, crowd: set<Key>, max: nat)
    requires UniqueKeys(items) && Within(items, x, crowd) && |crowd| < max
    ensures Within(Evict(items, max), x, crowd)
    decreases |items|
  {
    if |items| > max {
      if items[0].key == x.key {
        CrowdHolds(items[1..], crowd);
      } else {
        EvictKeepsWithin(items[1..], x, crowd, max);
        assert Evict(items, max) == Evict(items[1..], max);
      }
    }
  }

  lemma {:induction false} RunIsBounded(calls: seq<Call>, max: nat)
    ensures |Run(calls, max)| <= max && UniqueKeys(Run(calls, max))
  {
    ItemsAreLatest(calls, max);
    if calls != [] {
      RunIsBounded(calls[..|calls| - 1], max);
      StepIsBounded(Run(calls[..|calls| - 1], max), calls[|calls| - 1], max);
    }
  }

  lemma StepIsBounded(items: seq<Item>, c: Call, max: nat)
    requires UniqueKeys(items) && |items| <= max
    ensures |Step(items, c, max)| <= max
  {
    RemoveMembers(items, c.key);
  }

  lemma {:induction false} UsedIsWithin(items: seq<Item>, x: Item)
    requires UniqueKeys(items)
    ensures UniqueKeys(Remove(items, x.key) + [x]) && Within(Remove(items, x.key) + [x], x, {})
  {
    RemoveMembers(items, x.key);
    LastIsWithin(Remove(items, x.key), x, {});
    AddKeepsUnique(items, x.key, x);
  }

  lemma {:induction false} OwnGetKeepsWithin(items: seq<Item>, c: Call, x: Item, max: nat)
    requires UniqueKeys(items) && c.Get? && c.key == x.key
    requires Find(items, x.key) == Some(x) && x.expiresAt > c.now
    ensures Within(Step(items, c, max), x, {})
  {
    UsedIsWithin(items, x);
  }

  lemma OwnSetKeepsWithin(items: seq<Item>, c: Call, x: Item, max: nat)
    requires UniqueKeys(items) && max >= 1 && c.Set? && c.ttl > 0.0 && x == Item(c.key, c.entry, c.now + c.ttl)
    ensures Within(Step(items, c, max), x, {})
  {
    UsedIsWithin(items, x);
    EvictKeepsWithin(Remove(items, x.key) + [x], x, {}, max);
  }

  lemma OtherCallKeepsWithin(items: seq<Item>, c: Call, x: Item, crowd: set<Key>, max: nat)
    requires UniqueKeys(items) && Within(items, x, crowd) && c.key != x.key && |crowd + {c.key}| < max
    ensures Within(Step(items, c, max), x, crowd + {c.key})
  {
    var wider := crowd + {c.key};
    assert Within(items, x, wider);
    FindMember(items, c.key);
    RemoveKeepsWithin(items, x, c.key, wider);
    if c.Get? && Find(items, c.key).Some? {
      AppendKeepsWithin(Remove(items, c.key), x, Find(items, c.key).value, wider);
    } else if c.Set? && c.ttl > 0.0 {
      var y := Item(c.key, c.entry, c.now + c.ttl);
      AppendKeepsWithin(Remove(items, c.key), x, y, wider);
      AddKeepsUnique(items, y.key, y);
      EvictKeepsWithin(Remove(items, c.key) + [y], x, wider, max);
    }
  }

  lemma {:induction false} StaysWithin(calls: seq<Call>, max: nat, k: Key, now: real)
    requires max >= 1 && Clocked(calls) && Uncrowded(calls, k, max) && calls[|calls| - 1].now <= now
    requires LatestSet(calls, k).Some? && LatestSet(calls, k).value.expiresAt > now
    ensures Within(Run(calls, max), LatestSet(calls, k).value, Crowd(calls, k))
  {
    var n := |calls| - 1;
    var before, c, x := calls[..n], calls[n], LatestSet(calls, k).value;
    RunIsBounded(before, max);
    LatestHasKey(calls, k);
    if c.Set? && c.key == k && c.ttl > 0.0 {
      OwnSetKeepsWithin(Run(before, max), c, x, max);
    } else {
      StaysWithin(before, max, k, now);
      if c.key != k {
        OtherCallKeepsWithin(Run(before, max), c, x, Crowd(before, k), max);
      } else if c.Get? {
        OwnGetKeepsWithin(Run(before, max), c, x, max);
      }
    }
  }

  lemma {:induction false} LatestHasKey(calls: seq<Call>, k: Key)
    ensures LatestSet(calls, k).Some? ==> LatestSet(calls, k).value.key == k
  {
    if calls != [] { LatestHasKey(calls[..|calls| - 1], k); }
  }

  // The cache never holds more than `max` items, and it forgets the least recently used
  // first: a key that was stored and has not expired is a hit, with what was stored last, as
  // long as there were never `max` other keys called for since its latest use.
  lemma {:induction false} RecentIsAHit(calls: seq<Call>, max: nat, k: Key, now: real)
    requires max >= 1 && Clocked(calls) && Uncrowded(calls, k, max) && calls[|calls| - 1].now <= now
    requires LatestSet(calls, k).Some? && LatestSet(calls, k).value.expiresAt > now
    ensures |Run(calls, max)| <= max
    ensures Reply(Run(calls, max), Get(now, k)) == Some(LatestSet(calls, k).value.entry)
  {
    RunIsBounded(calls, max);
    LatestHasKey(calls, k);
    StaysWithin(calls, max, k, now);
  }

  lemma {:induction false} NoneLeft(items: seq<Item>, k: Key)
    ensures forall y <- Remove(items, k) :: y.key != k
  {
    if items != [] { NoneLeft(items[1..], k); }
  }

  lemma {:induction false} FoundAtEnd(items: seq<Item>, x: Item)
    requires forall y <- items :: y.key != x.key
    ensures Find(items + [x], x.key) == Some(x)
  {
    if items != [] {
      assert (items + [x])[1..] == items[1..] + [x];
      FoundAtEnd(items[1..], x);
    }
  }

  // What was just stored is a hit until it expires and no longer, whatever else is cached;
  // with a ttl of zero or less nothing is stored.
  lemma StoredUntilExpiry(items: seq<Item>, at: real, k: Key, e: Entry, ttl: real, max: nat, now: real)
    requires max >= 1
    ensures ttl > 0.0 ==>
              Reply(Step(items, Set(at, k, e, ttl), max), Get(now, k)) == if now < at + ttl then Some(e) else None
    ensures ttl <= 0.0 ==> Step(items, Set(at, k, e, ttl), max) == items
  {
    var rest, x := Remove(items, k), Item(k, e, at + ttl);
    NoneLeft(items, k);
    var n := if |rest| + 1 > max then |rest| + 1 - max else 0;
    assert Evict(rest + [x], max) == rest[n..] + [x];
    FoundAtEnd(rest[n..], x);
  }

  lemma StepKeepsUnique(items: seq<Item>, c: Call, max: nat)
    requires UniqueKeys(items)
    ensures UniqueKeys(Step(items, c, max))
  {
    StepItems(items, c, max);
  }
}
