/**
 The response cache object: an ordered dictionary with hit and miss counters.
 */
module InMemoryCache {
  import opened CacheModel

  class InMemoryCache {
    const maxEntries: nat
    var items: seq<Item>
    var hits: nat
    var misses: nat

    constructor (limit: int)
      ensures items == [] && hits == misses == 0
      ensures maxEntries == if limit > 1 then limit else 1
    {
      maxEntries := if limit > 1 then limit else 1;
      items, hits, misses := [], 0, 0;
    }

    method Get(k: Key, now: real) returns (r: Option<Entry>)
      modifies this
      ensures items == Step(old(items), Call.Get(now, k), maxEntries)
      ensures r == Reply(old(items), Call.Get(now, k))
      ensures hits + misses == old(hits + misses) + 1 && (r.Some? <==> hits == old(hits) + 1)
    {
      var found := Find(items, k);
      if found.None? {
        misses := misses + 1;
        return None;
      }
      if found.value.expiresAt <= now {
        items := Remove(items, k);
        misses := misses + 1;
        return None;
      }
      items := Remove(items, k) + [found.value];
      hits := hits + 1;
      r := Some(found.value.entry);
    }

    method Set(k: Key, e: Entry, ttl: real, now: real)
      modifies this`items
      ensures items == Step(old(items), Call.Set(now, k, e, ttl), maxEntries)
    {
      if ttl <= 0.0 {
        return;
      }
      var added := Remove(items, k) + [Item(k, e, now + ttl)];
      items := EvictOldest(added);
    }

    // popitem(last=False) until the limit holds.
    method EvictOldest(added: seq<Item>) returns (kept: seq<Item>)
      ensures kept == Evict(added, maxEntries)
    {
      kept := added;
      ghost var dropped := 0;
      while |kept| > maxEntries
        invariant dropped <= |added| && kept == added[dropped..]
        invariant dropped == 0 || |kept| >= maxEntries
      {
        assert kept[1..] == added[dropped + 1..];
        kept := kept[1..];
        dropped := dropped + 1;
      }
    }
  }
}
