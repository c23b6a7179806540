/**
 The LRU + TTL response cache: items in recency order, least recently used first.
 */
module CacheModel {

  // Everything that changes the output, as the hashed payload lists it.
  datatype Key = Key(model: string, prompt: string, maxOutputTokens: nat)

  datatype Entry = Entry(text: string, inputTokens: nat, outputTokens: nat, model: string)

  datatype Item = Item(key: Key, entry: Entry, expiresAt: real)

  datatype Option<+T> = None | Some(value: T)

  datatype Call =
    | Get(now: real, key: Key)
    | Set(now: real, key: Key, entry: Entry, ttl: real)

  function Remove(items: seq<Item>, k: Key): seq<Item> {
    if items == [] then []
    else if items[0].key == k then Remove(items[1..], k)
    else [items[0]] + Remove(items[1..], k)
  }

  function Find(items: seq<Item>, k: Key): Option<Item> {
    if items == [] then None
    else if items[0].key == k then Some(items[0])
    else Find(items[1..], k)
  }

  // Eviction from the least recently used end.
  function Evict(items: seq<Item>, max: nat): seq<Item> {
    if |items| > max then items[|items| - max..] else items
  }

  function Reply(items: seq<Item>, c: Call): Option<Entry> {
    if c.Set? then None else
    match Find(items, c.key)
    case None => None
    case Some(item) => if item.expiresAt <= c.now then None else Some(item.entry)
  }

  function Step(items: seq<Item>, c: Call, max: nat): seq<Item> {
    match c
    case Get(now, k) =>
      (match Find(items, k)
       case None => items
       case Some(item) => if item.expiresAt <= now then Remove(items, k) else Remove(items, k) + [item])
    case Set(now, k, e, ttl) =>
      if ttl <= 0.0 then items else Evict(Remove(items, k) + [Item(k, e, now + ttl)], max)
  }

  function Run(calls: seq<Call>, max: nat): seq<Item> {
    if calls == [] then [] else Step(Run(calls[..|calls| - 1], max), calls[|calls| - 1], max)
  }

  function Replies(calls: seq<Call>, max: nat): seq<Option<Entry>> {
    if calls == [] then [] else
    var before := calls[..|calls| - 1];
    Replies(before, max) + [Reply(Run(before, max), calls[|calls| - 1])]
  }

  // ---- inclusion ---------------------------------------------------------

  predicate UniqueKeys(items: seq<Item>) {
    forall i, j :: 0 <= i < j < |items| ==> items[i].key != items[j].key
  }

  // `s` is a subsequence of `l`.
  predicate Sub(s: seq<Item>, l: seq<Item>)
    decreases |l|
  {
    s == [] || (l != [] && if s[0] == l[0] then Sub(s[1..], l[1..]) else Sub(s, l[1..]))
  }

  lemma {:induction false} SubTail(s: seq<Item>, l: seq<Item>)
    requires Sub(s, l) && s != []
    ensures Sub(s[1..], l)
    decreases |l|
  {
    var t := s[1..];
    if s[0] == l[0] {
      if t != [] && t[0] == l[0] { SubTail(t, l[1..]); }
    } else {
      SubTail(s, l[1..]);
      if t != [] && t[0] == l[0] { SubTail(t, l[1..]); }
    }
  }

  lemma {:induction false} SubCons(s: seq<Item>, x: Item, l: seq<Item>)
    requires Sub(s, l)
    ensures Sub(s, [x] + l)
  {
    assert ([x] + l)[1..] == l;
    if s != [] && s[0] == x { SubTail(s, l); }
  }

  lemma {:induction false} SubMembers(s: seq<Item>, l: seq<Item>)
    requires Sub(s, l)
    ensures |s| <= |l| && forall x <- s :: x in l
    decreases |l|
  {
    if s != [] {
      assert l == [l[0]] + l[1..];
      if s[0] == l[0] { SubMembers(s[1..], l[1..]); } else { SubMembers(s, l[1..]); }
    }
  }

  lemma {:induction false} SubAppend(s: seq<Item>, l: seq<Item>, x: Item)
    requires Sub(s, l)
    ensures Sub(s + [x], l + [x])
    decreases |l|
  {
    if l == [] {
    } else {
      assert (l + [x])[1..] == l[1..] + [x];
      if s == [] {
        SubAppend([], l[1..], x);
        assert [] + [x] == [x];
        if l[0] == x { assert Sub([x][1..], l[1..] + [x]); }
      } else {
        assert (s + [x])[1..] == s[1..] + [x];
        if s[0] == l[0] { SubAppend(s[1..], l[1..], x); } else { SubAppend(s, l[1..], x); }
      }
    }
  }

  lemma {:induction false} SubRemove(s: seq<Item>, l: seq<Item>, k: Key)
    requires Sub(s, l)
    ensures Sub(Remove(s, k), Remove(l, k))
    decreases |l|
  {
    if s != [] {
      if s[0] == l[0] {
        SubRemove(s[1..], l[1..], k);
        assert ([s[0]] + Remove(s[1..], k))[1..] == Remove(s[1..], k);
        assert ([l[0]] + Remove(l[1..], k))[1..] == Remove(l[1..], k);
      } else {
        SubRemove(s, l[1..], k);
        SubCons(Remove(s, k), l[0], Remove(l[1..], k));
      }
    }
  }

  lemma {:induction false} RemoveMembers(items: seq<Item>, k: Key)
    requires UniqueKeys(items)
    ensures UniqueKeys(Remove(items, k))
    ensures forall x :: x in Remove(items, k) <==> x in items && x.key != k
    ensures |Remove(items, k)| == |items| - if Find(items, k).Some? then 1 else 0
  {
    if items != [] {
      RemoveMembers(items[1..], k);
      assert items == [items[0]] + items[1..];
      if items[0].key == k { FindMember(items[1..], k); }
    }
  }

  lemma {:induction false} FindMember(items: seq<Item>, k: Key)
    ensures Find(items, k).Some? <==> exists x <- items :: x.key == k
    ensures Find(items, k).Some? ==> Find(items, k).value in items && Find(items, k).value.key == k
  {
    if items != [] {
      FindMember(items[1..], k);
      assert items == [items[0]] + items[1..];
    }
  }

  // Two caches of the same kind with room for n and m items, after the same calls.
  ghost predicate Included(s: seq<Item>, l: seq<Item>, n: nat, m: nat) {
    && Sub(s, l) && UniqueKeys(l) && UniqueKeys(s)
    && |s| <= n && |l| <= m && |l| - |s| <= m - n
  }

  lemma {:induction false} SameFind(s: seq<Item>, l: seq<Item>, k: Key)
    requires Sub(s, l) && UniqueKeys(l) && Find(s, k).Some?
    ensures Find(l, k) == Find(s, k)
  {
    FindMember(s, k);
    FindMember(l, k);
    SubMembers(s, l);
  }

  lemma GetKeepsInclusion(s: seq<Item>, l: seq<Item>, c: Call, n: nat, m: nat)
    requires c.Get? && Included(s, l, n, m) && n <= m
    ensures Included(Step(s, c, n), Step(l, c, m), n, m)
  {
    FindMember(s, c.key);
    FindMember(l, c.key);
    SubRemove(s, l, c.key);
    RemoveMembers(s, c.key);
    RemoveMembers(l, c.key);
    if Find(s, c.key).Some? {
      SameFind(s, l, c.key);
      SubAppend(Remove(s, c.key), Remove(l, c.key), Find(l, c.key).value);
    } else {
      RemoveAbsent(s, c.key);
      if Find(l, c.key).Some? { SubWiden(s, Remove(l, c.key), Find(l, c.key).value); }
    }
  }

  lemma {:induction false} RemoveAbsent(items: seq<Item>, k: Key)
    requires Find(items, k).None?
    ensures Remove(items, k) == items
  {
    if items != [] { RemoveAbsent(items[1..], k); }
  }

  lemma {:induction false} SubWiden(s: seq<Item>, l: seq<Item>, x: Item)
    requires Sub(s, l)
    ensures Sub(s, l + [x])
    decreases |l|
  {
    if s != [] {
      assert (l + [x])[1..] == l[1..] + [x];
      if s[0] == l[0] { SubWiden(s[1..], l[1..], x); } else { SubWiden(s, l[1..], x); }
    }
  }

  lemma {:induction false} AddKeepsUnique(items: seq<Item>, k: Key, x: Item)
    requires UniqueKeys(items) && x.key == k
    ensures UniqueKeys(Remove(items, k) + [x])
    ensures |Remove(items, k) + [x]| == |items| + if Find(items, k).Some? then 0 else 1
  {
    RemoveMembers(items, k);
  }

  lemma SetKeepsInclusion(s: seq<Item>, l: seq<Item>, c: Call, n: nat, m: nat)
    requires c.Set? && c.ttl > 0.0 && Included(s, l, n, m) && 1 <= n <= m
    ensures Included(Step(s, c, n), Step(l, c, m), n, m)
  {
    var item := Item(c.key, c.entry, c.now + c.ttl);
    var s', l' := Remove(s, c.key) + [item], Remove(l, c.key) + [item];
    SubRemove(s, l, c.key);
    SubAppend(Remove(s, c.key), Remove(l, c.key), item);
    AddKeepsUnique(s, c.key, item);
    AddKeepsUnique(l, c.key, item);
    if Find(s, c.key).Some? { SameFind(s, l, c.key); }
    EvictKeepsInclusion(s', l', n, m);
  }

  // Both lists grew by one item at most, so each evicts at most its head; the larger one
  // can only evict the smaller one's head when the smaller one evicts it too.
  lemma {:induction false} EvictKeepsInclusion(s: seq<Item>, l: seq<Item>, n: nat, m: nat)
    requires Sub(s, l) && UniqueKeys(s) && UniqueKeys(l) && 1 <= n <= m
    requires |s| <= n + 1 && |l| <= m + 1 && |l| - |s| <= m - n
    ensures Included(Evict(s, n), Evict(l, m), n, m)
  {
    SubMembers(s, l);
    if |s| > n {
      SubTail(s, l);
      if |l| > m && s[0] != l[0] { SubTail(s, l[1..]); }
    }
  }

  lemma StepKeepsInclusion(s: seq<Item>, l: seq<Item>, c: Call, n: nat, m: nat)
    requires Included(s, l, n, m) && 1 <= n <= m
    ensures Included(Step(s, c, n), Step(l, c, m), n, m)
    ensures Reply(s, c).Some? ==> Reply(l, c) == Reply(s, c)
  {
    if c.Get? {
      GetKeepsInclusion(s, l, c, n, m);
      if Find(s, c.key).Some? { SameFind(s, l, c.key); }
    } else if c.ttl > 0.0 {
      SetKeepsInclusion(s, l, c, n, m);
    }
  }

  // On the same calls and clock readings a larger cache never loses a hit: its contents
  // include the smaller one's in the same order, and every hit in the smaller is the same
  // hit in the larger.
  lemma {:induction false} LargerCacheNeverLosesAHit(calls: seq<Call>, n: nat, m: nat)
    requires 1 <= n <= m
    ensures Included(Run(calls, n), Run(calls, m), n, m)
    ensures |Replies(calls, n)| == |Replies(calls, m)| == |calls|
    ensures forall i :: 0 <= i < |calls| && Replies(calls, n)[i].Some? ==> Replies(calls, m)[i] == Replies(calls, n)[i]
  {
    if calls != [] {
      var before := calls[..|calls| - 1];
      LargerCacheNeverLosesAHit(before, n, m);
      StepKeepsInclusion(Run(before, n), Run(before, m), calls[|calls| - 1], n, m);
    }
  }

  // ---- hits --------------------------------------------------------------

  // What the latest effective `set` of a key stored.
  function LatestSet(calls: seq<Call>, k: Key): Option<Item> {
    if calls == [] then None else
    var c := calls[|calls| - 1];
    if c.Set? && c.key == k && c.ttl > 0.0 then Some(Item(k, c.entry, c.now + c.ttl))
    else LatestSet(calls[..|calls| - 1], k)
  }

  lemma StepItems(items: seq<Item>, c: Call, max: nat)
    requires UniqueKeys(items)
    ensures UniqueKeys(Step(items, c, max))
    ensures forall x <- Step(items, c, max) ::
              if c.Set? && c.ttl > 0.0 && x.key == c.key then x == Item(c.key, c.entry, c.now + c.ttl) else x in items
  {
    RemoveMembers(items, c.key);
    if c.Get? {
      FindMember(items, c.key);
    } else {
      EvictItems(Remove(items, c.key) + [Item(c.key, c.entry, c.now + c.ttl)], max);
    }
  }

  lemma EvictItems(items: seq<Item>, max: nat)
    requires UniqueKeys(items)
    ensures UniqueKeys(Evict(items, max)) && forall x <- Evict(items, max) :: x in items
  {
  }

  lemma {:induction false} ItemsAreLatest(calls: seq<Call>, max: nat)
    ensures UniqueKeys(Run(calls, max))
    ensures forall x <- Run(calls, max) :: LatestSet(calls, x.key) == Some(x)
  {
    if calls != [] {
      ItemsAreLatest(calls[..|calls| - 1], max);
      StepItems(Run(calls[..|calls| - 1], max), calls[|calls| - 1], max);
    }
  }

  // A hit is the entry of the latest `set` of that key, and has not expired.
  lemma {:induction false} HitIsLatestSet(calls: seq<Call>, max: nat, now: real, k: Key)
    requires Reply(Run(calls, max), Get(now, k)).Some?
    ensures var latest := LatestSet(calls, k);
            && latest.Some? && latest.value.expiresAt > now
            && Reply(Run(calls, max), Get(now, k)) == Some(latest.value.entry)
  {
    ItemsAreLatest(calls, max);
    FindMember(Run(calls, max), k);
  }
}
