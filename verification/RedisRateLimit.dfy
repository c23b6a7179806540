/**
 The shared token bucket: the consume script on a hash whose key expires.
 */
module RedisRateLimit {
  import Arithmetic
  import opened RateLimit

  // The bucket hash of one user, or nothing.
  datatype Slot = Gone | Stored(tokens: real, ts: real, expireAt: real)

  // int(max(60, capacity / max(rate, 0.001) * 2))
  function Ttl(p: Params): int {
    Max(60.0, p.capacity / Max(p.rate, 0.001) * 2.0).Floor
  }

  // What the script reads.
  function Visible(s: Slot, now: real): Bucket {
    if s.Stored? && now < s.expireAt then Bucket(s.tokens, s.ts) else Fresh
  }

  predicate RedisAdmits(p: Params, s: Slot, c: Check) {
    Admits(p, Visible(s, c.at), c)
  }

  function RedisNext(p: Params, ttl: int, s: Slot, c: Check): Slot {
    var b := Next(p, Visible(s, c.at), c);
    Stored(b.tokens, c.at, c.at + ttl as real)
  }

  function RedisAfter(p: Params, ttl: int, cs: seq<Check>): Slot {
    if cs == [] then Gone else RedisNext(p, ttl, RedisAfter(p, ttl, cs[..|cs| - 1]), cs[|cs| - 1])
  }

  predicate RedisAdmitted(p: Params, ttl: int, cs: seq<Check>, i: nat)
    requires i < |cs|
  {
    RedisAdmits(p, RedisAfter(p, ttl, cs[..i]), cs[i])
  }

  // The script body with its running `tokens`.
  method Consume(p: Params, ttl: int, s: Slot, now: real, cost: real)
    returns (allowed: bool, remaining: real, after: Slot)
    ensures allowed <==> RedisAdmits(p, s, Check(now, cost))
    ensures after == RedisNext(p, ttl, s, Check(now, cost)) && remaining == after.tokens
  {
    var tokens, ts := p.capacity, now;
    if s.Stored? && now < s.expireAt {
      tokens, ts := s.tokens, s.ts;
    }
    var elapsed := now - ts;
    if elapsed < 0.0 {
      elapsed := 0.0;
    }
    var refilled := tokens + elapsed * p.rate;
    tokens := if p.capacity <= refilled then p.capacity else refilled;
    allowed := tokens >= cost;
    if allowed {
      tokens := tokens - cost;
    }
    remaining := tokens;
    after := Stored(tokens, now, now + ttl as real);
  }

  // ---- expiry is invisible exactly when a full refill fits into the ttl ----

  ghost predicate SaneTrace(cs: seq<Check>) {
    Clocked(cs) && forall c <- cs :: c.cost >= 0.0
  }

  // The slot is the bucket, or it has expired and the bucket is full again.
  ghost predicate Tracks(ttl: int, s: Slot, b: Bucket) {
    match b
    case Fresh => s == Gone
    case Bucket(tokens, last) => tokens >= 0.0 && s == Stored(tokens, last, last + ttl as real)
  }

  lemma VisibleIsBucket(p: Params, ttl: int, s: Slot, b: Bucket, now: real)
    requires p.rate >= 0.0 && p.rate * ttl as real >= p.capacity
    requires Tracks(ttl, s, b) && LastBy(b, now)
    ensures Available(p, Visible(s, now), now) == Available(p, b, now)
  {
    if b.Bucket? && now >= b.last + ttl as real {
      AvailableLater(p, b, now);
      RefillAdds(p, b.last, b.last + ttl as real, now);
      RefillNonNegative(p, b.last + ttl as real, now);
      assert Refill(p, b.last, b.last + ttl as real) == p.rate * ttl as real;
    }
  }

  lemma {:induction false} RunTracks(p: Params, ttl: int, cs: seq<Check>)
    requires SaneTrace(cs) && p.rate >= 0.0 && p.capacity >= 0.0 && p.rate * ttl as real >= p.capacity
    ensures Tracks(ttl, RedisAfter(p, ttl, cs), After(p, cs))
  {
    if cs != [] {
      var n := |cs| - 1;
      assert cs[n] in cs;
      RunTracks(p, ttl, cs[..n]);
      AfterIsClocked(p, cs[..n], cs[n].at);
      var b := After(p, cs[..n]);
      if b.Bucket? {
        AvailableLater(p, b, cs[n].at);
        RefillNonNegative(p, b.last, cs[n].at);
      }
      VisibleIsBucket(p, ttl, RedisAfter(p, ttl, cs[..n]), b, cs[n].at);
    }
  }

  ghost predicate AgreeOnAll(p: Params, ttl: int) {
    forall cs: seq<Check>, i: nat :: SaneTrace(cs) && i < |cs| ==>
      (RedisAdmitted(p, ttl, cs, i) <==> Admitted(p, cs, i))
  }

  // Drain the bucket, wait for the key to expire, and ask for everything again.
  lemma ExpiryOverAdmits(p: Params, ttl: int)
    requires p.rate >= 0.0 && p.capacity >= 0.0 && ttl >= 0 && p.rate * ttl as real < p.capacity
    ensures var cs := [Check(0.0, p.capacity), Check(ttl as real, p.capacity)];
            SaneTrace(cs) && RedisAdmitted(p, ttl, cs, 1) && !Admitted(p, cs, 1)
  {
    var cs := [Check(0.0, p.capacity), Check(ttl as real, p.capacity)];
    assert cs[..1] == [Check(0.0, p.capacity)] && cs[..1][..0] == [];
    assert After(p, cs[..1]) == Bucket(0.0, 0.0);
    AvailableLater(p, Bucket(0.0, 0.0), ttl as real);
    assert Refill(p, 0.0, ttl as real) == p.rate * ttl as real;
  }

  // The two limiters decide alike on every trace if and only if the ttl lasts at least as
  // long as a full refill takes.
  lemma AgreementCondition(p: Params, ttl: int)
    requires p.rate >= 0.0 && p.capacity >= 0.0 && ttl >= 0
    ensures AgreeOnAll(p, ttl) <==> p.rate * ttl as real >= p.capacity
  {
    if p.rate * ttl as real >= p.capacity {
      forall cs: seq<Check>, i: nat | SaneTrace(cs) && i < |cs|
        ensures RedisAdmitted(p, ttl, cs, i) <==> Admitted(p, cs, i)
      {
        RunTracks(p, ttl, cs[..i]);
        AfterIsClocked(p, cs[..i], cs[i].at);
        VisibleIsBucket(p, ttl, RedisAfter(p, ttl, cs[..i]), After(p, cs[..i]), cs[i].at);
      }
    } else {
      ExpiryOverAdmits(p, ttl);
    }
  }

  lemma FloorCovers(full: real)
    requires full >= 0.0
    ensures Max(60.0, full * 2.0).Floor >= 60 && Max(60.0, full * 2.0).Floor as real >= full
  {
  }

  lemma LongEnough(capacity: real, rate: real, ttl: int)
    requires rate > 0.0 && ttl as real >= capacity / rate
    ensures rate * ttl as real >= capacity
  {
    assert capacity / rate * rate == capacity;
    Arithmetic.Scale(capacity / rate, ttl as real, rate);
  }

  lemma TtlLasts(p: Params)
    requires p.rate >= 0.001 && p.capacity >= 0.0
    ensures Ttl(p) >= 60 && Ttl(p) as real >= p.capacity / p.rate
  {
    assert Max(p.rate, 0.001) == p.rate;
    FloorCovers(p.capacity / p.rate);
  }

  // The ttl the code computes is long enough whenever the rate is not below its guard.
  lemma TtlCoversRefill(p: Params)
    requires p.rate >= 0.001 && p.capacity >= 0.0
    ensures Ttl(p) >= 60 && AgreeOnAll(p, Ttl(p))
    ensures Ttl(p) > 60 ==> Ttl(p) as real <= 2.0 * (p.capacity / p.rate)
  {
    TtlLasts(p);
    LongEnough(p.capacity, p.rate, Ttl(p));
    AgreementCondition(p, Ttl(p));
  }
}
