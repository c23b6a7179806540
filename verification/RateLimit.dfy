/**
 Token buckets, refilled lazily when read: the in-process one, and the shared one whose
 key expires.  The results are about one user's calls; the class keeps users apart.
 */
module RateLimit {
  import Arithmetic

  datatype Params = Params(capacity: real, rate: real)

  datatype Bucket = Fresh | Bucket(tokens: real, last: real)

  datatype Check = Check(at: real, cost: real)

  function Min(a: real, b: real): real {
    if a <= b then a else b
  }

  function Max(a: real, b: real): real {
    if a >= b then a else b
  }

  function Refill(p: Params, from: real, to: real): real {
    (to - from) * p.rate
  }

  // What a refill is: the rate for every second.
  lemma RefillIsRate(p: Params, from: real, to: real)
    ensures Refill(p, from, to) == (to - from) * p.rate && Refill(p, from, from + 1.0) == p.rate
  {
  }

  // Tokens on offer at `now`.
  function Available(p: Params, b: Bucket, now: real): real {
    match b
    case Fresh => p.capacity
    case Bucket(tokens, last) => Min(p.capacity, tokens + Max(0.0, now - last) * p.rate)
  }

  predicate Admits(p: Params, b: Bucket, c: Check) {
    c.cost <= Available(p, b, c.at)
  }

  function Next(p: Params, b: Bucket, c: Check): Bucket {
    var available := Available(p, b, c.at);
    Bucket(if Admits(p, b, c) then available - c.cost else available, c.at)
  }

  function After(p: Params, cs: seq<Check>): Bucket {
    if cs == [] then Fresh else Next(p, After(p, cs[..|cs| - 1]), cs[|cs| - 1])
  }

  predicate Clocked(cs: seq<Check>) {
    forall i, j :: 0 <= i < j < |cs| ==> cs[i].at <= cs[j].at
  }

  predicate Admitted(p: Params, cs: seq<Check>, i: nat)
    requires i < |cs|
  {
    Admits(p, After(p, cs[..i]), cs[i])
  }

  // Tokens on offer to check i.
  function Level(p: Params, cs: seq<Check>, i: nat): real
    requires i < |cs|
  {
    Available(p, After(p, cs[..i]), cs[i].at)
  }

  // Cost admitted by the checks i .. j, without j.
  function Consumed(p: Params, cs: seq<Check>, i: nat, j: nat): real
    requires i <= j <= |cs|
    decreases j
  {
    if i == j then 0.0 else Consumed(p, cs, i, j - 1) + if Admitted(p, cs, j - 1) then cs[j - 1].cost else 0.0
  }

  // ---- exactness ---------------------------------------------------------

  lemma RefillAdds(p: Params, a: real, b: real, c: real)
    ensures Refill(p, a, b) + Refill(p, b, c) == Refill(p, a, c)
  {
  }

  lemma RefillNonNegative(p: Params, a: real, b: real)
    requires p.rate >= 0.0 && a <= b
    ensures Refill(p, a, b) >= 0.0
  {
  }

  lemma AvailableLater(p: Params, b: Bucket, now: real)
    requires b.Bucket? && b.last <= now
    ensures Available(p, b, now) == Min(p.capacity, b.tokens + Refill(p, b.last, now))
  {
  }

  // One lazy refill: the level at check i + 1 from the level at check i.
  lemma LevelStep(p: Params, cs: seq<Check>, i: nat)
    requires Clocked(cs) && i + 1 < |cs|
    ensures Level(p, cs, i + 1)
         == Min(p.capacity, Level(p, cs, i) - Consumed(p, cs, i, i + 1) + Refill(p, cs[i].at, cs[i + 1].at))
  {
    assert cs[..i + 1][..i] == cs[..i];
    AvailableLater(p, After(p, cs[..i + 1]), cs[i + 1].at);
    assert Consumed(p, cs, i, i) == 0.0;
  }

  lemma {:induction false} LevelAtMost(p: Params, cs: seq<Check>, j: nat, i: nat)
    requires Clocked(cs) && j <= i < |cs|
    ensures Level(p, cs, i) <= p.capacity
    ensures Level(p, cs, i) <= p.capacity - Consumed(p, cs, j, i) + Refill(p, cs[j].at, cs[i].at)
    decreases i
  {
    if j < i {
      LevelStep(p, cs, i - 1);
      LevelAtMost(p, cs, j, i - 1);
      RefillAdds(p, cs[j].at, cs[i - 1].at, cs[i].at);
      assert Consumed(p, cs, i - 1, i - 1) == 0.0;
    }
  }

  // The level is full, or it is set by what was admitted since some earlier check.
  lemma {:induction false} LevelIsAttained(p: Params, cs: seq<Check>, i: nat) returns (j: nat)
    requires Clocked(cs) && i < |cs|
    ensures j <= i
    ensures Level(p, cs, i) == if j == i then p.capacity
                               else p.capacity - Consumed(p, cs, j, i) + Refill(p, cs[j].at, cs[i].at)
    decreases i
  {
    if i == 0 {
      return 0;
    }
    LevelStep(p, cs, i - 1);
    if Level(p, cs, i) == p.capacity {
      return i;
    }
    j := LevelIsAttained(p, cs, i - 1);
    RefillAdds(p, cs[j].at, cs[i - 1].at, cs[i].at);
    assert Consumed(p, cs, i - 1, i - 1) == 0.0;
  }

  // A check conforms when, for itself and every earlier check, the cost admitted since
  // then plus its own stays within the capacity plus the refill since then.
  ghost predicate Conforms(p: Params, cs: seq<Check>, i: nat)
    requires i < |cs|
  {
    && cs[i].cost <= p.capacity
    && forall j :: 0 <= j < i ==>
         Consumed(p, cs, j, i) + cs[i].cost <= p.capacity + Refill(p, cs[j].at, cs[i].at)
  }

  // A check is admitted exactly when it conforms: the lazy bucket never over-admits and
  // never refuses a conforming request.
  lemma BucketIsExact(p: Params, cs: seq<Check>, i: nat)
    requires Clocked(cs) && i < |cs|
    ensures Admitted(p, cs, i) <==> Conforms(p, cs, i)
  {
    var j := LevelIsAttained(p, cs, i);
    LevelAtMost(p, cs, i, i);
    forall k | 0 <= k < i
      ensures Level(p, cs, i) <= p.capacity - Consumed(p, cs, k, i) + Refill(p, cs[k].at, cs[i].at)
    {
      LevelAtMost(p, cs, k, i);
    }
  }

  // Cost admitted by the checks with a time in [from, to].
  function AdmittedWithin(p: Params, cs: seq<Check>, n: nat, from: real, to: real): real
    requires n <= |cs|
  {
    if n == 0 then 0.0 else
    AdmittedWithin(p, cs, n - 1, from, to)
    + if from <= cs[n - 1].at <= to && Admitted(p, cs, n - 1) then cs[n - 1].cost else 0.0
  }

  // From the first check inside the interval on, the interval's cost is a stretch of checks.
  lemma {:induction false} WithinIsStretch(p: Params, cs: seq<Check>, n: nat, from: real, to: real) returns (j: nat)
    requires Clocked(cs) && n <= |cs| && n > 0 && from <= cs[n - 1].at <= to
    ensures j < n && from <= cs[j].at && AdmittedWithin(p, cs, n, from, to) == Consumed(p, cs, j, n)
  {
    if n == 1 || cs[n - 2].at < from {
      j := n - 1;
      NothingBefore(p, cs, n - 1, from, to);
      assert Consumed(p, cs, n - 1, n - 1) == 0.0;
    } else {
      j := WithinIsStretch(p, cs, n - 1, from, to);
    }
  }

  lemma {:induction false} NothingBefore(p: Params, cs: seq<Check>, n: nat, from: real, to: real)
    requires n <= |cs| && forall k :: 0 <= k < n ==> cs[k].at < from
    ensures AdmittedWithin(p, cs, n, from, to) == 0.0
  {
    if n > 0 { NothingBefore(p, cs, n - 1, from, to); }
  }

  lemma RefillMonotone(p: Params, from: real, a: real, b: real, to: real)
    requires p.rate >= 0.0 && from <= a <= b <= to
    ensures 0.0 <= Refill(p, a, b) <= Refill(p, from, to)
  {
    RefillAdds(p, from, a, b);
    RefillAdds(p, from, b, to);
    RefillNonNegative(p, from, a);
    RefillNonNegative(p, a, b);
    RefillNonNegative(p, b, to);
  }

  // In any interval at most the capacity plus the refill over its length is admitted.
  lemma {:induction false} IntervalBound(p: Params, cs: seq<Check>, n: nat, from: real, to: real)
    requires Clocked(cs) && n <= |cs| && from <= to && p.capacity >= 0.0 && p.rate >= 0.0
    ensures AdmittedWithin(p, cs, n, from, to) <= p.capacity + Refill(p, from, to)
    decreases n
  {
    if n == 0 {
      RefillMonotone(p, from, from, from, to);
    } else if from <= cs[n - 1].at <= to && Admitted(p, cs, n - 1) {
      var j := WithinIsStretch(p, cs, n, from, to);
      StretchBound(p, cs, j, n);
      RefillMonotone(p, from, cs[j].at, cs[n - 1].at, to);
    } else {
      IntervalBound(p, cs, n - 1, from, to);
    }
  }

  lemma {:induction false} StretchBound(p: Params, cs: seq<Check>, j: nat, n: nat)
    requires Clocked(cs) && j < n <= |cs| && Admitted(p, cs, n - 1)
    ensures Consumed(p, cs, j, n) <= p.capacity + Refill(p, cs[j].at, cs[n - 1].at)
  {
    BucketIsExact(p, cs, n - 1);
    assert Consumed(p, cs, j, n) == Consumed(p, cs, j, n - 1) + cs[n - 1].cost;
    assert j == n - 1 ==> Consumed(p, cs, j, j) == 0.0;
  }

  // ---- rejected checks are invisible -------------------------------------

  // The admitted checks of a trace.
  function Kept(p: Params, cs: seq<Check>): seq<Check> {
    if cs == [] then [] else
    var n := |cs| - 1;
    if Admitted(p, cs, n) then Kept(p, cs[..n]) + [cs[n]] else Kept(p, cs[..n])
  }

  ghost predicate SameFrom(p: Params, a: Bucket, b: Bucket, since: real) {
    forall now: real :: now >= since ==> Available(p, a, now) == Available(p, b, now)
  }

  predicate LastBy(b: Bucket, now: real) {
    b.Bucket? ==> b.last <= now
  }

  lemma {:induction false} AfterIsClocked(p: Params, cs: seq<Check>, now: real)
    requires forall c <- cs :: c.at <= now
    ensures LastBy(After(p, cs), now)
  {
  }

  // Reading the bucket and writing the refill back changes nothing later on.
  lemma ReadIsHarmless(p: Params, b: Bucket, at: real, now: real)
    requires p.rate >= 0.0 && LastBy(b, at) && at <= now
    ensures Available(p, Bucket(Available(p, b, at), at), now) == Available(p, b, now)
  {
    RefillNonNegative(p, at, now);
    AvailableLater(p, Bucket(Available(p, b, at), at), now);
    if b.Bucket? {
      RefillAdds(p, b.last, at, now);
      AvailableLater(p, b, at);
      AvailableLater(p, b, now);
    }
  }

  lemma {:induction false} KeptTimes(p: Params, cs: seq<Check>)
    ensures forall c <- Kept(p, cs) :: c in cs
  {
    if cs != [] { KeptTimes(p, cs[..|cs| - 1]); }
  }

  // Deleting every rejected check leaves the level at each later time as it was, and every
  // remaining check admitted.
  lemma {:induction false} RejectionsAreInvisible(p: Params, cs: seq<Check>, since: real)
    requires Clocked(cs) && p.rate >= 0.0 && (cs != [] ==> cs[|cs| - 1].at <= since)
    ensures SameFrom(p, After(p, cs), After(p, Kept(p, cs)), since)
    ensures forall i :: 0 <= i < |Kept(p, cs)| ==> Admitted(p, Kept(p, cs), i)
  {
    if cs != [] {
      var n := |cs| - 1;
      var c, before, kept := cs[n], cs[..n], Kept(p, cs[..n]);
      RejectionsAreInvisible(p, before, c.at);
      assert Available(p, After(p, before), c.at) == Available(p, After(p, kept), c.at);
      KeptTimes(p, before);
      AfterIsClocked(p, kept, c.at);
      AfterIsClocked(p, before, c.at);
      if Admitted(p, cs, n) {
        var longer := kept + [c];
        assert longer[..|kept|] == kept;
        forall i | 0 <= i < |longer| ensures Admitted(p, longer, i) {
          if i < |kept| { assert longer[..i] == kept[..i] && Admitted(p, kept, i); }
        }
      } else {
        forall now: real | now >= since
          ensures Available(p, After(p, cs), now) == Available(p, After(p, kept), now)
        {
          ReadIsHarmless(p, After(p, before), c.at, now);
        }
      }
    }
  }

  // ---- retry -------------------------------------------------------------

  // The wait a rejection announces, for a positive rate.
  function RetryAfter(p: Params, cs: seq<Check>, i: nat): real
    requires i < |cs| && p.rate > 0.0
  {
    (cs[i].cost - Level(p, cs, i)) / p.rate
  }

  lemma RejectionKeepsLevel(p: Params, b: Bucket, c: Check, now: real)
    requires p.rate >= 0.0 && LastBy(b, c.at) && c.at <= now && !Admits(p, b, c)
    ensures Available(p, Next(p, b, c), now) == Available(p, b, now)
  {
    ReadIsHarmless(p, b, c.at, now);
  }

  lemma {:induction false} LevelAfterRejections(p: Params, cs: seq<Check>, i: nat, n: nat, now: real)
    requires Clocked(cs) && i < n <= |cs| && p.rate >= 0.0 && cs[n - 1].at <= now
    requires forall k :: i <= k < n ==> !Admitted(p, cs, k)
    ensures Available(p, After(p, cs[..n]), now) == Available(p, Bucket(Level(p, cs, i), cs[i].at), now)
    decreases n
  {
    assert cs[..n][..n - 1] == cs[..n - 1];
    assert !Admitted(p, cs, n - 1);
    if n - 1 > i {
      LevelAfterRejections(p, cs, i, n - 1, now);
      AfterIsClocked(p, cs[..n - 1], cs[n - 1].at);
      RejectionKeepsLevel(p, After(p, cs[..n - 1]), cs[n - 1], now);
    }
  }

  lemma {:induction false} LevelAtRetry(p: Params, cs: seq<Check>, i: nat, retry: real)
    requires Clocked(cs) && i < |cs| && p.rate >= 0.0 && cs[|cs| - 1].at <= retry
    requires forall k :: i <= k < |cs| ==> !Admitted(p, cs, k)
    ensures Available(p, After(p, cs), retry) == Available(p, Bucket(Level(p, cs, i), cs[i].at), retry)
  {
    LevelAfterRejections(p, cs, i, |cs|, retry);
    assert cs[..|cs|] == cs;
  }

  // After a rejection of a cost within capacity, with no admission since, a retry of the
  // same cost succeeds exactly when the announced wait has passed.
  lemma {:induction false} RetryIsExact(p: Params, cs: seq<Check>, i: nat, retry: real)
    requires Clocked(cs) && i < |cs| && p.rate > 0.0 && cs[|cs| - 1].at <= retry
    requires cs[i].cost <= p.capacity
    requires forall k :: i <= k < |cs| ==> !Admitted(p, cs, k)
    ensures Admits(p, After(p, cs), Check(retry, cs[i].cost)) <==> retry - cs[i].at >= RetryAfter(p, cs, i)
  {
    LevelAtRetry(p, cs, i, retry);
    WaitIsExact(p, Level(p, cs, i), cs[i], retry);
  }

  lemma WaitIsExact(p: Params, level: real, c: Check, retry: real)
    requires p.rate > 0.0 && c.at <= retry && c.cost <= p.capacity
    ensures c.cost <= Available(p, Bucket(level, c.at), retry) <==> retry - c.at >= (c.cost - level) / p.rate
  {
    AvailableLater(p, Bucket(level, c.at), retry);
    Deficit(c.cost - level, retry - c.at, p.rate);
  }

  lemma Deficit(deficit: real, elapsed: real, rate: real)
    requires rate > 0.0
    ensures elapsed * rate >= deficit <==> elapsed >= deficit / rate
  {
    Arithmetic.Quotient(deficit, rate);
    Arithmetic.ScaleBoth(deficit / rate, elapsed, rate, deficit);
  }

  // ---- the limiter -------------------------------------------------------

  datatype Verdict = Pass | Exceeded(retryAfter: real) | NeverRefills

  class TokenBucketLimiter {
    const params: Params
    var buckets: map<string, (real, real)>  // tokens remaining, time of last refill

    function View(user: string): Bucket
      reads this
    {
      if user in buckets then Bucket(buckets[user].0, buckets[user].1) else Fresh
    }

    constructor (params: Params)
      ensures buckets == map[] && this.params == params
    {
      this.params := params;
      buckets := map[];
    }

    method Current(user: string, now: real) returns (tokens: real)
      ensures tokens == Available(params, View(user), now)
    {
      var (stored, last) := if user in buckets then buckets[user] else (params.capacity, now);
      var elapsed := if now - last > 0.0 then now - last else 0.0;
      var refilled := stored + elapsed * params.rate;
      tokens := if params.capacity <= refilled then params.capacity else refilled;
    }

    // Other users' buckets are untouched.
    method CheckNow(user: string, cost: real, now: real) returns (v: Verdict)
      modifies this
      ensures View(user) == Next(params, old(View(user)), Check(now, cost))
      ensures v.Pass? <==> Admits(params, old(View(user)), Check(now, cost))
      ensures v.NeverRefills? ==> params.rate <= 0.0
      ensures v.Exceeded? ==>
                && params.rate > 0.0
                && v.retryAfter == (cost - Available(params, old(View(user)), now)) / params.rate > 0.0
      ensures forall u :: u != user ==> View(u) == old(View(u))
    {
      var available := Current(user, now);
      if available < cost {
        buckets := buckets[user := (available, now)];
        if params.rate > 0.0 {
          Deficit(cost - available, 0.0, params.rate);
          return Exceeded((cost - available) / params.rate);
        }
        return NeverRefills;
      }
      buckets := buckets[user := (available - cost, now)];
      v := Pass;
    }
  }
}
