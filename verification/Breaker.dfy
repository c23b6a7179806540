/**
 Circuit breaker per backend: a timed state machine driven by calls in any order,
 including reports from calls admitted long before.
 */
module Breaker {

  datatype Mode = Closed | Open | HalfOpen

  datatype Breaker = Breaker(mode: Mode, failures: nat, openedAt: real, probeTaken: bool)

  datatype Settings = Settings(threshold: nat, recovery: real)

  datatype Call =
    | Allows(at: real)
    | Success(at: real)
    | Failure(at: real)

  const FRESH := Breaker(Closed, 0, 0.0, false)

  function Trip(b: Breaker, now: real): Breaker {
    b.(mode := Open, openedAt := now, probeTaken := false)
  }

  predicate IsDue(b: Breaker, now: real, s: Settings) {
    now - b.openedAt >= s.recovery
  }

  // The answer of `allows`.
  predicate Admits(b: Breaker, now: real, s: Settings) {
    match b.mode
    case Closed => true
    case Open => IsDue(b, now, s)
    case HalfOpen => !b.probeTaken
  }

  function Step(b: Breaker, c: Call, s: Settings): Breaker {
    match c
    case Allows(now) =>
      if b.mode.Open? && IsDue(b, now, s) then b.(mode := HalfOpen, probeTaken := true)
      else if b.mode.HalfOpen? && !b.probeTaken then b.(probeTaken := true)
      else b
    case Success(_) => b.(mode := Closed, failures := 0, probeTaken := false)
    case Failure(now) =>
      var counted := b.(failures := b.failures + 1);
      if b.mode.HalfOpen? || counted.failures >= s.threshold then Trip(counted, now) else counted
  }

  function Run(calls: seq<Call>, s: Settings): Breaker {
    if calls == [] then FRESH
    else Step(Run(calls[..|calls| - 1], s), calls[|calls| - 1], s)
  }

  predicate ClockedRun(calls: seq<Call>) {
    forall i, j :: 0 <= i < j < |calls| ==> calls[i].at <= calls[j].at
  }

  // ---- meaning of the states, from the calls alone ------------------------

  // Failures reported since the last success.
  function FailuresSinceSuccess(calls: seq<Call>): nat {
    if calls == [] || calls[|calls| - 1].Success? then 0
    else FailuresSinceSuccess(calls[..|calls| - 1]) + if calls[|calls| - 1].Failure? then 1 else 0
  }

  // The breaker is closed exactly while fewer failures than the threshold were reported
  // since the last success, and half-open never has a second probe to give.
  lemma {:induction false} ModeFromCalls(calls: seq<Call>, s: Settings)
    requires s.threshold >= 1
    ensures var b := Run(calls, s);
            && b.failures == FailuresSinceSuccess(calls)
            && (b.mode.Closed? <==> FailuresSinceSuccess(calls) < s.threshold)
            && (b.mode.HalfOpen? <==> b.probeTaken)
  {
    if calls != [] { ModeFromCalls(calls[..|calls| - 1], s); }
  }

  // ---- the answer, from the calls alone -------------------------------------

  // Time of the last failure reported.
  function LastFailure(calls: seq<Call>): real {
    if calls == [] then 0.0
    else if calls[|calls| - 1].Failure? then calls[|calls| - 1].at
    else LastFailure(calls[..|calls| - 1])
  }

  // Since the last failure reported, some caller asked when it was at least the recovery
  // timeout old; the first one to do so was let through.
  predicate AskedInTime(calls: seq<Call>, recovery: real) {
    calls != [] && !calls[|calls| - 1].Failure? &&
    var before, last := calls[..|calls| - 1], calls[|calls| - 1];
    AskedInTime(before, recovery) || (last.Allows? && last.at - LastFailure(before) >= recovery)
  }

  lemma {:induction false} StateFromCalls(calls: seq<Call>, s: Settings)
    requires s.threshold >= 1
    ensures var b := Run(calls, s);
            && (b.mode.Closed? <==> FailuresSinceSuccess(calls) < s.threshold)
            && (!b.mode.Closed? ==> b.openedAt == LastFailure(calls)
                                    && (b.mode.HalfOpen? <==> AskedInTime(calls, s.recovery)))
  {
    ModeFromCalls(calls, s);
    if calls != [] {
      ModeFromCalls(calls[..|calls| - 1], s);
      StateFromCalls(calls[..|calls| - 1], s);
    }
  }

  // After any run, a caller is let through if and only if fewer failures than the threshold
  // were reported since the last success, or the last failure is at least the recovery
  // timeout old and nobody has been let through since it.
  lemma {:induction false} AnswerFromCalls(calls: seq<Call>, now: real, s: Settings)
    requires s.threshold >= 1
    ensures Admits(Run(calls, s), now, s)
        <==> || FailuresSinceSuccess(calls) < s.threshold
             || (now - LastFailure(calls) >= s.recovery && !AskedInTime(calls, s.recovery))
  {
    StateFromCalls(calls, s);
    ModeFromCalls(calls, s);
  }

  // ---- probes ------------------------------------------------------------

  // Call i is an `allows` answered yes while the breaker was not closed.
  predicate IsProbe(calls: seq<Call>, i: nat, s: Settings)
    requires i < |calls|
  {
    var b := Run(calls[..i], s);
    calls[i].Allows? && !b.mode.Closed? && Admits(b, calls[i].at, s)
  }

  predicate NoSuccessIn(calls: seq<Call>, i: nat, j: nat)
    requires i <= j <= |calls|
  {
    forall k :: i <= k < j ==> !calls[k].Success?
  }

  // After a probe, until the next success, either the probe is still out or the breaker
  // was opened again no earlier than the probe.
  lemma {:induction false} AfterProbe(calls: seq<Call>, i: nat, j: nat, s: Settings)
    requires s.threshold >= 1 && ClockedRun(calls)
    requires i < j <= |calls| && IsProbe(calls, i, s) && NoSuccessIn(calls, i, j)
    ensures var b := Run(calls[..j], s);
            && !b.mode.Closed? && (b.mode.HalfOpen? ==> b.probeTaken)
            && (b.mode.Open? ==> b.openedAt >= calls[i].at)
  {
    assert calls[..j][..j - 1] == calls[..j - 1];
    ModeFromCalls(calls[..j - 1], s);
    if j > i + 1 { AfterProbe(calls, i, j - 1, s); }
  }

  // Two probes with no success between them are at least the recovery timeout apart.
  lemma ProbesAreApart(calls: seq<Call>, i: nat, j: nat, s: Settings)
    requires s.threshold >= 1 && ClockedRun(calls)
    requires i < j < |calls| && IsProbe(calls, i, s) && IsProbe(calls, j, s) && NoSuccessIn(calls, i, j)
    ensures calls[j].at - calls[i].at >= s.recovery
  {
    AfterProbe(calls, i, j, s);
  }

  function Probes(calls: seq<Call>, i: nat, j: nat, s: Settings): nat
    requires i <= j <= |calls|
    decreases j - i
  {
    if i == j then 0 else Probes(calls, i, j - 1, s) + if IsProbe(calls, j - 1, s) then 1 else 0
  }

  // Position of the last probe in [i, j).
  lemma {:induction false} LastProbe(calls: seq<Call>, i: nat, j: nat, s: Settings) returns (k: nat)
    requires i <= j <= |calls| && Probes(calls, i, j, s) > 0
    ensures i <= k < j && IsProbe(calls, k, s) && Probes(calls, i, k, s) + 1 == Probes(calls, i, j, s)
    decreases j - i
  {
    if IsProbe(calls, j - 1, s) { k := j - 1; } else { k := LastProbe(calls, i, j - 1, s); }
  }

  // Total of the gaps between n probes.
  function Gaps(n: nat, gap: real): real {
    if n <= 1 then 0.0 else Gaps(n - 1, gap) + gap
  }

  // The time n events take when each is at least `gap` after the one before.
  function Stretch(n: nat, gap: real): real {
    (n as real - 1.0) * gap
  }

  lemma {:induction false} GapsIsProduct(n: nat, gap: real)
    requires gap > 0.0
    ensures Stretch(n, gap) <= Gaps(n, gap)
  {
    if n > 1 {
      GapsIsProduct(n - 1, gap);
      assert (n as real - 1.0) * gap == ((n - 1) as real - 1.0) * gap + gap;
    }
  }

  lemma {:induction false} ProbesSpread(calls: seq<Call>, i: nat, j: nat, s: Settings)
    requires s.threshold >= 1 && ClockedRun(calls)
    requires i < j <= |calls| && NoSuccessIn(calls, i, j)
    ensures Gaps(Probes(calls, i, j, s), s.recovery) <= calls[j - 1].at - calls[i].at
    decreases j
  {
    var n := Probes(calls, i, j, s);
    if n > 1 {
      var k := LastProbe(calls, i, j, s);
      var h := LastProbe(calls, i, k, s);
      ProbesAreApart(calls, h, k, s);
      ProbesSpread(calls, i, h + 1, s);
    }
  }

  // A success-free stretch of calls i .. j of length T sees at most 1 + T / recovery probes.
  lemma {:induction false} ProbeRate(calls: seq<Call>, i: nat, j: nat, s: Settings)
    requires s.threshold >= 1 && ClockedRun(calls) && s.recovery > 0.0
    requires i < j <= |calls| && NoSuccessIn(calls, i, j)
    ensures Stretch(Probes(calls, i, j, s), s.recovery) <= calls[j - 1].at - calls[i].at
  {
    ProbesSpread(calls, i, j, s);
    GapsIsProduct(Probes(calls, i, j, s), s.recovery);
  }

  // ---- the objects -------------------------------------------------------

  class CircuitBreaker {
    const settings: Settings
    var mode: Mode
    var failures: nat
    var openedAt: real
    var probeTaken: bool

    function View(): Breaker
      reads this
    {
      Breaker(mode, failures, openedAt, probeTaken)
    }

    constructor (settings: Settings)
      ensures View() == FRESH && this.settings == settings
    {
      this.settings := settings;
      mode, failures, openedAt, probeTaken := Closed, 0, 0.0, false;
    }

    method Allows(now: real) returns (allowed: bool)
      modifies this
      ensures View() == Step(old(View()), Call.Allows(now), settings)
      ensures allowed <==> Admits(old(View()), now, settings)
    {
      if mode == Closed {
        return true;
      }
      if mode == Open {
        if now - openedAt >= settings.recovery {
          mode, probeTaken := HalfOpen, true;
          return true;
        }
        return false;
      }
      if !probeTaken {
        probeTaken := true;
        return true;
      }
      allowed := false;
    }

    // Zero exactly when the breaker is closed or a retry is already due.
    method RetryAfter(now: real) returns (wait: real)
      ensures wait >= 0.0
      ensures mode != Closed && now - openedAt < settings.recovery ==> now + wait == openedAt + settings.recovery
      ensures wait == 0.0 <==> mode == Closed || IsDue(View(), now, settings)
      ensures mode != Closed ==> IsDue(View(), now + wait, settings)
    {
      if mode == Closed {
        return 0.0;
      }
      var remaining := settings.recovery - (now - openedAt);
      wait := if remaining > 0.0 then remaining else 0.0;
    }

    method RecordSuccess(now: real)
      modifies this
      ensures View() == Step(old(View()), Call.Success(now), settings)
    {
      mode, failures, probeTaken := Closed, 0, false;
    }

    method RecordFailure(now: real)
      modifies this
      ensures View() == Step(old(View()), Call.Failure(now), settings)
    {
      failures := failures + 1;
      if mode == HalfOpen {
        TripNow(now);
        return;
      }
      if failures >= settings.threshold {
        TripNow(now);
      }
    }

    method TripNow(now: real)
      modifies this
      ensures View() == Trip(old(View()), now)
    {
      mode, openedAt, probeTaken := Open, now, false;
    }
  }

  class BreakerRegistry {
    const settings: Settings
    var breakers: map<string, CircuitBreaker>

    // Breakers of different backends are different objects with the same settings.
    ghost predicate Valid()
      reads this
    {
      && (forall n <- breakers :: breakers[n].settings == settings)
      && (forall n, m :: n in breakers && m in breakers && n != m ==> breakers[n] != breakers[m])
    }

    constructor (settings: Settings)
      ensures Valid() && breakers == map[] && this.settings == settings
    {
      this.settings := settings;
      breakers := map[];
    }

    method Get(name: string) returns (b: CircuitBreaker)
      requires Valid()
      modifies this
      ensures Valid() && name in breakers && b == breakers[name]
      ensures name in old(breakers) ==> breakers == old(breakers)
      ensures name !in old(breakers) ==> breakers == old(breakers)[name := b] && fresh(b) && b.View() == FRESH
    {
      if name in breakers {
        return breakers[name];
      }
      b := new CircuitBreaker(settings);
      breakers := breakers[name := b];
    }
  }
}
