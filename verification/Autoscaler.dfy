/**
 The autoscaling controller: ceil(load / target) clamped, with a cooldown per direction.
 */
module Autoscaler {
  import opened Arithmetic

  datatype Settings = Settings(minReplicas: nat, maxReplicas: nat, target: real,
                               upCooldown: real, downCooldown: real)

  datatype Scaler = Scaler(current: nat, lastUp: real, lastDown: real)

  datatype Reason = Up | Down | UpSuppressed | DownSuppressed | NoChange

  datatype ScaleDecision = ScaleDecision(current: nat, desired: nat, reason: Reason)

  type Config = s: Settings | s.target > 0.0 witness Settings(1, 20, 4.0, 10.0, 60.0)

  // Slots that a number of replicas is sized for.
  function CapacityFor(replicas: nat, target: real): nat {
    Max(1, (replicas as real * target).Floor)
  }

  // Replicas the load asks for, before clamping.
  function Needed(c: Config, load: nat): int {
    if load > 0 then Ceil(load as real / c.target) else 0
  }

  function RawDesired(c: Config, load: nat): nat {
    Max(c.minReplicas, Min(Needed(c, load), c.maxReplicas))
  }

  function Start(c: Config): Scaler {
    Scaler(c.minReplicas, 0.0, 0.0)
  }

  function Decide(c: Config, s: Scaler, load: nat, now: real): ScaleDecision {
    var desired := RawDesired(c, load);
    if desired > s.current then
      if now - s.lastUp >= c.upCooldown then ScaleDecision(s.current, desired, Up)
      else ScaleDecision(s.current, s.current, UpSuppressed)
    else if desired < s.current then
      if now - s.lastDown >= c.downCooldown then ScaleDecision(s.current, desired, Down)
      else ScaleDecision(s.current, s.current, DownSuppressed)
    else ScaleDecision(s.current, s.current, NoChange)
  }

  function Apply(s: Scaler, d: ScaleDecision, now: real): Scaler {
    if d.desired == d.current then s
    else if d.desired > s.current then Scaler(d.desired, now, s.lastDown)
    else Scaler(d.desired, s.lastUp, now)
  }

  // ---- arithmetic --------------------------------------------------------

  // Enough replicas for the load give enough slots for the load, and one replica fewer
  // than the load needs would not be enough.
  lemma NeededIsExact(c: Config, load: nat, replicas: nat)
    ensures replicas >= Needed(c, load) <==> replicas as real * c.target >= load as real
    ensures replicas >= Needed(c, load) && load > 0 ==> CapacityFor(replicas, c.target) >= load
  {
    if load > 0 {
      var q := load as real / c.target;
      Quotient(load as real, c.target);
      CeilIsLeast(q, replicas);
      ScaleBoth(q, replicas as real, c.target, load as real);
    } else {
      Scale(0.0, replicas as real, c.target);
    }
  }

  // The slots of a number of replicas: as many whole ones as they make, and at least one.
  lemma CapacityIsFloor(replicas: nat, target: real)
    ensures var slots := CapacityFor(replicas, target);
            && slots >= 1 && replicas as real * target < slots as real + 1.0
            && (slots > 1 ==> slots as real <= replicas as real * target)
  {
  }

  ghost predicate Covers(n: nat, load: nat, target: real) {
    n as real * target >= load as real
  }

  // The fewest replicas that cover the load.
  ghost predicate Fewest(n: nat, load: nat, target: real) {
    Covers(n, load, target) && forall m: nat :: Covers(m, load, target) ==> n <= m
  }

  lemma FewestIsNeeded(c: Config, load: nat, n: nat)
    requires Fewest(n, load, c.target)
    ensures Needed(c, load) == n
  {
    NeededIsExact(c, load, n);
    NeededNotNegative(c, load);
    NeededIsExact(c, load, Needed(c, load));
    assert Covers(Needed(c, load), load, c.target);
  }

  lemma NeededNotNegative(c: Config, load: nat)
    ensures Needed(c, load) >= 0
  {
    if load > 0 {
      Quotient(load as real, c.target);
      if load as real / c.target < 0.0 { StrictScale(load as real / c.target, 0.0, c.target); }
    }
  }

  // Exactly where one decision takes the replicas.  With n the fewest that cover the load and
  // r that number within the bounds: up to r once the up cooldown has passed, down to r once
  // the down cooldown has, and otherwise nowhere; only a move stamps its direction.
  lemma StepIsExact(c: Config, s: Scaler, load: nat, now: real, later: real, n: nat, r: nat)
    requires c.minReplicas <= c.maxReplicas && Fewest(n, load, c.target)
    requires r == if n < c.minReplicas then c.minReplicas else if n > c.maxReplicas then c.maxReplicas else n
    ensures var t := Apply(s, Decide(c, s, load, now), later);
            t == if r > s.current && now - s.lastUp >= c.upCooldown then Scaler(r, later, s.lastDown)
                 else if r < s.current && now - s.lastDown >= c.downCooldown then Scaler(r, s.lastUp, later)
                 else s
  {
    FewestIsNeeded(c, load, n);
  }

  // After a decision is applied, the load is served once the up cooldown has passed, unless it
  // needs more replicas than allowed.
  lemma StepServesLoad(c: Config, s: Scaler, load: nat, now: real, later: real)
    ensures var t := Apply(s, Decide(c, s, load, now), later);
            && t.current == Decide(c, s, load, now).desired
            && (now - s.lastUp >= c.upCooldown && c.maxReplicas as real * c.target >= load as real
                ==> CapacityFor(t.current, c.target) >= load)
  {
    NeededIsExact(c, load, c.maxReplicas);
    NeededIsExact(c, load, Apply(s, Decide(c, s, load, now), later).current);
  }

  // ---- cooldowns over runs -----------------------------------------------

  // One tick: the sampled load and the two clock readings of decide and apply.
  datatype Sample = Sample(load: nat, now: real, later: real)

  function Run(c: Config, ticks: seq<Sample>): Scaler {
    if ticks == [] then Start(c) else
    var s, t := Run(c, ticks[..|ticks| - 1]), ticks[|ticks| - 1];
    Apply(s, Decide(c, s, t.load, t.now), t.later)
  }

  predicate Clocked(ticks: seq<Sample>) {
    && (forall t <- ticks :: t.now <= t.later)
    && forall i, j :: 0 <= i < j < |ticks| ==> ticks[i].later <= ticks[j].now
  }

  // Tick i changed the replica count upwards.
  predicate WentUp(c: Config, ticks: seq<Sample>, i: nat)
    requires i < |ticks|
  {
    Run(c, ticks[..i + 1]).current > Run(c, ticks[..i]).current
  }

  predicate WentDown(c: Config, ticks: seq<Sample>, i: nat)
    requires i < |ticks|
  {
    Run(c, ticks[..i + 1]).current < Run(c, ticks[..i]).current
  }

  lemma {:induction false} RunStep(c: Config, ticks: seq<Sample>, i: nat)
    requires i < |ticks|
    ensures Run(c, ticks[..i + 1])
         == Apply(Run(c, ticks[..i]), Decide(c, Run(c, ticks[..i]), ticks[i].load, ticks[i].now), ticks[i].later)
  {
    assert ticks[..i + 1][..i] == ticks[..i];
  }

  // From a change on, its stamp stays at or after the change.
  lemma {:induction false} StampsGrow(c: Config, ticks: seq<Sample>, i: nat, j: nat)
    requires Clocked(ticks) && i < j <= |ticks|
    ensures WentUp(c, ticks, i) ==> Run(c, ticks[..j]).lastUp >= ticks[i].later
    ensures WentDown(c, ticks, i) ==> Run(c, ticks[..j]).lastDown >= ticks[i].later
    decreases j
  {
    RunStep(c, ticks, j - 1);
    if i < j - 1 {
      StampsGrow(c, ticks, i, j - 1);
      assert ticks[j - 1] in ticks && ticks[i].later <= ticks[j - 1].now;
    }
  }

  // Any two scale-ups of a run are at least the up cooldown apart, and any two
  // scale-downs the down cooldown.
  lemma SameDirectionIsApart(c: Config, ticks: seq<Sample>, i: nat, j: nat)
    requires Clocked(ticks) && i < j < |ticks|
    ensures WentUp(c, ticks, i) && WentUp(c, ticks, j) ==> ticks[j].now - ticks[i].later >= c.upCooldown
    ensures WentDown(c, ticks, i) && WentDown(c, ticks, j) ==> ticks[j].now - ticks[i].later >= c.downCooldown
  {
    StampsGrow(c, ticks, i, j);
    RunStep(c, ticks, j);
  }

  // The controller starts at the minimum, with no change behind it.
  lemma {:induction false} StartsAtMinimum(c: Config)
    ensures Run(c, []) == Scaler(c.minReplicas, 0.0, 0.0)
  {
  }

  // The replica count never leaves its bounds.
  lemma {:induction false} ReplicasStayInBounds(c: Config, ticks: seq<Sample>)
    requires c.minReplicas <= c.maxReplicas
    ensures c.minReplicas <= Run(c, ticks).current <= c.maxReplicas
  {
    if ticks != [] { ReplicasStayInBounds(c, ticks[..|ticks| - 1]); }
  }

  class Autoscaler {
    const config: Config
    var current: nat
    var lastUp: real
    var lastDown: real

    function View(): Scaler
      reads this
    {
      Scaler(current, lastUp, lastDown)
    }

    constructor (config: Config)
      ensures View() == Start(config) && this.config == config
    {
      this.config := config;
      current, lastUp, lastDown := config.minReplicas, 0.0, 0.0;
    }

    method ApplyDecision(d: ScaleDecision, now: real)
      modifies this
      ensures View() == Apply(old(View()), d, now)
    {
      if d.desired == d.current {
        return;
      }
      if d.desired > current {
        lastUp := now;
      } else {
        lastDown := now;
      }
      current := d.desired;
    }

    // Decide and apply; the clock is read once for each.
    method Step(load: nat, now: real, later: real) returns (d: ScaleDecision)
      modifies this
      ensures d == Decide(config, old(View()), load, now)
      ensures View() == Apply(old(View()), d, later)
      ensures now - old(lastUp) >= config.upCooldown && config.maxReplicas as real * config.target >= load as real
              ==> CapacityFor(current, config.target) >= load
    {
      d := Decide(config, View(), load, now);
      StepServesLoad(config, View(), load, now, later);
      ApplyDecision(d, later);
    }
  }
}
