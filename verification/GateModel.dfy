/**
 The resizable capacity gate as a condition-variable protocol.

 A waiter is `parked` while it sleeps and `notified` once it has been woken but has not yet
 re-checked the condition.  Each function is one critical section under the lock.
 */
module GateModel {
  import opened Arithmetic

  type Waiter = nat

  datatype Gate = Gate(capacity: int, active: int, parked: seq<Waiter>, notified: seq<Waiter>) {
    predicate HasRoom() {
      active < capacity
    }

    predicate IsWaiting(w: Waiter) {
      w in parked || w in notified
    }

    function Queue(): multiset<Waiter> {
      multiset(parked) + multiset(notified)
    }

    // The queue depth the autoscaler reads.
    function Waiting(): nat {
      |parked| + |notified|
    }
  }

  datatype Event =
    | Enter(w: Waiter)      // acquire, up to admission or parking
    | Resume(w: Waiter)     // a woken waiter re-checks the condition
    | Timeout(w: Waiter)    // a waiter gives up
    | Release
    | Resize(capacity: int)

  function Start(capacity: int): Gate {
    Gate(Max(1, capacity), 0, [], [])
  }

  function Remove(ws: seq<Waiter>, w: Waiter): seq<Waiter> {
    if ws == [] then []
    else if ws[0] == w then ws[1..]
    else [ws[0]] + Remove(ws[1..], w)
  }

  // Wakes the first `n` sleepers.
  function Notify(g: Gate, n: nat): Gate {
    var k := if n <= |g.parked| then n else |g.parked|;
    g.(parked := g.parked[k..], notified := g.notified + g.parked[..k])
  }

  // A woken waiter that finds no room goes back to sleep, behind the others.  One that
  // gives up after being woken passes the wake-up on.
  function Step(g: Gate, e: Event): Gate {
    match e
    case Enter(w) =>
      if g.HasRoom() then g.(active := g.active + 1) else g.(parked := g.parked + [w])
    case Resume(w) =>
      var rest := Remove(g.notified, w);
      if g.HasRoom() then g.(active := g.active + 1, notified := rest)
      else g.(parked := g.parked + [w], notified := rest)
    case Timeout(w) =>
      if w in g.parked then g.(parked := Remove(g.parked, w))
      else Notify(g.(notified := Remove(g.notified, w)), 1)
    case Release => Notify(g.(active := Max(0, g.active - 1)), 1)
    case Resize(c) =>
      var capacity := Max(1, c);
      if capacity > g.capacity then Notify(g.(capacity := capacity), capacity) else g.(capacity := capacity)
  }

  predicate Enabled(g: Gate, e: Event) {
    match e
    case Enter(w) => !g.IsWaiting(w)
    case Resume(w) => w in g.notified
    case Timeout(w) => g.IsWaiting(w)
    case Release => true
    case Resize(_) => true
  }

  // ---- no lost wake-up ---------------------------------------------------

  // Free capacity is matched by woken waiters, or nobody sleeps.
  predicate NoneLost(g: Gate) {
    && 1 <= g.capacity && 0 <= g.active
    && (g.parked == [] || |g.notified| >= g.capacity - g.active)
  }

  ghost predicate Inv(g: Gate) {
    NoneLost(g) && forall w :: g.Queue()[w] <= 1
  }

  lemma {:induction false} RemoveShrinks(ws: seq<Waiter>, w: Waiter)
    requires w in ws
    ensures |Remove(ws, w)| == |ws| - 1
  {
    if ws[0] != w { RemoveShrinks(ws[1..], w); }
  }

  lemma {:induction false} RemoveOne(ws: seq<Waiter>, w: Waiter)
    ensures multiset(Remove(ws, w)) == multiset(ws) - multiset{w}
  {
    if ws != [] {
      assert ws == [ws[0]] + ws[1..];
      if ws[0] != w { RemoveOne(ws[1..], w); }
    }
  }

  // Waking sleepers moves them over, losing nobody.
  lemma NotifyMoves(g: Gate, n: nat)
    ensures Notify(g, n).Queue() == g.Queue()
  {
    var k := if n <= |g.parked| then n else |g.parked|;
    assert g.parked == g.parked[..k] + g.parked[k..];
  }

  // The waiter an event takes into the queue or out of it.
  function QueueAfter(g: Gate, e: Event): multiset<Waiter> {
    match e
    case Enter(w) => if g.HasRoom() then g.Queue() else g.Queue() + multiset{w}
    case Resume(w) => if g.HasRoom() then g.Queue() - multiset{w} else g.Queue()
    case Timeout(w) => g.Queue() - multiset{w}
    case _ => g.Queue()
  }

  lemma TimeoutLeaves(g: Gate, w: Waiter)
    requires g.IsWaiting(w)
    ensures Step(g, Timeout(w)).Queue() == g.Queue() - multiset{w}
  {
    if w in g.parked {
      RemoveOne(g.parked, w);
    } else {
      RemoveOne(g.notified, w);
      NotifyMoves(g.(notified := Remove(g.notified, w)), 1);
    }
  }

  lemma ResumeLeaves(g: Gate, w: Waiter)
    requires w in g.notified
    ensures Step(g, Resume(w)).Queue() == QueueAfter(g, Resume(w))
  {
    RemoveOne(g.notified, w);
    if !g.HasRoom() { MoveOne(multiset(g.parked), multiset(g.notified), w); }
  }

  lemma MoveOne(parked: multiset<Waiter>, notified: multiset<Waiter>, w: Waiter)
    requires w in notified
    ensures parked + multiset{w} + (notified - multiset{w}) == parked + notified
  {
  }

  lemma QueueStep(g: Gate, e: Event)
    requires Enabled(g, e)
    ensures Step(g, e).Queue() == QueueAfter(g, e)
  {
    match e {
      case Enter(w) =>
      case Resume(w) => ResumeLeaves(g, w);
      case Timeout(w) => TimeoutLeaves(g, w);
      case Release => NotifyMoves(g.(active := Max(0, g.active - 1)), 1);
      case Resize(c) => NotifyMoves(g.(capacity := Max(1, c)), Max(1, c));
    }
  }

  lemma StepLosesNone(g: Gate, e: Event)
    requires NoneLost(g) && Enabled(g, e)
    ensures NoneLost(Step(g, e))
  {
    match e {
      case Resume(w) => RemoveShrinks(g.notified, w);
      case Timeout(w) => if w in g.parked { RemoveShrinks(g.parked, w); } else { RemoveShrinks(g.notified, w); }
      case _ =>
    }
  }

  // In every reachable state no wake-up is lost, and the queue holds each waiter once:
  // exactly those who entered and were neither admitted nor gave up.
  lemma StepKeepsInv(g: Gate, e: Event)
    requires Inv(g) && Enabled(g, e)
    ensures Inv(Step(g, e)) && Step(g, e).Queue() == QueueAfter(g, e)
  {
    QueueStep(g, e);
    StepLosesNone(g, e);
    QueueStaysSingle(g, e);
  }

  lemma QueueStaysSingle(g: Gate, e: Event)
    requires Enabled(g, e) && forall w :: g.Queue()[w] <= 1
    ensures forall w :: QueueAfter(g, e)[w] <= 1
  {
    var queue, after := g.Queue(), QueueAfter(g, e);
    if e.Enter? { assert g.IsWaiting(e.w) <==> e.w in queue; }
    forall w ensures after[w] <= 1 {
      assert queue[w] <= 1;
    }
  }

  function Run(capacity: int, events: seq<Event>): Gate {
    if events == [] then Start(capacity)
    else Step(Run(capacity, events[..|events| - 1]), events[|events| - 1])
  }

  predicate Legal(capacity: int, events: seq<Event>) {
    events != [] ==>
      && Legal(capacity, events[..|events| - 1])
      && Enabled(Run(capacity, events[..|events| - 1]), events[|events| - 1])
  }

  lemma {:induction false} NoLostWakeup(capacity: int, events: seq<Event>)
    requires Legal(capacity, events)
    ensures Inv(Run(capacity, events))
  {
    if events != [] {
      NoLostWakeup(capacity, events[..|events| - 1]);
      StepKeepsInv(Run(capacity, events[..|events| - 1]), events[|events| - 1]);
    }
  }

  // ---- what the woken waiters do when they run ----------------------------

  // Every woken waiter re-checks, in wake-up order, with no newcomer and no release.
  function Drain(g: Gate): Gate
    decreases |g.notified|
  {
    if g.notified == [] then g else
    var h := Step(g, Resume(g.notified[0]));
    assert h.notified == g.notified[1..];
    Drain(h)
  }

  // Once they have all run, capacity is used up or nobody waits; nobody is lost.
  lemma {:induction false} DrainFillsCapacity(g: Gate)
    requires Inv(g)
    ensures var h := Drain(g);
            && Inv(h) && h.notified == [] && h.capacity == g.capacity
            && (h.parked == [] || h.active >= h.capacity)
            && h.active + h.Waiting() == g.active + g.Waiting()
    decreases |g.notified|
  {
    if g.notified != [] {
      StepKeepsInv(g, Resume(g.notified[0]));
      RemoveOneHead(g.notified);
      DrainFillsCapacity(Step(g, Resume(g.notified[0])));
    }
  }

  lemma {:induction false} RemoveOneHead(ws: seq<Waiter>)
    requires ws != []
    ensures Remove(ws, ws[0]) == ws[1..]
  {
  }

  // With capacity for everybody in service or waiting, nobody sleeps, and all waiters are
  // admitted without a single release.
  lemma {:induction false} EnoughCapacityAdmitsAll(g: Gate)
    requires Inv(g) && g.active + g.Waiting() <= g.capacity
    ensures g.parked == []
    ensures var h := Drain(g); h.Waiting() == 0 && h.active == g.active + g.Waiting()
  {
    DrainFillsCapacity(g);
  }

  // Dropping a woken waiter without passing the wake-up on loses nothing if and only if
  // nobody sleeps or there is a wake-up to spare.
  lemma {:induction false} SilentDropCondition(g: Gate, w: Waiter)
    requires Inv(g) && w in g.notified
    ensures NoneLost(g.(notified := Remove(g.notified, w))) <==> g.parked == [] || |g.notified| > g.capacity - g.active
  {
    RemoveShrinks(g.notified, w);
  }

  // It does happen: a slot stays free beside a sleeper that nobody will wake.
  lemma SilentDropLosesWakeup()
    ensures var events := [Enter(0), Enter(1), Enter(2), Release];
            var g := Run(1, events);
            && Legal(1, events) && 1 in g.notified
            && var h := g.(notified := Remove(g.notified, 1)); h.parked == [2] && h.notified == [] && h.HasRoom()
  {
    var events := [Enter(0), Enter(1), Enter(2), Release];
    assert events[..3] == [Enter(0), Enter(1), Enter(2)] && events[..3][..2] == [Enter(0), Enter(1)];
    assert events[..3][..2][..1] == [Enter(0)] && events[..3][..2][..1][..0] == [];
    assert Legal(1, []) && Legal(1, events[..3][..2][..1]);
    assert Run(1, events[..3][..2][..1]) == Gate(1, 1, [], []);
    assert Run(1, events[..3][..2]) == Gate(1, 1, [1], []) && Legal(1, events[..3][..2]);
    assert Run(1, events[..3]) == Gate(1, 1, [1, 2], []) && Legal(1, events[..3]);
    assert Run(1, events) == Gate(1, 0, [2], [1]) && Legal(1, events);
  }

  // ---- who gets in, and who is woken ----------------------------------------

  // A newcomer or a woken waiter gets in if and only if there is a free slot, and nothing
  // else takes one: so the slots in use grow only while they are fewer than the capacity.
  lemma AdmitsIfRoom(g: Gate, e: Event)
    requires NoneLost(g) && Enabled(g, e)
    ensures e.Enter? || e.Resume? ==>
              Step(g, e).active == if g.active < g.capacity then g.active + 1 else g.active
    ensures Step(g, e).active > g.active ==> g.active < g.capacity
    ensures e.Release? && g.active > 0 ==> Step(g, e).active == g.active - 1
  {
  }

  // A release wakes the longest sleeper; growth wakes the longest sleepers first; and nobody
  // overtakes in either line.
  lemma WakesLongestAsleep(g: Gate, e: Event)
    requires e.Release? || e.Resize?
    ensures var h := Step(g, e);
            && h.parked <= g.parked[|g.parked| - |h.parked|..]
            && h.notified == g.notified + g.parked[..|g.parked| - |h.parked|]
            && (e.Release? && g.parked != [] ==> |h.parked| == |g.parked| - 1)
  {
  }

  // Whoever finds no room goes to sleep behind the others, a woken waiter too, so the line of
  // sleepers is in the order in which they last went to sleep.
  lemma SleepsBehind(g: Gate, e: Event)
    requires Enabled(g, e) && (e.Enter? || e.Resume?) && g.active >= g.capacity
    ensures Step(g, e).parked == g.parked + [e.w] && Step(g, e).capacity == g.capacity
  {
  }
}
