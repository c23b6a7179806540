/**
 The gate as the object the service calls: counters under a condition variable, whose
 sleepers and woken waiters are kept in wake-up order.
 */
module CapacityGate {
  import opened Arithmetic
  import opened GateModel

  class CapacityGate {
    var capacity: int
    var active: int
    var waiting: nat
    var parked: seq<Waiter>
    var notified: seq<Waiter>

    ghost predicate Valid()
      reads this
    {
      Inv(View()) && waiting == View().Waiting()
    }

    function View(): Gate
      reads this
    {
      Gate(capacity, active, parked, notified)
    }

    constructor (capacity: int)
      ensures Valid() && View() == Start(capacity)
    {
      this.capacity := Max(1, capacity);
      active, waiting, parked, notified := 0, 0, [], [];
    }

    // First critical section of `acquire`.
    method Enter(w: Waiter) returns (admitted: bool)
      requires Valid() && !View().IsWaiting(w)
      modifies this
      ensures Valid() && View() == Step(old(View()), Event.Enter(w))
      ensures admitted <==> old(active < capacity)
    {
      StepKeepsInv(View(), Event.Enter(w));
      if active < capacity {
        active := active + 1;
        return true;
      }
      waiting := waiting + 1;
      parked := parked + [w];
      admitted := false;
    }

    // A woken waiter re-checks the condition.
    method Resume(w: Waiter) returns (admitted: bool)
      requires Valid() && w in notified
      modifies this
      ensures Valid() && View() == Step(old(View()), Event.Resume(w))
      ensures admitted <==> old(active < capacity)
    {
      StepKeepsInv(View(), Event.Resume(w));
      RemoveShrinks(notified, w);
      notified := Remove(notified, w);
      admitted := active < capacity;
      if admitted {
        active := active + 1;
        waiting := waiting - 1;
      } else {
        parked := parked + [w];
      }
    }

    method Timeout(w: Waiter)
      requires Valid() && View().IsWaiting(w)
      modifies this
      ensures Valid() && View() == Step(old(View()), Event.Timeout(w))
    {
      ghost var before, after := View(), Step(View(), Event.Timeout(w));
      StepKeepsInv(before, Event.Timeout(w));
      waiting := waiting - 1;
      if w in parked {
        RemoveShrinks(parked, w);
        parked := Remove(parked, w);
      } else {
        RemoveShrinks(notified, w);
        notified := Remove(notified, w);
        assert View() == before.(notified := notified);
        Wake(1);
      }
      assert View() == after;
    }

    method Release()
      requires Valid()
      modifies this
      ensures Valid() && View() == Step(old(View()), Event.Release)
    {
      StepKeepsInv(View(), Event.Release);
      active := Max(0, active - 1);
      Wake(1);
    }

    method Resize(newCapacity: int)
      requires Valid()
      modifies this
      ensures Valid() && View() == Step(old(View()), Event.Resize(newCapacity))
    {
      ghost var before, after := View(), Step(View(), Event.Resize(newCapacity));
      StepKeepsInv(before, Event.Resize(newCapacity));
      var c := Max(1, newCapacity);
      var grew := c > capacity;
      capacity := c;
      assert View() == before.(capacity := c);
      if grew {
        Wake(c);
      }
      assert View() == after;
    }

    // The condition's notify(n): up to `n` sleepers, longest asleep first.
    method Wake(n: nat)
      modifies this`parked, this`notified
      ensures View() == Notify(old(View()), n) && View().Waiting() == old(View().Waiting())
    {
      var woken := 0;
      while woken < n && parked != []
        invariant woken <= n && woken <= |old(parked)|
        invariant parked == old(parked)[woken..] && notified == old(notified) + old(parked)[..woken]
      {
        assert old(parked)[..woken + 1] == old(parked)[..woken] + [parked[0]];
        notified := notified + [parked[0]];
        parked := parked[1..];
        woken := woken + 1;
      }
    }
  }
}
