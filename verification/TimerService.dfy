/** The timer service as the object it is, proved to compute what module Timers says. */
module TimerService {
  import T = Timers

  class TimerService {
    const slots: array<T.TimerSlot>
    var nextTimerId: nat
    var picked: T.Picked
    var inFlight: T.InFlight
    var expiryQueue: seq<T.Expired>

    ghost const Repr: set<object> := {this, slots}

    ghost predicate Valid()
      reads this
    {
      slots.Length == T.NUM_SLOTS
    }

    ghost function State(): T.Timers
      reads Repr
      requires Valid()
    {
      T.Timers(slots[..], nextTimerId, picked, inFlight, expiryQueue)
    }

    constructor ()
      ensures Valid() && State() == T.STARTED && fresh(Repr)
    {
      slots := new T.TimerSlot[T.NUM_SLOTS](_ => T.FREE_SLOT);
      nextTimerId := 1;
      picked, inFlight, expiryQueue := T.NotPicked, T.Landed, [];
    }

    method ScheduleTimerUs(key: T.TimerKey, durationUs: int, now: int, admitted: bool) returns (id: nat)
      requires Valid()
      modifies Repr
      ensures (State(), id) == T.Schedule(old(State()), key, now + durationUs, admitted)
    {
      if !admitted { return 0; }
      id := nextTimerId;
      nextTimerId := nextTimerId + 1;
      slots[key] := T.TimerSlot(true, now + durationUs, id, key);
    }

    method CancelTimer(key: T.TimerKey)
      requires Valid()
      modifies Repr
      ensures State() == T.Cancel(old(State()), key)
    {
      if slots[key].active { slots[key] := slots[key].(active := false); }
    }

    /** The timer thread's scan for the nearest expiry. */
    method PickNearest()
      requires Valid()
      modifies Repr
      ensures State() == T.Pick(old(State()))
    {
      if inFlight.InFlight? { return; }
      var nearest := -1;
      for i := 0 to T.NUM_SLOTS
        invariant nearest == T.Nearest(slots[..], i)
      {
        if slots[i].active && (nearest < 0 || slots[i].expireUs < slots[nearest].expireUs) { nearest := i; }
      }
      if nearest >= 0 { picked := T.Picked(nearest, slots[nearest]); }
    }

    /** The timer thread's second look under the lock. */
    method FirePicked(now: int)
      requires Valid()
      modifies Repr
      ensures State() == T.Fire(old(State()), now)
    {
      if inFlight.InFlight? || picked.NotPicked? { return; }
      var index, slot := picked.index, picked.slot;
      picked := T.NotPicked;
      if slots[index].active && slots[index].id == slot.id && now >= slot.expireUs {
        slots[index] := slots[index].(active := false);
        inFlight := T.InFlight(T.Expired(slot.key, slot.id));
      }
    }

    method EnqueueFired()
      requires Valid()
      modifies Repr
      ensures State() == T.Enqueue(old(State()))
    {
      if inFlight.Landed? { return; }
      expiryQueue := expiryQueue + [inFlight.expired];
      inFlight := T.Landed;
    }

    method PopExpired() returns (found: bool, expired: T.Expired)
      requires Valid()
      modifies Repr
      ensures State() == T.Pop(old(State()))
      ensures found == (old(expiryQueue) != [])
      ensures found ==> expired == old(expiryQueue)[0]
    {
      if expiryQueue == [] { return false, T.Expired(0, 0); }
      found, expired := true, expiryQueue[0];
      expiryQueue := expiryQueue[1..];
    }
  }
}
