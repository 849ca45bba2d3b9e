/** A due timer fires: one round of the timer thread delivers the expiry with the least deadline, and as many
    rounds as there are slots deliver every due one. */
module TimerProgress {
  import opened Timers

  /** The thread picks, fires at `now` and queues what it fired. */
  function Round(t: Timers, now: int): Timers {
    Enqueue(Fire(Pick(t), now))
  }

  predicate Due(slot: TimerSlot, now: int) {
    slot.active && slot.expireUs <= now
  }

  /** Slot i is the first to end: it alone is disarmed, and its expiry alone is queued. */
  ghost predicate Fires(t: Timers, t': Timers, i: TimerKey) {
    && t.slots[i].active
    && (forall j: TimerKey :: t.slots[j].active ==> t.slots[i].expireUs <= t.slots[j].expireUs)
    && t' == t.(slots := t.slots[i := t.slots[i].(active := false)], picked := NotPicked,
                queue := t.queue + [Expired(t.slots[i].key, t.slots[i].id)])
  }

  /** Main result: with nothing in flight, a round delivers exactly one expiry, of an active slot with the least
      deadline, if some slot is due, and otherwise changes nothing but the thread's pick. */
  lemma RoundFires(t: Timers, now: int)
    requires t.inFlight.Landed?
    ensures var t' := Round(t, now);
            if exists i: TimerKey :: Due(t.slots[i], now) then exists i: TimerKey :: Fires(t, t', i)
            else t' == t.(picked := NotPicked)
  {
    NearestIsLeast(t.slots, NUM_SLOTS);
    var i := Nearest(t.slots, NUM_SLOTS);
    if i >= 0 && Due(t.slots[i], now) {
      assert Fires(t, Round(t, now), i);
    }
  }

  function Rounds(t: Timers, now: int, n: nat): Timers {
    if n == 0 then t else Round(Rounds(t, now, n - 1), now)
  }

  /** How many of the first n slots are due. */
  function DueSlots(slots: Slots5, now: int, n: nat): (count: nat)
    requires n <= NUM_SLOTS
    ensures count <= n
  {
    if n == 0 then 0 else DueSlots(slots, now, n - 1) + if Due(slots[n - 1], now) then 1 else 0
  }

  lemma {:induction false} SomeDue(slots: Slots5, now: int, n: nat, i: TimerKey)
    requires n <= NUM_SLOTS && i < n && Due(slots[i], now)
    ensures DueSlots(slots, now, n) > 0
  {
    if i < n - 1 { SomeDue(slots, now, n - 1, i); }
  }

  lemma {:induction false} OneFewer(slots: Slots5, now: int, n: nat, i: TimerKey)
    requires n <= NUM_SLOTS && Due(slots[i], now)
    ensures DueSlots(slots[i := slots[i].(active := false)], now, n) ==
            DueSlots(slots, now, n) - if i < n then 1 else 0
  {
    if n > 0 { OneFewer(slots, now, n - 1, i); }
  }

  /** After some rounds a slot is as it was, or it was due and its expiry has been queued. */
  ghost predicate SlotServed(t: Timers, t': Timers, now: int, i: TimerKey)
    requires |t.queue| <= |t'.queue|
  {
    || t'.slots[i] == t.slots[i]
    || (Due(t.slots[i], now) && !t'.slots[i].active
        && Expired(t.slots[i].key, t.slots[i].id) in t'.queue[|t.queue|..])
  }

  ghost predicate Served(t: Timers, t': Timers, now: int, n: nat) {
    && t'.inFlight.Landed? && t.queue <= t'.queue && |t'.queue| <= |t.queue| + n
    && (DueSlots(t'.slots, now, NUM_SLOTS) == 0 || DueSlots(t'.slots, now, NUM_SLOTS) + n <= NUM_SLOTS)
    && forall i: TimerKey :: SlotServed(t, t', now, i)
  }

  lemma {:induction false} RoundsServe(t: Timers, now: int, n: nat)
    requires t.inFlight.Landed?
    ensures Served(t, Rounds(t, now, n), now, n)
  {
    hide Round;
    if n > 0 {
      var t1 := Rounds(t, now, n - 1);
      RoundsServe(t, now, n - 1);
      RoundFires(t1, now);
      RoundServes(t, t1, Round(t1, now), now, n - 1);
    }
  }

  lemma RoundServes(t: Timers, t1: Timers, t': Timers, now: int, n: nat)
    requires Served(t, t1, now, n)
    requires if exists i: TimerKey :: Due(t1.slots[i], now) then exists i: TimerKey :: Fires(t1, t', i)
             else t' == t1.(picked := NotPicked)
    ensures Served(t, t', now, n + 1)
  {
    if j: TimerKey :| Due(t1.slots[j], now) {
      var i: TimerKey :| Fires(t1, t', i);
      OneFewer(t1.slots, now, NUM_SLOTS, i);
      assert SlotServed(t, t1, now, i);
      assert t'.queue[|t.queue|..] == t1.queue[|t.queue|..] + [Expired(t1.slots[i].key, t1.slots[i].id)];
      forall o: TimerKey ensures SlotServed(t, t', now, o) { assert SlotServed(t, t1, now, o); }
    } else {
      NothingDue(t1.slots, now, NUM_SLOTS);
      forall o: TimerKey ensures SlotServed(t, t', now, o) { assert SlotServed(t, t1, now, o); }
    }
  }

  lemma {:induction false} NothingDue(slots: Slots5, now: int, n: nat)
    requires n <= NUM_SLOTS && forall i: TimerKey :: !Due(slots[i], now)
    ensures DueSlots(slots, now, n) == 0
  {
    if n > 0 { NothingDue(slots, now, n - 1); }
  }

  /** Main result: after as many rounds as there are slots, every due timer has been queued behind what was queued
      before and its slot is free, and every other slot is as it was. */
  lemma EveryDueFires(t: Timers, now: int, i: TimerKey)
    requires t.inFlight.Landed?
    ensures var t' := Rounds(t, now, NUM_SLOTS);
            && t'.inFlight.Landed? && t.queue <= t'.queue && |t'.queue| <= |t.queue| + NUM_SLOTS
            && (if Due(t.slots[i], now) then
                  !t'.slots[i].active && Expired(t.slots[i].key, t.slots[i].id) in t'.queue[|t.queue|..]
                else t'.slots[i] == t.slots[i])
  {
    hide Rounds;
    RoundsServe(t, now, NUM_SLOTS);
    var t' := Rounds(t, now, NUM_SLOTS);
    assert SlotServed(t, t', now, i);
    if Due(t'.slots[i], now) { SomeDue(t'.slots, now, NUM_SLOTS, i); }
  }
}
