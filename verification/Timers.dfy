/** What the one-shot timer service computes: one slot per key, fresh ids, an expiry hand-over from the
    timer thread to the message thread. The thread's work is split where it drops its lock: it picks the
    nearest slot, fires it if it is still the same and due, and then queues the expiry. */
module Timers {

  const NUM_SLOTS := 5

  type TimerKey = k: int | 0 <= k < 5

  datatype TimerSlot = TimerSlot(active: bool, expireUs: int, id: nat, key: TimerKey)
  datatype Expired = Expired(key: TimerKey, id: nat)

  const FREE_SLOT: TimerSlot := TimerSlot(false, 0, 0, 0)

  type Slots5 = s: seq<TimerSlot> | |s| == 5 witness [FREE_SLOT, FREE_SLOT, FREE_SLOT, FREE_SLOT, FREE_SLOT]

  datatype Picked = NotPicked | Picked(index: TimerKey, slot: TimerSlot)
  datatype InFlight = Landed | InFlight(expired: Expired)

  datatype Timers = Timers(slots: Slots5, nextId: nat, picked: Picked, inFlight: InFlight, queue: seq<Expired>)

  const STARTED: Timers := Timers([FREE_SLOT, FREE_SLOT, FREE_SLOT, FREE_SLOT, FREE_SLOT], 1, NotPicked, Landed, [])

  /** `admitted` is false when the service's lifecycle refuses the request; id 0 reports that. */
  function Schedule(t: Timers, key: TimerKey, expireUs: int, admitted: bool): (Timers, nat) {
    if !admitted then (t, 0)
    else (t.(slots := t.slots[key := TimerSlot(true, expireUs, t.nextId, key)], nextId := t.nextId + 1), t.nextId)
  }

  function Cancel(t: Timers, key: TimerKey): Timers {
    t.(slots := t.slots[key := t.slots[key].(active := false)])
  }

  /** Index of the first slot with the least deadline among the first n, or -1. */
  function Nearest(slots: Slots5, n: nat): (i: int)
    requires n <= NUM_SLOTS
    ensures -1 <= i < n
  {
    if n == 0 then -1
    else
      var i := Nearest(slots, n - 1);
      if slots[n - 1].active && (i < 0 || slots[n - 1].expireUs < slots[i].expireUs) then n - 1 else i
  }

  lemma {:induction false} NearestIsLeast(slots: Slots5, n: nat)
    requires n <= NUM_SLOTS
    ensures var i := Nearest(slots, n);
            if i < 0 then forall j :: 0 <= j < n ==> !slots[j].active
            else slots[i].active && forall j :: 0 <= j < n && slots[j].active ==> slots[i].expireUs <= slots[j].expireUs
  {
    if n > 0 { NearestIsLeast(slots, n - 1); }
  }

  function Pick(t: Timers): Timers {
    var i := Nearest(t.slots, NUM_SLOTS);
    if t.inFlight.InFlight? || i < 0 then t else t.(picked := Picked(i, t.slots[i]))
  }

  function Fire(t: Timers, now: int): Timers {
    if t.inFlight.InFlight? || t.picked.NotPicked? then t
    else
      var Picked(i, slot) := t.picked;
      if t.slots[i].active && t.slots[i].id == slot.id && now >= slot.expireUs then
        t.(slots := t.slots[i := t.slots[i].(active := false)], picked := NotPicked,
           inFlight := InFlight(Expired(slot.key, slot.id)))
      else t.(picked := NotPicked)
  }

  function Enqueue(t: Timers): Timers {
    if t.inFlight.Landed? then t else t.(inFlight := Landed, queue := t.queue + [t.inFlight.expired])
  }

  function Pop(t: Timers): Timers {
    if t.queue == [] then t else t.(queue := t.queue[1..])
  }

  /** The expiry of timer `id` of `key` has left its slot and not reached the message thread yet. */
  predicate OnItsWay(t: Timers, key: TimerKey, id: nat) {
    t.inFlight == InFlight(Expired(key, id)) || Expired(key, id) in t.queue
  }

  /** Timer `id` of `key` is armed in its slot or on its way to the message thread. */
  ghost predicate Live(t: Timers, key: TimerKey, id: nat) {
    (t.slots[key].active && t.slots[key].id == id) || OnItsWay(t, key, id)
  }
}
