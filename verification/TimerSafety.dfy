/** Delivery guarantees of the timer service over every run. */
module TimerSafety {
  import opened Timers
  import T = Timers

  datatype Delivery = Delivery(expired: Expired, at: int)

  /** A service together with its history: the clock, the deadline and key every id was scheduled with, and what was
      delivered. */
  datatype History = History(
    t: Timers, clock: int, deadline: map<nat, int>, owner: map<nat, TimerKey>, delivered: seq<Delivery>)

  /** One step of the timer thread or of a caller; `elapsed` is the time since the previous step. */
  datatype Action =
    | Schedule(key: TimerKey, durationUs: int, admitted: bool)
    | Cancel(key: TimerKey)
    | Pick
    | Fire
    | Enqueue
    | Drain

  datatype TimedAction = TimedAction(action: Action, elapsed: nat)

  const BEGIN: History := History(STARTED, 0, map[], map[], [])

  function Step(h: History, a: TimedAction): History {
    var now := h.clock + a.elapsed;
    var h := h.(clock := now);
    match a.action
    case Schedule(key, durationUs, admitted) =>
      var (t', id) := T.Schedule(h.t, key, now + durationUs, admitted);
      if id == 0 then h.(t := t')
      else h.(t := t', deadline := h.deadline[id := now + durationUs], owner := h.owner[id := key])
    case Cancel(key) => h.(t := T.Cancel(h.t, key))
    case Pick => h.(t := T.Pick(h.t))
    case Fire => h.(t := T.Fire(h.t, now))
    case Enqueue => h.(t := T.Enqueue(h.t))
    case Drain =>
      if h.t.queue == [] then h
      else h.(t := Pop(h.t), delivered := h.delivered + [Delivery(h.t.queue[0], now)])
  }

  function Run(h: History, actions: seq<TimedAction>): History {
    if actions == [] then h
    else Step(Run(h, actions[..|actions| - 1]), actions[|actions| - 1])
  }

  function Expirations(ds: seq<Delivery>): (r: seq<Expired>)
    ensures |r| == |ds| && forall i :: 0 <= i < |ds| ==> r[i] == ds[i].expired
  {
    seq(|ds|, i requires 0 <= i < |ds| => ds[i].expired)
  }

  /** Everything that has fired, in firing order: queueing and delivering do not change it. */
  function Fired(h: History): seq<Expired> {
    Expirations(h.delivered) + h.t.queue + (if h.t.inFlight.InFlight? then [h.t.inFlight.expired] else [])
  }

  ghost predicate Known(h: History, e: Expired) {
    0 < e.id < h.t.nextId && e.id in h.deadline && e.id in h.owner && h.owner[e.id] == e.key
  }

  ghost predicate KnownSlot(h: History, slot: TimerSlot) {
    Known(h, Expired(slot.key, slot.id)) && slot.expireUs == h.deadline[slot.id]
  }

  ghost predicate SlotsOk(h: History) {
    && (forall i :: 0 <= i < NUM_SLOTS && h.t.slots[i].active ==> KnownSlot(h, h.t.slots[i]) && h.t.slots[i].key == i)
    && (h.t.picked.Picked? ==> KnownSlot(h, h.t.picked.slot))
  }

  /** `fired` holds known, due, pairwise different ids, none of them armed. */
  ghost predicate FiredOk(h: History, fired: seq<Expired>) {
    && (forall m :: 0 <= m < |fired| ==> Known(h, fired[m]) && h.deadline[fired[m].id] <= h.clock)
    && (forall m, n :: 0 <= m < n < |fired| ==> fired[m].id != fired[n].id)
    && (forall i, m :: 0 <= i < NUM_SLOTS && h.t.slots[i].active && 0 <= m < |fired| ==> fired[m].id != h.t.slots[i].id)
  }

  ghost predicate DeliveredOk(h: History) {
    forall m :: 0 <= m < |h.delivered| ==>
      h.delivered[m].expired.id in h.deadline && h.deadline[h.delivered[m].expired.id] <= h.delivered[m].at
  }

  ghost predicate Ok(h: History) {
    && h.t.nextId > 0
    && (forall id :: id in h.deadline ==> id < h.t.nextId)
    && SlotsOk(h) && FiredOk(h, Fired(h)) && DeliveredOk(h)
  }

  lemma FiredStep(h: History, a: TimedAction)
    ensures var h' := Step(h, a);
            if a.action.Fire? && h'.t.inFlight != h.t.inFlight then
              h'.t.inFlight.InFlight? && Fired(h') == Fired(h) + [h'.t.inFlight.expired]
            else Fired(h') == Fired(h)
  {
    var h' := Step(h, a);
    match a.action
    case Enqueue => assert Fired(h') == Fired(h);
    case Drain =>
      if h.t.queue != [] {
        assert Expirations(h'.delivered) == Expirations(h.delivered) + [h.t.queue[0]];
        assert h.t.queue == [h.t.queue[0]] + h.t.queue[1..];
      }
    case _ =>
  }

  lemma FireOk(h: History, h': History, fired: seq<Expired>)
    requires SlotsOk(h) && FiredOk(h, fired)
    requires h'.t == T.Fire(h.t, h.clock) && h'.t.inFlight != h.t.inFlight
    requires h' == h.(t := h'.t)
    ensures SlotsOk(h') && FiredOk(h', fired + [h'.t.inFlight.expired])
  {
    var Picked(i, slot) := h.t.picked;
    assert KnownSlot(h, h.t.slots[i]) && KnownSlot(h, slot);
    var e := h'.t.inFlight.expired;
    forall m | 0 <= m < |fired| ensures fired[m].id != e.id {}
    forall j | 0 <= j < NUM_SLOTS && h'.t.slots[j].active ensures e.id != h'.t.slots[j].id {
      assert KnownSlot(h, h.t.slots[j]) && h.t.slots[j].key == j;
    }
  }

  lemma ScheduleOk(h: History, h': History, key: TimerKey, deadline: int, fired: seq<Expired>)
    requires SlotsOk(h) && FiredOk(h, fired) && DeliveredOk(h) && h.t.nextId > 0
    requires forall id :: id in h.deadline ==> id < h.t.nextId
    requires h' == h.(t := T.Schedule(h.t, key, deadline, true).0,
                      deadline := h.deadline[h.t.nextId := deadline], owner := h.owner[h.t.nextId := key])
    ensures SlotsOk(h') && FiredOk(h', fired) && DeliveredOk(h')
  {
    forall m | 0 <= m < |fired| ensures Known(h', fired[m]) && h'.deadline[fired[m].id] <= h'.clock {
      assert Known(h, fired[m]);
    }
    forall i | 0 <= i < NUM_SLOTS && h'.t.slots[i].active
      ensures KnownSlot(h', h'.t.slots[i]) && h'.t.slots[i].key == i
    {
      if i != key { assert KnownSlot(h, h.t.slots[i]); }
    }
  }

  /** Time may pass, slots may be disarmed and the thread may pick again without any effect on the rest. */
  lemma WeakerOk(h: History, h': History, fired: seq<Expired>)
    requires SlotsOk(h) && FiredOk(h, fired)
    requires h'.deadline == h.deadline && h'.owner == h.owner && h'.clock >= h.clock && h'.t.nextId == h.t.nextId
    requires forall i :: 0 <= i < NUM_SLOTS && h'.t.slots[i].active ==> h'.t.slots[i] == h.t.slots[i]
    requires h'.t.picked.Picked? ==>
               || h'.t.picked == h.t.picked
               || exists i :: 0 <= i < NUM_SLOTS && h.t.slots[i].active && h'.t.picked.slot == h.t.slots[i]
    ensures SlotsOk(h') && FiredOk(h', fired)
  {
    forall m | 0 <= m < |fired| ensures Known(h', fired[m]) && h'.deadline[fired[m].id] <= h'.clock {
      assert Known(h, fired[m]);
    }
    forall i | 0 <= i < NUM_SLOTS && h'.t.slots[i].active
      ensures KnownSlot(h', h'.t.slots[i]) && h'.t.slots[i].key == i
    {
      assert KnownSlot(h, h.t.slots[i]);
    }
  }

  lemma StepFiredOk(h: History, a: TimedAction, fired: seq<Expired>)
    requires h.t.nextId > 0 && SlotsOk(h) && FiredOk(h, fired) && DeliveredOk(h)
    requires forall id :: id in h.deadline ==> id < h.t.nextId
    ensures var h' := Step(h, a);
            SlotsOk(h') &&
            FiredOk(h',
                    if a.action.Fire? && h'.t.inFlight != h.t.inFlight then fired + [h'.t.inFlight.expired] else fired)
  {
    hide FiredOk, SlotsOk;
    var h0, h' := h.(clock := h.clock + a.elapsed), Step(h, a);
    WeakerOk(h, h0, fired);
    match a.action
    case Schedule(key, durationUs, admitted) =>
      if admitted { ScheduleOk(h0, h', key, h0.clock + durationUs, fired); }
    case Fire =>
      if h'.t.inFlight != h.t.inFlight { FireOk(h0, h', fired); } else { WeakerOk(h0, h', fired); }
    case Pick =>
      NearestIsLeast(h.t.slots, NUM_SLOTS);
      WeakerOk(h0, h', fired);
    case _ => WeakerOk(h0, h', fired);
  }

  lemma StepDeliveredOk(h: History, a: TimedAction)
    requires h.t.nextId > 0 && DeliveredOk(h)
    requires forall id :: id in h.deadline ==> id < h.t.nextId
    requires h.t.queue != [] ==> Known(h, h.t.queue[0]) && h.deadline[h.t.queue[0].id] <= h.clock
    ensures var h' := Step(h, a);
            DeliveredOk(h') && h'.t.nextId > 0 && forall id :: id in h'.deadline ==> id < h'.t.nextId
  {
  }

  lemma StepOk(h: History, a: TimedAction)
    requires Ok(h)
    ensures Ok(Step(h, a))
  {
    FiredStep(h, a);
    StepFiredOk(h, a, Fired(h));
    if h.t.queue != [] {
      assert Fired(h)[|h.delivered|] == h.t.queue[0];
      assert Known(h, Fired(h)[|h.delivered|]);
    }
    StepDeliveredOk(h, a);
  }

  lemma {:induction false} RunOk(h: History, actions: seq<TimedAction>)
    requires Ok(h)
    ensures Ok(Run(h, actions))
  {
    if actions != [] {
      RunOk(h, actions[..|actions| - 1]);
      StepOk(Run(h, actions[..|actions| - 1]), actions[|actions| - 1]);
    }
  }

  /** Main result: over every run no id is delivered twice, and none before the deadline it was scheduled with. */
  lemma DeliveredOnceAndNotEarly(actions: seq<TimedAction>, i: nat, j: nat)
    requires i < |Run(BEGIN, actions).delivered| && j < |Run(BEGIN, actions).delivered|
    ensures var h := Run(BEGIN, actions);
            var id := h.delivered[i].expired.id;
            && (h.delivered[j].expired.id == id ==> i == j)
            && id in h.deadline && h.deadline[id] <= h.delivered[i].at
            && id in h.owner && h.owner[id] == h.delivered[i].expired.key
  {
    RunOk(BEGIN, actions);
    var h := Run(BEGIN, actions);
    assert Fired(h)[i] == h.delivered[i].expired && Fired(h)[j] == h.delivered[j].expired;
    assert h.delivered[i] in h.delivered;
    assert Known(h, Fired(h)[i]);
  }

  /** An issued id that sits in no armed slot and has not fired. */
  ghost predicate Dead(h: History, id: nat) {
    && id < h.t.nextId
    && (forall i :: 0 <= i < NUM_SLOTS && h.t.slots[i].active ==> h.t.slots[i].id != id)
    && (forall m :: 0 <= m < |Fired(h)| ==> Fired(h)[m].id != id)
  }

  lemma DeadStep(h: History, a: TimedAction, id: nat)
    requires Ok(h) && Dead(h, id)
    ensures Dead(Step(h, a), id)
  {
    FiredStep(h, a);
    var h' := Step(h, a);
    forall i | 0 <= i < NUM_SLOTS && h'.t.slots[i].active ensures h'.t.slots[i].id != id {}
    forall m | 0 <= m < |Fired(h')| ensures Fired(h')[m].id != id {
      if m < |Fired(h)| { assert Fired(h')[m] == Fired(h)[m]; }
    }
  }

  lemma {:induction false} DeadForever(h: History, actions: seq<TimedAction>, id: nat)
    requires Ok(h) && Dead(h, id)
    ensures Dead(Run(h, actions), id)
  {
    if actions != [] {
      var before := Run(h, actions[..|actions| - 1]);
      RunOk(h, actions[..|actions| - 1]);
      DeadForever(h, actions[..|actions| - 1], id);
      DeadStep(before, actions[|actions| - 1], id);
    }
  }

  /** Cancelling or rescheduling a key kills the id in its slot. */
  lemma SlotKilled(h: History, a: TimedAction)
    requires Ok(h) && (a.action.Cancel? || (a.action.Schedule? && a.action.admitted)) && h.t.slots[a.action.key].active
    ensures Dead(Step(h, a), h.t.slots[a.action.key].id)
  {
    hide Fired;
    FiredStep(h, a);
    var h', id := Step(h, a), h.t.slots[a.action.key].id;
    assert KnownSlot(h, h.t.slots[a.action.key]);
    forall i | 0 <= i < NUM_SLOTS && h'.t.slots[i].active ensures h'.t.slots[i].id != id {
      if i != a.action.key {
        assert h'.t.slots[i] == h.t.slots[i];
        assert KnownSlot(h, h.t.slots[i]) && h.t.slots[i].key == i && h.t.slots[a.action.key].key == a.action.key;
      }
    }
  }

  /** Main result: an id that is cancelled, or replaced by another request for its key, while it is
      still in its slot is never delivered, whatever the thread had already picked. */
  lemma CancelledNeverDelivered(before: seq<TimedAction>, a: TimedAction, after: seq<TimedAction>, d: Delivery)
    requires a.action.Cancel? || (a.action.Schedule? && a.action.admitted)
    requires Run(BEGIN, before).t.slots[a.action.key].active
    requires d in Run(Step(Run(BEGIN, before), a), after).delivered
    ensures d.expired.id != Run(BEGIN, before).t.slots[a.action.key].id
  {
    hide Step, Ok, SlotsOk, FiredOk;
    var h := Run(BEGIN, before);
    RunOk(BEGIN, before) by { StartsOk(); }
    SlotKilled(h, a);
    StepOk(h, a);
    DeadForever(Step(h, a), after, h.t.slots[a.action.key].id);
    var end := Run(Step(h, a), after);
    var i :| 0 <= i < |end.delivered| && end.delivered[i] == d;
    assert Fired(end)[i] == d.expired;
  }

  lemma StartsOk()
    ensures Ok(BEGIN)
  {
  }
}
