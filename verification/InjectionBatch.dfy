/** The batch of key edges that a handler collects and delivers: a fixed array filled from the front. */
module InjectionBatch {
  import opened Keys
  import opened TargetPlatform
  import opened Engine
  import I = Injection
  import B = InjectionBoundary

  const CAPACITY := 16

  /** The edges of an array prefix, oldest innermost. */
  function Listed(events: seq<Event>): (batch: Batch)
    ensures Size(batch) == |events|
  {
    if events == [] then Empty else More(Listed(events[..|events| - 1]), events[|events| - 1])
  }

  class InjectionBatch {
    const events: array<Event>
    var count: nat
    const expectedTarget: TargetIdentity

    ghost const Repr: set<object> := {this, events}

    ghost predicate Valid()
      reads this
    {
      events.Length == CAPACITY && count <= CAPACITY
    }

    ghost function Contents(): Batch
      reads Repr
      requires Valid()
    {
      Listed(events[..count])
    }

    constructor (target: TargetIdentity)
      ensures Valid() && fresh(Repr) && Contents() == Empty && count == 0 && expectedTarget == target
    {
      events := new Event[CAPACITY](_ => Event(W, false));
      count := 0;
      expectedTarget := target;
    }

    /** A full batch drops the edge. */
    method Push(k: Key, down: bool)
      requires Valid()
      modifies Repr
      ensures Valid()
      ensures if old(count) < CAPACITY then count == old(count) + 1
              && Contents() == More(old(Contents()), Event(k, down))
              else count == old(count) && Contents() == old(Contents())
    {
      if count < CAPACITY {
        events[count] := Event(k, down);
        count := count + 1;
        assert events[..count][..count - 1] == old(events[..count]);
      }
    }

    method Flush(injection: B.InjectionBoundary, sends: nat -> I.Dispatch)
      requires Valid() && injection.Valid() && Repr !! injection.Repr
      modifies injection.Repr
      ensures Valid() && Contents() == old(Contents()) && injection.Valid()
      ensures injection.State() == Engine.Flush(old(injection.State()), Contents(), expectedTarget, sends)
    {
      for i := 0 to count
        invariant Valid() && injection.Valid() && events[..] == old(events[..])
        invariant injection.State() == Engine.Flush(old(injection.State()), Listed(events[..i]), expectedTarget, sends)
      {
        assert events[..i + 1][..i] == events[..i];
        if events[i].down {
          var _ := injection.DownForTarget(events[i].k, expectedTarget, sends(i));
        } else {
          var _ := injection.UpForTarget(events[i].k, expectedTarget, sends(i));
        }
      }
    }
  }
}
