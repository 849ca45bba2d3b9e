/** The bounded queue between the keyboard hook and the message thread: a ring of entries between two counters
    that only grow. */
module RoutedQueue {

  // ---- Ring arithmetic ----

  lemma SameSlotSameIndex(a: nat, b: nat, capacity: nat)
    requires capacity > 0 && a <= b < a + capacity && a % capacity == b % capacity
    ensures a == b
  {
    var q := b / capacity - a / capacity;
    assert b - a == capacity * q by {
      assert a == capacity * (a / capacity) + a % capacity && b == capacity * (b / capacity) + b % capacity;
    }
    if q >= 1 { Grow(capacity, q); } else if q <= -1 { Grow(capacity, -q); }
  }

  lemma Grow(c: nat, n: nat)
    requires n >= 1
    ensures c * n >= c
  {
  }

  /** Everything the pass took came from the front, and it stopped for a reason. */
  ghost predicate Pass<T>(before: seq<T>, handled: seq<T>, after: seq<T>, maxEvents: nat, budgetUs: int,
        clock: nat -> int) {
    && before == handled + after && |handled| <= maxEvents
    && (maxEvents == 0 || budgetUs <= 0 ==> handled == [])
    && (maxEvents > 0 && budgetUs > 0 && before != [] ==> handled != [])
    && (maxEvents > 0 && budgetUs > 0 ==>
         |handled| == maxEvents || after == [] || clock(|handled|) - clock(0) >= budgetUs)
  }

  class RoutedInputQueue<T(0)> {
    const entries: array<T>
    var head: nat
    var tail: nat

    ghost const Repr: set<object> := {this, entries}

    ghost predicate Valid()
      reads this
    {
      entries.Length > 0 && tail <= head <= tail + entries.Length
    }

    /** The queued values, oldest first. */
    ghost function Contents(): (s: seq<T>)
      reads Repr
      requires Valid()
      ensures |s| == head - tail
    {
      seq(head - tail, i requires Valid() && 0 <= i < head - tail reads this, entries => EntryAt(i))
    }

    ghost function EntryAt(i: nat): T
      reads Repr
      requires Valid()
    {
      entries[(tail + i) % entries.Length]
    }

    constructor (capacity: nat)
      requires capacity > 0
      ensures Valid() && Contents() == [] && entries.Length == capacity && fresh(Repr)
    {
      entries := new T[capacity];
      head, tail := 0, 0;
    }

    method TryPush(value: T) returns (pushed: bool)
      requires Valid()
      modifies Repr
      ensures Valid() && pushed == (|old(Contents())| < entries.Length)
      ensures Contents() == if pushed then old(Contents()) + [value] else old(Contents())
    {
      if head - tail >= entries.Length { return false; }
      entries[head % entries.Length] := value;
      forall i: nat | i < head - tail ensures EntryAt(i) == old(EntryAt(i)) {
        if (tail + i) % entries.Length == head % entries.Length { SameSlotSameIndex(tail + i, head, entries.Length); }
      }
      head := head + 1;
      pushed := true;
    }

    method TryPop() returns (popped: bool, value: T)
      requires Valid()
      modifies Repr
      ensures Valid() && popped == (old(Contents()) != [])
      ensures if popped then value == old(Contents())[0] && Contents() == old(Contents())[1..]
              else Contents() == old(Contents())
    {
      value := entries[tail % entries.Length];
      if tail == head { return false, value; }
      tail := tail + 1;
      popped := true;
    }

    method Size() returns (n: nat)
      requires Valid()
      ensures n == |Contents()|
    {
      n := head - tail;
    }

    method Clear()
      requires Valid()
      modifies Repr
      ensures Valid() && Contents() == []
    {
      while true
        invariant Valid()
        decreases |Contents()|
      {
        var popped, _ := TryPop();
        if !popped { return; }
      }
    }

    /** One drain pass; `clock(n)` is the time after n events, `handled` what the handler was given, in order. */
    method DrainBounded(maxEvents: nat, budgetUs: int, clock: nat -> int) returns (handled: seq<T>)
      requires Valid()
      modifies Repr
      ensures Valid() && Pass(old(Contents()), handled, Contents(), maxEvents, budgetUs, clock)
    {
      hide Contents;
      handled := [];
      if maxEvents == 0 || budgetUs <= 0 { return; }
      while |handled| < maxEvents
        invariant Valid() && old(Contents()) == handled + Contents() && |handled| <= maxEvents
        invariant handled != [] ==> clock(|handled|) - clock(0) < budgetUs
      {
        var popped, value := TryPop();
        if !popped { break; }
        handled := handled + [value];
        if clock(|handled|) - clock(0) >= budgetUs { break; }
      }
    }

    /** The full drain before a rebuild or a mode change: passes until nothing is left. */
    method DrainAll(maxEvents: nat, budgetUs: int, clocks: nat -> nat -> int) returns (handled: seq<T>, passes: nat)
      requires Valid() && maxEvents > 0 && budgetUs > 0
      modifies Repr
      ensures Valid() && Contents() == [] && handled == old(Contents()) && passes <= |handled|
    {
      hide Contents;
      handled, passes := [], 0;
      var n := Size();
      while n != 0
        invariant Valid() && old(Contents()) == handled + Contents() && n == |Contents()| && passes <= |handled|
        decreases n
      {
        var more := DrainBounded(maxEvents, budgetUs, clocks(passes));
        handled := handled + more;
        passes := passes + 1;
        n := Size();
      }
    }
  }
}
