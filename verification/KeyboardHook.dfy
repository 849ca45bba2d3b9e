/** The hook's side of the movement keys as the object it is: the ledger and the swallow flags updated per
    event, and the ring that the edges go into. */
module KeyboardHook {
  import opened Keys
  import opened TargetPlatform
  import opened HookLedger
  import R = RoutedQueue

  class KeyboardHook {
    var physDown: Bools4
    var initialized: bool
    var swallowed: Bools4
    const events: R.RoutedInputQueue<KeyEvent>

    ghost const Repr: set<object> := {this} + events.Repr

    ghost predicate Valid()
      reads this, events, events.entries
    {
      events.Valid() && this !in events.Repr && events.entries.Length == CAPACITY
    }

    constructor (events: R.RoutedInputQueue<KeyEvent>)
      requires events.Valid() && events.entries.Length == CAPACITY
      ensures Valid() && physDown == NO_KEYS && !initialized && swallowed == NO_KEYS && this.events == events
    {
      physDown, initialized, swallowed := NO_KEYS, false, NO_KEYS;
      this.events := events;
    }

    /** `shown` are the movement keys that are down when the hooks are first installed. */
    method Install(shown: Bools4)
      requires Valid()
      modifies Repr
      ensures Valid() && swallowed == old(swallowed)
      ensures forall w: World ::
                w.ledger == old(physDown) && w.initialized == old(initialized) && w.queue == old(events.Contents()) ==>
                  var w' := OnInstall(w, shown);
                  physDown == w'.ledger && initialized == w'.initialized && events.Contents() == w'.queue
    {
      if !initialized { physDown, initialized := shown, true; }
      events.Clear();
    }

    method Uninstall()
      requires Valid()
      modifies Repr
      ensures Valid() && events.Contents() == [] && swallowed == old(swallowed)
      ensures physDown == old(physDown) && initialized == old(initialized)
    {
      events.Clear();
    }

    /** `posted` is false when a wake message was due and could not be posted: the event is in the ring all the same. */
    method QueueRoutedEvent(event: KeyEvent, posted: bool) returns (queued: bool)
      requires Valid()
      modifies events.Repr
      ensures Valid()
      ensures queued == (|old(events.Contents())| < CAPACITY && posted)
      ensures events.Contents() ==
              if |old(events.Contents())| < CAPACITY then old(events.Contents()) + [event] else old(events.Contents())
    {
      queued := events.TryPush(event);
      if !posted { queued := false; }
    }

    /** One movement key event. `brakeHeld` says that the engine holds this key as a brake for the target. The
        result says whether the game is kept from seeing the event. */
    method OnMovementKey(k: Key, isDown: bool, routeThis: bool, nativeSocd: bool, brakeHeld: bool,
          target: TargetIdentity, posted: bool)
      returns (swallow: bool)
      requires Valid()
      modifies Repr
      ensures Valid() && initialized == old(initialized)
      ensures forall w: World :: w.ledger == old(physDown) && w.queue == old(events.Contents()) ==>
                var w' := OnHook(w, k, isDown, routeThis, target);
                physDown == w'.ledger && events.Contents() == w'.queue
      ensures isDown && old(physDown)[k] != isDown ==>
                swallow == (routeThis && !nativeSocd && |old(events.Contents())| < CAPACITY && posted)
                  && swallowed == old(swallowed)[k := swallow]
      ensures isDown && old(physDown)[k] == isDown ==> swallow == old(swallowed)[k] && swallowed == old(swallowed)
      ensures !isDown ==>
                swallow == (old(swallowed)[k] || (nativeSocd && routeThis && brakeHeld))
                  && swallowed == old(swallowed)[k := false]
    {
      if isDown {
        if !physDown[k] {
          physDown := physDown[k := true];
          var queued := QueueRoutedEvent(KeyEvent(k, true, routeThis, target), posted);
          swallowed := swallowed[k := routeThis && queued && !nativeSocd];
        }
        swallow := swallowed[k];
      } else {
        if physDown[k] {
          physDown := physDown[k := false];
          var _ := QueueRoutedEvent(KeyEvent(k, false, routeThis, target), posted);
        }
        swallow := swallowed[k] || (nativeSocd && routeThis && brakeHeld);
        swallowed := swallowed[k := false];
      }
    }

    /** The mask of a rebuild: everything queued is handled first, in order. */
    method PhysicalMovementMask(maxEvents: nat, budgetUs: int, clocks: nat -> nat -> int) returns (mask: Bools4,
          handled: seq<KeyEvent>)
      requires Valid() && maxEvents > 0 && budgetUs > 0
      modifies events.Repr
      ensures Valid() && mask == physDown == old(physDown) && handled == old(events.Contents())
              && events.Contents() == []
    {
      var passes;
      handled, passes := events.DrainAll(maxEvents, budgetUs, clocks);
      mask := physDown;
    }
  }
}
