/** The injection boundary as the object it is: slot arrays and a release-only flag updated in place
    by the target-bound calls, each proved to compute what module Injection says. */
module InjectionBoundary {
  import opened Keys
  import opened TargetPlatform
  import I = Injection

  class InjectionBoundary {
    const held: array<bool>
    const pendingRelease: array<bool>
    const ownerTarget: array<TargetIdentity>
    const pendingTarget: array<TargetIdentity>
    var releaseOnly: bool
    ghost var log: seq<I.Accepted>

    ghost const Repr: set<object> := {this, held, pendingRelease, ownerTarget, pendingTarget}

    ghost predicate Valid()
      reads this
    {
      && held.Length == pendingRelease.Length == ownerTarget.Length == pendingTarget.Length == I.SLOT_COUNT
      && held != pendingRelease && ownerTarget != pendingTarget
    }

    ghost function State(): I.Boundary
      reads Repr
      requires Valid()
    {
      I.Boundary(held[..], pendingRelease[..], ownerTarget[..], pendingTarget[..], releaseOnly, log)
    }

    constructor ()
      ensures Valid() && State() == I.IDLE && fresh(Repr)
    {
      held := new bool[I.SLOT_COUNT](_ => false);
      pendingRelease := new bool[I.SLOT_COUNT](_ => false);
      ownerTarget := new TargetIdentity[I.SLOT_COUNT](_ => NO_TARGET);
      pendingTarget := new TargetIdentity[I.SLOT_COUNT](_ => NO_TARGET);
      releaseOnly := false;
      log := [];
    }

    method RefreshReleaseOnly()
      requires Valid()
      modifies this`releaseOnly
      ensures State() == I.Refresh(old(State()))
    {
      releaseOnly := false;
      for slot := 0 to I.SLOT_COUNT
        invariant !releaseOnly
        invariant true !in pendingRelease[..slot]
      {
        if pendingRelease[slot] {
          releaseOnly := true;
          assert pendingRelease[..][slot];
          return;
        }
      }
      assert pendingRelease[..I.SLOT_COUNT] == pendingRelease[..];
    }

    method ReleaseSlot(slot: I.Slot, d: I.Dispatch) returns (released: nat)
      requires Valid()
      modifies Repr
      ensures (State(), released) == I.ReleaseSlot(old(State()), slot, d)
    {
      for attempt := 0 to I.MAX_RELEASE_ATTEMPTS
        invariant State() == old(State())
        invariant attempt >= 1 ==> !d.accepts(2 * slot)
        invariant attempt >= 2 ==> !d.accepts(2 * slot + 1)
      {
        if d.accepts(2 * slot + attempt) {
          pendingRelease[slot] := false;
          held[slot] := false;
          ownerTarget[slot] := NO_TARGET;
          pendingTarget[slot] := NO_TARGET;
          log := log + [I.Accepted(slot, false, d.focus.second)];
          RefreshReleaseOnly();
          return 1;
        }
      }
      pendingRelease[slot] := true;
      RefreshReleaseOnly();
      released := 0;
    }

    method MarkPending(slot: I.Slot)
      requires Valid()
      modifies Repr
      ensures State() == I.MarkPending(old(State()), slot)
    {
      pendingRelease[slot] := true;
      pendingTarget[slot] := ownerTarget[slot];
      RefreshReleaseOnly();
    }

    method UpForTarget(slot: I.Slot, target: TargetIdentity, d: I.Dispatch) returns (released: nat)
      requires Valid()
      modifies Repr
      ensures (State(), released) == I.UpForTarget(old(State()), slot, target, d)
    {
      if !held[slot] && !pendingRelease[slot] { return 0; }
      if !target.IsValid() || ownerTarget[slot] != target {
        if held[slot] { MarkPending(slot); }
        return 0;
      }
      if !IsExpectedTargetActive(d.focus, target) {
        MarkPending(slot);
        return 0;
      }
      released := ReleaseSlot(slot, d);
      if released != 1 && pendingRelease[slot] { pendingTarget[slot] := target; }
    }

    method DownForTarget(slot: I.Slot, target: TargetIdentity, d: I.Dispatch) returns (sent: nat)
      requires Valid()
      modifies Repr
      ensures (State(), sent) == I.DownForTarget(old(State()), slot, target, d)
    {
      if releaseOnly || !IsExpectedTargetActive(d.focus, target) { return 0; }
      if held[slot] {
        if ownerTarget[slot] == target { return 1; }
        MarkPending(slot);
        return 0;
      }
      if !d.accepts(2 * slot) { return 0; }
      held[slot] := true;
      ownerTarget[slot] := target;
      log := log + [I.Accepted(slot, true, d.focus.second)];
      sent := 1;
    }

    method ReleasePending(target: TargetIdentity, d: I.Dispatch) returns (released: nat)
      requires Valid()
      modifies Repr
      ensures (State(), released) == I.ReleasePendingFrom(old(State()), 0, target, d)
    {
      hide I.ReleaseSlot;
      released := 0;
      for slot := 0 to I.SLOT_COUNT
        invariant var (b, n) := I.ReleasePendingFrom(old(State()), 0, target, d);
                  var (b', n') := I.ReleasePendingFrom(State(), slot, target, d);
                  b == b' && n == released + n'
      {
        if pendingRelease[slot] && pendingTarget[slot] == target {
          var n := ReleaseSlot(slot, d);
          released := released + n;
        }
      }
    }

    method ReconcilePending(target: TargetIdentity, d: I.Dispatch) returns (released: nat)
      requires Valid()
      modifies Repr
      ensures (State(), released) == I.ReconcilePending(old(State()), target, d)
    {
      if !IsExpectedTargetActive(d.focus, target) { return 0; }
      released := ReleasePending(target, d);
      RefreshReleaseOnly();
    }

    method ShutdownRelease(target: TargetIdentity, d: I.Dispatch) returns (released: nat)
      requires Valid()
      modifies Repr
      ensures (State(), released) == I.ShutdownRelease(old(State()), target, d)
    {
      for slot := 0 to I.SLOT_COUNT
        invariant State() == I.MarkAllHeld(old(State()), slot)
      {
        if held[slot] {
          pendingRelease[slot] := true;
          pendingTarget[slot] := ownerTarget[slot];
        }
      }
      RefreshReleaseOnly();
      if !IsExpectedTargetActive(d.focus, target) { return 0; }
      released := ReleasePending(target, d);
    }

    method HeldMovement() returns (mask: Bools4)
      requires Valid()
      ensures forall k: Key :: mask[k] == held[k]
      ensures mask == State().held[..4]
    {
      mask := held[..4];
    }

    method PendingReleaseCount() returns (count: nat)
      requires Valid()
      ensures count == |set slot | 0 <= slot < I.SLOT_COUNT && pendingRelease[slot]|
      ensures count != 0 <==> true in State().pending
    {
      count := 0;
      for slot := 0 to I.SLOT_COUNT
        invariant count == |set s | 0 <= s < slot && pendingRelease[s]|
      {
        ghost var before := set s | 0 <= s < slot && pendingRelease[s];
        ghost var after := set s | 0 <= s < slot + 1 && pendingRelease[s];
        assert after == if pendingRelease[slot] then before + {slot} else before;
        if pendingRelease[slot] { count := count + 1; }
      }
      ghost var slots := set slot | 0 <= slot < I.SLOT_COUNT && pendingRelease[slot];
      if count != 0 {
        ghost var slot :| slot in slots;
        assert State().pending[slot];
      } else {
        assert forall slot :: 0 <= slot < I.SLOT_COUNT && pendingRelease[slot] ==> slot in slots;
      }
    }
  }
}
