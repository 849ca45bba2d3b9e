/** Trace safety of the injection boundary over every sequence of target-bound calls. */
module InjectionSafety {
  import opened TargetPlatform
  import opened Injection

  datatype Option<+T> = None | Some(value: T)

  /** The foreground owner that received the unmatched down of `slot`, if there is one. */
  function OpenDown(log: seq<Accepted>, slot: Slot): Option<TargetIdentity> {
    if log == [] then None
    else
      var e := log[|log| - 1];
      if e.slot != slot then OpenDown(log[..|log| - 1], slot)
      else if e.down then Some(e.foreground)
      else None
  }

  /** Every down opens a closed slot; every up closes an open one at the owner that opened it. */
  ghost predicate TraceOk(log: seq<Accepted>) {
    log == [] ||
    var rest, e := log[..|log| - 1], log[|log| - 1];
    && TraceOk(rest)
    && OpenDown(rest, e.slot) == (if e.down then None else Some(e.foreground))
  }

  ghost predicate SlotOk(b: Boundary, slot: Slot) {
    && OpenDown(b.log, slot) == (if b.held[slot] then Some(b.owner[slot]) else None)
    && (b.held[slot] ==> b.owner[slot].IsValid())
    && (b.pending[slot] ==> b.held[slot] && b.pendingTarget[slot] == b.owner[slot])
  }

  /** The boundary invariant. */
  ghost predicate Ok(b: Boundary) {
    && TraceOk(b.log)
    && (b.releaseOnly <==> true in b.pending)
    && forall slot: Slot :: SlotOk(b, slot)
  }

  lemma Appended(log: seq<Accepted>, e: Accepted, slot: Slot)
    ensures (log + [e])[..|log|] == log
    ensures OpenDown(log + [e], slot) ==
            if e.slot != slot then OpenDown(log, slot) else if e.down then Some(e.foreground) else None
  {
    assert (log + [e])[..|log + [e]| - 1] == log;
  }

  lemma LoggedOk(b: Boundary, b': Boundary, e: Accepted)
    requires TraceOk(b.log) && b'.log == b.log + [e]
    requires OpenDown(b.log, e.slot) == (if e.down then None else Some(e.foreground))
    requires b'.releaseOnly <==> true in b'.pending
    requires SlotOk(b', e.slot)
    requires forall slot: Slot :: slot != e.slot ==> SlotOk(b, slot)
    requires forall slot: Slot :: slot != e.slot ==> SameSlot(b, b', slot)
    ensures Ok(b')
  {
    Appended(b.log, e, e.slot);
    forall slot: Slot ensures SlotOk(b', slot) {
      Appended(b.log, e, slot);
      if slot != e.slot { assert SlotOk(b, slot) && SameSlot(b, b', slot); }
    }
  }

  ghost predicate SameSlot(b: Boundary, b': Boundary, slot: Slot) {
    && b'.held[slot] == b.held[slot]
    && b'.pending[slot] == b.pending[slot]
    && b'.owner[slot] == b.owner[slot]
    && b'.pendingTarget[slot] == b.pendingTarget[slot]
  }

  lemma ReleaseSlotOk(b: Boundary, slot: Slot, d: Dispatch)
    requires Ok(b) && b.held[slot] && d.focus.second == b.owner[slot]
    requires b.pendingTarget[slot] == b.owner[slot] || ReleaseAccepted(d, slot)
    ensures Ok(ReleaseSlot(b, slot, d).0)
  {
    assert SlotOk(b, slot);
    var b' := ReleaseSlot(b, slot, d).0;
    if ReleaseAccepted(d, slot) {
      var e := Accepted(slot, false, d.focus.second);
      Appended(b.log, e, slot);
      LoggedOk(b, b', e);
    } else {
      forall s: Slot ensures SlotOk(b', s) { assert SlotOk(b, s); }
    }
  }

  lemma MarkPendingOk(b: Boundary, slot: Slot)
    requires Ok(b) && b.held[slot]
    ensures Ok(MarkPending(b, slot))
  {
    forall s: Slot ensures SlotOk(MarkPending(b, slot), s) { assert SlotOk(b, s); }
  }

  lemma UpOk(b: Boundary, slot: Slot, target: TargetIdentity, d: Dispatch)
    requires Ok(b)
    ensures Ok(UpForTarget(b, slot, target, d).0)
  {
    assert SlotOk(b, slot);
    if b.held[slot] {
      MarkPendingOk(b, slot);
      if IsExpectedTargetActive(d.focus, target) && b.owner[slot] == target {
        if ReleaseAccepted(d, slot) {
          ReleaseSlotOk(b, slot, d);
        } else {
          assert UpForTarget(b, slot, target, d).0 == MarkPending(b, slot);
        }
      }
    }
  }

  lemma DownOk(b: Boundary, slot: Slot, target: TargetIdentity, d: Dispatch)
    requires Ok(b)
    ensures Ok(DownForTarget(b, slot, target, d).0)
  {
    assert SlotOk(b, slot);
    if b.held[slot] {
      MarkPendingOk(b, slot);
    } else if !b.releaseOnly && IsExpectedTargetActive(d.focus, target) && d.accepts(2 * slot) {
      var e := Accepted(slot, true, d.focus.second);
      Appended(b.log, e, slot);
      LoggedOk(b, DownForTarget(b, slot, target, d).0, e);
    }
  }

  lemma {:induction false} ReleasePendingOk(b: Boundary, slot: nat, target: TargetIdentity, d: Dispatch)
    requires slot <= SLOT_COUNT && Ok(b) && IsExpectedTargetActive(d.focus, target)
    ensures Ok(ReleasePendingFrom(b, slot, target, d).0)
    decreases SLOT_COUNT - slot
  {
    if slot < SLOT_COUNT {
      if b.pending[slot] && b.pendingTarget[slot] == target {
        assert SlotOk(b, slot);
        ReleaseSlotOk(b, slot, d);
        ReleasePendingOk(ReleaseSlot(b, slot, d).0, slot + 1, target, d);
      } else {
        ReleasePendingOk(b, slot + 1, target, d);
      }
    }
  }

  lemma {:induction false} MarkAllHeldOk(b: Boundary, slots: nat)
    requires slots <= SLOT_COUNT && Ok(b)
    ensures Ok(Refresh(MarkAllHeld(b, slots)))
    ensures MarkAllHeld(b, slots).held == b.held && MarkAllHeld(b, slots).owner == b.owner
    ensures forall s: Slot :: b.held[s] && s < slots ==> MarkAllHeld(b, slots).pending[s]
  {
    if slots > 0 {
      MarkAllHeldOk(b, slots - 1);
      var b1 := Refresh(MarkAllHeld(b, slots - 1));
      if b1.held[slots - 1] {
        MarkPendingOk(b1, slots - 1);
        assert MarkPending(b1, slots - 1) == Refresh(MarkAllHeld(b, slots));
      }
    }
  }

  lemma ApplyOk(b: Boundary, c: Call, target: TargetIdentity, d: Dispatch)
    requires Ok(b)
    ensures Ok(Apply(b, c, target, d))
  {
    match c
    case KeyDown(k) => DownOk(b, k, target, d);
    case KeyUp(k) => UpOk(b, k, target, d);
    case SpaceDown => DownOk(b, SPACE_SLOT, target, d);
    case SpaceUp => UpOk(b, SPACE_SLOT, target, d);
    case Reconcile =>
      if IsExpectedTargetActive(d.focus, target) { ReleasePendingOk(b, 0, target, d); }
    case Shutdown =>
      MarkAllHeldOk(b, SLOT_COUNT);
      if IsExpectedTargetActive(d.focus, target) {
        ReleasePendingOk(Refresh(MarkAllHeld(b, SLOT_COUNT)), 0, target, d);
      }
  }

  lemma {:induction false} RunOk(calls: seq<BoundCall>)
    ensures Ok(Run(IDLE, calls))
  {
    if calls == [] {
      forall slot: Slot ensures SlotOk(IDLE, slot) {}
    } else {
      RunOk(calls[..|calls| - 1]);
      var last := calls[|calls| - 1];
      ApplyOk(Run(IDLE, calls[..|calls| - 1]), last.call, last.target, last.dispatch);
    }
  }

  /** The boundary can get here by target-bound calls. */
  ghost predicate Reachable(b: Boundary) {
    exists calls :: Run(IDLE, calls) == b
  }

  lemma ReachableSlot(b: Boundary, slot: Slot)
    requires Reachable(b)
    ensures SlotOk(b, slot) && TraceOk(b.log)
    ensures !b.releaseOnly ==> !b.pending[slot]
    ensures b.releaseOnly <==> true in b.pending
  {
    var calls :| Run(IDLE, calls) == b;
    RunOk(calls);
    assert b.pending[slot] ==> true in b.pending;
  }

  lemma StaysReachable(b: Boundary, c: Call, target: TargetIdentity, d: Dispatch)
    requires Reachable(b)
    ensures Reachable(Apply(b, c, target, d))
  {
    var calls :| Run(IDLE, calls) == b;
    var calls' := calls + [BoundCall(c, target, d)];
    assert calls'[..|calls'| - 1] == calls;
    assert Run(IDLE, calls') == Apply(b, c, target, d);
  }

  lemma IdleReachable()
    ensures Reachable(IDLE)
  {
    assert Run(IDLE, []) == IDLE;
  }

  /** No event of `slot` lies strictly between positions i and j. */
  ghost predicate Quiet(log: seq<Accepted>, slot: Slot, i: int, j: int)
    requires -1 <= i && j <= |log|
  {
    forall m :: i < m < j ==> log[m].slot != slot
  }

  lemma {:induction false} OpenDownMeaning(log: seq<Accepted>, slot: Slot) returns (i: int)
    ensures -1 <= i < |log| && Quiet(log, slot, i, |log|)
    ensures i >= 0 ==> log[i].slot == slot
    ensures OpenDown(log, slot) == if i >= 0 && log[i].down then Some(log[i].foreground) else None
  {
    if log == [] {
      i := -1;
    } else {
      var n := |log| - 1;
      if log[n].slot == slot {
        i := n;
      } else {
        i := OpenDownMeaning(log[..n], slot);
        assert i >= 0 ==> log[..n][i] == log[i];
        forall m | i < m < |log| ensures log[m].slot != slot {
          if m < n { assert log[..n][m] == log[m]; }
        }
      }
    }
  }

  lemma {:induction false} TracePrefix(log: seq<Accepted>, n: nat)
    requires n <= |log| && TraceOk(log)
    ensures TraceOk(log[..n])
  {
    if n == |log| {
      assert log[..n] == log;
    } else {
      var m := |log| - 1;
      TracePrefix(log[..m], n);
      assert log[..m][..n] == log[..n];
    }
  }

  /** Main result: over every sequence of target-bound calls, the accepted inputs of a slot alternate
      starting with a down, each up is the next event of its slot after a down that went to the same
      foreground owner, and the release-only and pending bookkeeping is exact. */
  lemma TraceSafety(calls: seq<BoundCall>, j: nat)
    requires j < |Run(IDLE, calls).log|
    ensures var log := Run(IDLE, calls).log;
            var slot := log[j].slot;
            if log[j].down then
              Quiet(log, slot, -1, j) ||
              exists i :: 0 <= i < j && log[i].slot == slot && !log[i].down && Quiet(log, slot, i, j)
            else
              exists i :: 0 <= i < j && log[i].slot == slot && log[i].down &&
                          log[i].foreground == log[j].foreground && Quiet(log, slot, i, j)
  {
    RunOk(calls);
    var log := Run(IDLE, calls).log;
    TracePrefix(log, j + 1);
    var p := log[..j + 1];
    assert p[..j] == log[..j];
    var i := OpenDownMeaning(log[..j], log[j].slot);
    assert i >= 0 ==> log[..j][i] == log[i];
    forall m | i < m < j ensures log[m].slot != log[j].slot { assert log[..j][m] == log[m]; }
  }

  lemma BookkeepingSafety(calls: seq<BoundCall>, slot: Slot)
    ensures var b := Run(IDLE, calls);
            && (b.releaseOnly <==> exists s: Slot :: b.pending[s])
            && (b.pending[slot] ==> b.held[slot] && b.pendingTarget[slot] == b.owner[slot])
  {
    RunOk(calls);
    var b := Run(IDLE, calls);
    assert SlotOk(b, slot);
    if b.releaseOnly {
      var s :| 0 <= s < |b.pending| && b.pending[s] == true;
    }
  }
}
