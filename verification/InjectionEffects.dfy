/** What the boundary's calls do to each slot, to the accepted inputs and to the reported count. */
module InjectionEffects {
  import opened Keys
  import opened TargetPlatform
  import opened Injection
  import Safety = InjectionSafety

  /** One of the two attempts to release the slot is accepted while `target` is active. */
  predicate CanRelease(slot: Slot, target: TargetIdentity, d: Dispatch) {
    IsExpectedTargetActive(d.focus, target) && (d.accepts(2 * slot) || d.accepts(2 * slot + 1))
  }

  /** Which of the `owed` slots belong to `target` and can be released. */
  function Releasable(owed: Bools6, owner: Targets6, target: TargetIdentity, d: Dispatch): (goes: Bools6)
    ensures forall s: Slot :: goes[s] <==> owed[s] && owner[s] == target && CanRelease(s, target, d)
  {
    seq(SLOT_COUNT, s requires 0 <= s < SLOT_COUNT => owed[s] && owner[s] == target && CanRelease(s, target, d))
  }

  /** The slots marked in `goes`, from `slot` on, in order. */
  function SlotsFrom(goes: Bools6, slot: nat): (slots: seq<Slot>)
    requires slot <= SLOT_COUNT
    ensures forall i :: 0 <= i < |slots| ==> slot <= slots[i] && goes[slots[i]]
    ensures forall i, j :: 0 <= i < j < |slots| ==> slots[i] < slots[j]
    ensures forall s: Slot :: slot <= s && goes[s] ==> s in slots
    decreases SLOT_COUNT - slot
  {
    if slot == SLOT_COUNT then []
    else if goes[slot] then [slot] + SlotsFrom(goes, slot + 1)
    else SlotsFrom(goes, slot + 1)
  }

  /** One up for each of the slots, in order. */
  function Ups(slots: seq<Slot>, target: TargetIdentity): (log: seq<Accepted>)
    ensures |log| == |slots| && forall i :: 0 <= i < |log| ==> log[i] == Accepted(slots[i], false, target)
  {
    seq(|slots|, i requires 0 <= i < |slots| => Accepted(slots[i], false, target))
  }

  // ---- One slot at a time ----

  /** Main result: a release takes a held slot of the active target off it, logs one up and reports 1 iff a send is
      accepted; any other held slot stays with its owner, pending; the other slots are left alone. */
  lemma UpReleases(b: Boundary, slot: Slot, target: TargetIdentity, d: Dispatch, s: Slot)
    requires Safety.Reachable(b)
    ensures var (b', n) := UpForTarget(b, slot, target, d);
            var goes := b.held[slot] && b.owner[slot] == target && CanRelease(slot, target, d);
            && n == (if goes then 1 else 0)
            && b'.log == b.log + (if goes then [Accepted(slot, false, target)] else [])
            && b'.held[slot] == (b.held[slot] && !goes)
            && (b'.held[slot] ==> b'.owner[slot] == b.owner[slot] && b'.pending[slot])
            && (s != slot ==> Safety.SameSlot(b, b', s))
  {
    Safety.ReachableSlot(b, slot);
  }

  /** Main result: a press changes nothing while a release is owed or off target. Otherwise it takes a free slot and
      logs one down iff the send is accepted, reports a slot that the target already holds, and makes a slot of
      another owner pending; the other slots are left alone. */
  lemma DownPresses(b: Boundary, slot: Slot, target: TargetIdentity, d: Dispatch, s: Slot)
    requires Safety.Reachable(b)
    ensures var (b', n) := DownForTarget(b, slot, target, d);
            var allowed := IsExpectedTargetActive(d.focus, target) && !exists o: Slot :: b.pending[o];
            var goes := allowed && !b.held[slot] && d.accepts(2 * slot);
            && (!allowed ==> b' == b && n == 0)
            && b'.log == b.log + (if goes then [Accepted(slot, true, target)] else [])
            && b'.held[slot] == (b.held[slot] || goes)
            && (b'.held[slot] ==> b'.owner[slot] == if goes then target else b.owner[slot])
            && (allowed ==> n == if b'.held[slot] && b'.owner[slot] == target then 1 else 0)
            && (b'.pending[slot] <==> b.pending[slot] || (allowed && b.held[slot] && b.owner[slot] != target))
            && (s != slot ==> Safety.SameSlot(b, b', s))
  {
    Safety.ReachableSlot(b, slot);
    if b.releaseOnly {
      var o :| 0 <= o < |b.pending| && b.pending[o] == true;
    } else {
      forall o: Slot ensures !b.pending[o] { Safety.ReachableSlot(b, o); }
    }
  }

  // ---- All slots ----

  /** What one turn of the release pass does. */
  function Turn(b: Boundary, slot: Slot, target: TargetIdentity, d: Dispatch): (Boundary, nat) {
    if b.pending[slot] && b.pendingTarget[slot] == target then ReleaseSlot(b, slot, d) else (b, 0)
  }

  lemma TurnReleases(b: Boundary, slot: Slot, target: TargetIdentity, d: Dispatch, s: Slot)
    requires IsExpectedTargetActive(d.focus, target)
    ensures var (b', n) := Turn(b, slot, target, d);
            var goes := b.pending[slot] && b.pendingTarget[slot] == target && CanRelease(slot, target, d);
            && n == (if goes then 1 else 0)
            && b'.log == b.log + (if goes then Ups([slot], target) else [])
            && (if s == slot && goes then !b'.held[s] else Safety.SameSlot(b, b', s))
  {
    assert Ups([slot], target) == [Accepted(slot, false, target)];
  }

  /** The pass takes its turns in order. */
  lemma PassTurns(b: Boundary, slot: nat, target: TargetIdentity, d: Dispatch)
    requires slot < SLOT_COUNT
    ensures var (b1, n) := Turn(b, slot, target, d);
            var (b', m) := ReleasePendingFrom(b1, slot + 1, target, d);
            ReleasePendingFrom(b, slot, target, d) == (b', n + m)
  {
    hide ReleaseSlot;
  }

  ghost predicate GoesFrom(b: Boundary, slot: nat, target: TargetIdentity, d: Dispatch, goes: Bools6) {
    forall o: Slot :: o >= slot ==>
      (goes[o] <==> b.pending[o] && b.pendingTarget[o] == target && CanRelease(o, target, d))
  }

  lemma TurnGoesOn(b: Boundary, slot: Slot, target: TargetIdentity, d: Dispatch, goes: Bools6)
    requires IsExpectedTargetActive(d.focus, target) && GoesFrom(b, slot, target, d, goes)
    ensures GoesFrom(Turn(b, slot, target, d).0, slot + 1, target, d, goes)
  {
    hide CanRelease, Turn;
    var b1 := Turn(b, slot, target, d).0;
    forall o: Slot | o > slot
      ensures goes[o] <==> b1.pending[o] && b1.pendingTarget[o] == target && CanRelease(o, target, d)
    {
      TurnReleases(b, slot, target, d, o);
    }
  }

  /** What the release pass does from `slot` on. */
  lemma {:induction false} PassReleases(b: Boundary, slot: nat, target: TargetIdentity, d: Dispatch, goes: Bools6,
        s: Slot)
    requires slot <= SLOT_COUNT && IsExpectedTargetActive(d.focus, target) && GoesFrom(b, slot, target, d, goes)
    ensures var (b', n) := ReleasePendingFrom(b, slot, target, d);
            && n == |SlotsFrom(goes, slot)| && b'.log == b.log + Ups(SlotsFrom(goes, slot), target)
            && (if s >= slot && goes[s] then !b'.held[s] else Safety.SameSlot(b, b', s))
    decreases SLOT_COUNT - slot
  {
    hide Turn, CanRelease, Ups, GoesFrom, Safety.SameSlot;
    if slot < SLOT_COUNT {
      hide ReleasePendingFrom;
      var b1, b' := Turn(b, slot, target, d).0, ReleasePendingFrom(b, slot, target, d).0;
      PassTurns(b, slot, target, d);
      GoesAt(b, slot, target, d, goes);
      TurnReleases(b, slot, target, d, s);
      TurnGoesOn(b, slot, target, d, goes);
      PassReleases(b1, slot + 1, target, d, goes, s);
      UpsAfter(b.log, slot, SlotsFrom(goes, slot + 1), target);
      if s <= slot || !goes[s] { StillSame(b, b1, b', s); }
    } else {
      NoUps(b, target, s);
    }
  }

  lemma GoesAt(b: Boundary, slot: Slot, target: TargetIdentity, d: Dispatch, goes: Bools6)
    requires GoesFrom(b, slot, target, d, goes)
    ensures goes[slot] <==> b.pending[slot] && b.pendingTarget[slot] == target && CanRelease(slot, target, d)
  {
  }

  lemma NoUps(b: Boundary, target: TargetIdentity, s: Slot)
    ensures b.log == b.log + Ups([], target) && Safety.SameSlot(b, b, s)
  {
  }

  lemma UpsAfter(log: seq<Accepted>, slot: Slot, rest: seq<Slot>, target: TargetIdentity)
    ensures log + Ups([slot] + rest, target) == log + Ups([slot], target) + Ups(rest, target)
    ensures log + Ups(rest, target) == log + [] + Ups(rest, target)
  {
  }

  lemma StillSame(b: Boundary, b1: Boundary, b': Boundary, s: Slot)
    requires Safety.SameSlot(b1, b', s)
    ensures Safety.SameSlot(b, b1, s) ==> Safety.SameSlot(b, b', s)
    ensures !b1.held[s] ==> !b'.held[s]
  {
  }

  // ---- Retried and last releases ----

  /** Main result: a retry takes exactly those pending slots of the active target off it whose release is accepted,
      logging one up for each, in slot order, and reporting how many; it leaves every other slot alone. */
  lemma ReconcileReleases(b: Boundary, target: TargetIdentity, d: Dispatch, s: Slot)
    requires Safety.Reachable(b)
    ensures var (b', n) := ReconcilePending(b, target, d);
            var goes := Releasable(b.pending, b.owner, target, d);
            && n == |SlotsFrom(goes, 0)| && b'.log == b.log + Ups(SlotsFrom(goes, 0), target)
            && (if goes[s] then !b'.held[s] else Safety.SameSlot(b, b', s))
  {
    hide CanRelease, Ups, ReleasePendingFrom;
    var goes := Releasable(b.pending, b.owner, target, d);
    forall o: Slot ensures b.pending[o] ==> b.pendingTarget[o] == b.owner[o] { Safety.ReachableSlot(b, o); }
    if IsExpectedTargetActive(d.focus, target) {
      PassReleases(b, 0, target, d, goes, s);
    } else {
      NothingGoes(b.pending, b.owner, target, d);
    }
  }

  lemma NothingGoes(owed: Bools6, owner: Targets6, target: TargetIdentity, d: Dispatch)
    requires !IsExpectedTargetActive(d.focus, target)
    ensures SlotsFrom(Releasable(owed, owner, target, d), 0) == [] && Ups([], target) == []
  {
    var slots := SlotsFrom(Releasable(owed, owner, target, d), 0);
    assert |slots| > 0 ==> CanRelease(slots[0], target, d);
  }

  /** Main result: the last release takes exactly those held slots of the active target off it whose release is
      accepted, logging one up for each, in slot order, and reporting how many; every other held slot stays with
      its owner, pending. */
  lemma ShutdownReleases(b: Boundary, target: TargetIdentity, d: Dispatch, s: Slot)
    requires Safety.Reachable(b)
    ensures var (b', n) := ShutdownRelease(b, target, d);
            var goes := Releasable(b.held, b.owner, target, d);
            && n == |SlotsFrom(goes, 0)| && b'.log == b.log + Ups(SlotsFrom(goes, 0), target)
            && b'.held[s] == (b.held[s] && !goes[s])
            && (b'.held[s] ==> b'.owner[s] == b'.pendingTarget[s] == b.owner[s] && b'.pending[s])
  {
    hide CanRelease, Ups, ReleasePendingFrom, MarkAllHeld;
    var goes, marked := Releasable(b.held, b.owner, target, d), Refresh(MarkAllHeld(b, SLOT_COUNT));
    AllMarked(b, s);
    if IsExpectedTargetActive(d.focus, target) {
      forall o: Slot
        ensures goes[o] <==> marked.pending[o] && marked.pendingTarget[o] == target && CanRelease(o, target, d)
      {
        AllMarked(b, o);
      }
      PassReleases(marked, 0, target, d, goes, s);
    } else {
      NothingGoes(b.held, b.owner, target, d);
    }
  }

  lemma AllMarked(b: Boundary, s: Slot)
    requires Safety.Reachable(b)
    ensures var marked := MarkAllHeld(b, SLOT_COUNT);
            && marked.held == b.held && marked.owner == b.owner && marked.log == b.log
            && (marked.pending[s] <==> b.held[s]) && (b.held[s] ==> marked.pendingTarget[s] == b.owner[s])
  {
    Safety.ReachableSlot(b, s);
    MarkedUpTo(b, SLOT_COUNT, s);
  }

  lemma {:induction false} MarkedUpTo(b: Boundary, n: nat, s: Slot)
    requires n <= SLOT_COUNT
    ensures var marked := MarkAllHeld(b, n);
            && marked.held == b.held && marked.owner == b.owner && marked.log == b.log
            && marked.pending[s] == (b.pending[s] || (s < n && b.held[s]))
            && marked.pendingTarget[s] == if s < n && b.held[s] then b.owner[s] else b.pendingTarget[s]
  {
    if n > 0 { MarkedUpTo(b, n - 1, s); }
  }
}
