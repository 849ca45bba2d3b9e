/** What the target-bound calls of the input-injection boundary compute.
    A `Dispatch` carries everything the outside world decides during one call: the answer of the
    foreground check and, for every send attempt, whether the backend accepts it. */
module Injection {
  import opened Keys
  import opened TargetPlatform

  const SPACE_SLOT := 4
  const MOUSE_SLOT := 5
  const SLOT_COUNT := 6
  const MAX_RELEASE_ATTEMPTS := 2

  type Slot = s: int | 0 <= s < 6
  type Bools6 = s: seq<bool> | |s| == 6 witness [false, false, false, false, false, false]
  type Targets6 = s: seq<TargetIdentity> | |s| == 6
    witness [NO_TARGET, NO_TARGET, NO_TARGET, NO_TARGET, NO_TARGET, NO_TARGET]

  /** One input the backend accepted, and the foreground owner it was sent to. */
  datatype Accepted = Accepted(slot: Slot, down: bool, foreground: TargetIdentity)

  /** `accepts(2 * slot + attempt)` is the backend's answer to one send. */
  datatype Dispatch = Dispatch(focus: Focus, accepts: nat -> bool)

  datatype Boundary = Boundary(
    held: Bools6, pending: Bools6, owner: Targets6, pendingTarget: Targets6, releaseOnly: bool,
    log: seq<Accepted>)

  const IDLE: Boundary := Boundary(
    [false, false, false, false, false, false], [false, false, false, false, false, false],
    [NO_TARGET, NO_TARGET, NO_TARGET, NO_TARGET, NO_TARGET, NO_TARGET],
    [NO_TARGET, NO_TARGET, NO_TARGET, NO_TARGET, NO_TARGET, NO_TARGET], false, [])

  function Refresh(b: Boundary): Boundary {
    b.(releaseOnly := true in b.pending)
  }

  /** Both release attempts of one slot. */
  predicate ReleaseAccepted(d: Dispatch, slot: Slot) {
    d.accepts(2 * slot) || d.accepts(2 * slot + 1)
  }

  function ReleaseSlot(b: Boundary, slot: Slot, d: Dispatch): (Boundary, nat) {
    if ReleaseAccepted(d, slot) then
      (Refresh(b.(pending := b.pending[slot := false], held := b.held[slot := false],
                  owner := b.owner[slot := NO_TARGET], pendingTarget := b.pendingTarget[slot := NO_TARGET],
                  log := b.log + [Accepted(slot, false, d.focus.second)])), 1)
    else
      (Refresh(b.(pending := b.pending[slot := true])), 0)
  }

  function MarkPending(b: Boundary, slot: Slot): Boundary {
    Refresh(b.(pending := b.pending[slot := true], pendingTarget := b.pendingTarget[slot := b.owner[slot]]))
  }

  function UpForTarget(b: Boundary, slot: Slot, target: TargetIdentity, d: Dispatch): (Boundary, nat) {
    if !b.held[slot] && !b.pending[slot] then (b, 0)
    else if !target.IsValid() || b.owner[slot] != target then
      (if b.held[slot] then MarkPending(b, slot) else b, 0)
    else if !IsExpectedTargetActive(d.focus, target) then (MarkPending(b, slot), 0)
    else
      var (b', released) := ReleaseSlot(b, slot, d);
      (if released != 1 && b'.pending[slot] then b'.(pendingTarget := b'.pendingTarget[slot := target]) else b',
       released)
  }

  function DownForTarget(b: Boundary, slot: Slot, target: TargetIdentity, d: Dispatch): (Boundary, nat) {
    if b.releaseOnly || !IsExpectedTargetActive(d.focus, target) then (b, 0)
    else if b.held[slot] then
      if b.owner[slot] == target then (b, 1) else (MarkPending(b, slot), 0)
    else if d.accepts(2 * slot) then
      (b.(held := b.held[slot := true], owner := b.owner[slot := target],
          log := b.log + [Accepted(slot, true, d.focus.second)]), 1)
    else (b, 0)
  }

  /** Release every slot from `slot` on that is pending for `target`. */
  function ReleasePendingFrom(b: Boundary, slot: nat, target: TargetIdentity, d: Dispatch): (Boundary, nat)
    requires slot <= SLOT_COUNT
    decreases SLOT_COUNT - slot
  {
    if slot == SLOT_COUNT then (b, 0)
    else if b.pending[slot] && b.pendingTarget[slot] == target then
      var (b', n) := ReleaseSlot(b, slot, d);
      var (b'', m) := ReleasePendingFrom(b', slot + 1, target, d);
      (b'', n + m)
    else ReleasePendingFrom(b, slot + 1, target, d)
  }

  function ReconcilePending(b: Boundary, target: TargetIdentity, d: Dispatch): (Boundary, nat) {
    if !IsExpectedTargetActive(d.focus, target) then (b, 0)
    else
      var (b', n) := ReleasePendingFrom(b, 0, target, d);
      (Refresh(b'), n)
  }

  /** Every held slot becomes pending for the target that owns it. */
  function MarkAllHeld(b: Boundary, slots: nat): Boundary
    requires slots <= SLOT_COUNT
  {
    if slots == 0 then b
    else
      var b' := MarkAllHeld(b, slots - 1);
      if b'.held[slots - 1] then
        b'.(pending := b'.pending[slots - 1 := true],
            pendingTarget := b'.pendingTarget[slots - 1 := b'.owner[slots - 1]])
      else b'
  }

  function ShutdownRelease(b: Boundary, target: TargetIdentity, d: Dispatch): (Boundary, nat) {
    var b' := Refresh(MarkAllHeld(b, SLOT_COUNT));
    if !IsExpectedTargetActive(d.focus, target) then (b', 0)
    else ReleasePendingFrom(b', 0, target, d)
  }

  /** The target-bound interface. */
  datatype Call =
    | KeyDown(k: Key)
    | KeyUp(k: Key)
    | SpaceDown
    | SpaceUp
    | Reconcile
    | Shutdown

  function Apply(b: Boundary, c: Call, target: TargetIdentity, d: Dispatch): Boundary {
    match c
    case KeyDown(k) => DownForTarget(b, k, target, d).0
    case KeyUp(k) => UpForTarget(b, k, target, d).0
    case SpaceDown => DownForTarget(b, SPACE_SLOT, target, d).0
    case SpaceUp => UpForTarget(b, SPACE_SLOT, target, d).0
    case Reconcile => ReconcilePending(b, target, d).0
    case Shutdown => ShutdownRelease(b, target, d).0
  }

  datatype BoundCall = BoundCall(call: Call, target: TargetIdentity, dispatch: Dispatch)

  function Run(b: Boundary, calls: seq<BoundCall>): Boundary {
    if calls == [] then b
    else
      var last := calls[|calls| - 1];
      Apply(Run(b, calls[..|calls| - 1]), last.call, last.target, last.dispatch)
  }
}
