/** The invariant that every handler keeps in every SOCD mode, and how a delivered batch relates to it. */
module EngineInvariant {
  import opened Keys
  import opened TargetPlatform
  import opened Engine
  import I = Injection
  import T = Timers
  import Safety = InjectionSafety

  // ---- What a batch asks of the boundary, and what the boundary does with it ----

  /** Whether key k is held after the batch if it was `held` before and every send is accepted. */
  predicate Asked(held: bool, batch: Batch, k: Key) {
    match batch
    case Empty => held
    case More(rest, e) => if e.k == k then e.down else Asked(held, rest, k)
  }

  predicate Touches(batch: Batch, k: Key) {
    match batch
    case Empty => false
    case More(rest, e) => e.k == k || Touches(rest, k)
  }

  lemma SendSlot(b: I.Boundary, e: Event, target: TargetIdentity, d: I.Dispatch)
    requires Safety.Reachable(b)
    ensures var b' := Send(b, e, target, d);
            && (b'.held[e.k] ==> if e.down then b.held[e.k] || !b.releaseOnly else b'.pending[e.k])
            && (b.pending[e.k] && b'.held[e.k] ==> b'.pending[e.k])
  {
    Safety.ReachableSlot(b, e.k);
  }

  lemma SendFrame(b: I.Boundary, e: Event, target: TargetIdentity, d: I.Dispatch, slot: I.Slot)
    requires slot != e.k
    ensures Safety.SameSlot(b, Send(b, e, target, d), slot)
  {
  }

  lemma {:induction false} FlushReachable(b: I.Boundary, batch: Batch, target: TargetIdentity, sends: nat -> I.Dispatch)
    requires Safety.Reachable(b)
    ensures Safety.Reachable(Flush(b, batch, target, sends))
  {
    match batch
    case Empty =>
    case More(rest, e) =>
      FlushReachable(b, rest, target, sends);
      Safety.StaysReachable(Flush(b, rest, target, sends), if e.down then I.KeyDown(e.k) else I.KeyUp(e.k), target,
                            sends(Size(rest)));
  }

  /** A failed release leaves its key pending and blocks every later press, so the boundary never holds
      a key that the batch did not ask for unless its release is pending. */
  lemma {:induction false} FlushFollows(b: I.Boundary, batch: Batch, target: TargetIdentity, sends: nat -> I.Dispatch,
        k: Key)
    requires Safety.Reachable(b)
    ensures var b' := Flush(b, batch, target, sends);
            b'.held[k] ==> Asked(b.held[k], batch, k) || b'.pending[k]
  {
    match batch
    case Empty =>
    case More(rest, e) =>
      var b1, d := Flush(b, rest, target, sends), sends(Size(rest));
      FlushFollows(b, rest, target, sends, k);
      FlushReachable(b, rest, target, sends);
      SendSlot(b1, e, target, d);
      if e.k != k { SendFrame(b1, e, target, d, k); }
  }

  lemma {:induction false} FlushFrame(b: I.Boundary, batch: Batch, target: TargetIdentity, sends: nat -> I.Dispatch,
        slot: I.Slot)
    requires slot < 4 ==> !Touches(batch, slot)
    ensures Safety.SameSlot(b, Flush(b, batch, target, sends), slot)
  {
    match batch
    case Empty =>
    case More(rest, e) =>
      FlushFrame(b, rest, target, sends, slot);
      SendFrame(Flush(b, rest, target, sends), e, target, sends(Size(rest)), slot);
  }

  // ---- The invariant ----

  /** A timer the engine waits for is armed in its slot or on its way to the message thread. */
  ghost predicate TimerLive(s: KeyState, t: T.Timers, k: Key) {
    s.expectedTimerId != 0 ==> T.Live(t, k, s.expectedTimerId)
  }

  ghost predicate TimersOk(t: T.Timers) {
    && t.nextId > 0
    && (forall i :: 0 <= i < T.NUM_SLOTS && t.slots[i].active ==> t.slots[i].key == i)
    && (t.picked.Picked? ==> t.picked.slot.key == t.picked.index)
  }

  /** No axis state and no armed timer: the axis is not being arbitrated. */
  predicate QuietAxis(r: AxisRecord) {
    r.axisState == None && r.pos.expectedTimerId == 0 && r.neg.expectedTimerId == 0
  }

  /** No timer acts on the key any more: none is awaited or, with the cleaner on, the key is not logically down
      (a refused press and a rebuild can leave such a timer to run out). */
  predicate Spent(r: AxisRecord, mode: SocdMode, side: Side) {
    r.Key(side).expectedTimerId == 0 || (mode != OFF && !r.Key(side).logical)
  }

  /** With the cleaner on, the expiry that the key awaits has left its slot: nothing can replace or cancel it. */
  predicate Expiring(r: AxisRecord, mode: SocdMode, t: T.Timers, a: Axis, side: Side) {
    mode != OFF && T.OnItsWay(t, KeyOf(a, side), r.Key(side).expectedTimerId)
  }

  predicate Unarmed(r: AxisRecord, mode: SocdMode, t: T.Timers, a: Axis, side: Side) {
    Spent(r, mode, side) || Expiring(r, mode, t, a, side)
  }

  /** What holds of the engine's own record of one axis. */
  ghost predicate RecordOk(r: AxisRecord, mode: SocdMode, t: T.Timers, a: Axis) {
    var next := r.Resolved();
    && (r.axisState == None || r.axisState == next)
    && (r.axisState == None && next != None ==> QuietAxis(r))
    && (r.socdReleaseTimerId != 0 ==> mode == HUMANIZED && r.axisState == Conflict)
    && (next == Positive ==> Unarmed(r, mode, t, a, Neg))
    && (next == Negative ==> Unarmed(r, mode, t, a, Pos))
    && (next == Conflict ==> WinnerOk(r, mode, t, a) && LoserOk(r, mode))
    && NativeOk(r, mode)
  }

  /** In a conflict the last pressed key awaits nothing, but for an expiry that is already on its way. */
  predicate WinnerOk(r: AxisRecord, mode: SocdMode, t: T.Timers, a: Axis) {
    r.Key(r.socdLastKey).expectedTimerId == 0
    || (r.socdReleaseTimerId == 0 && Expiring(r, mode, t, a, r.socdLastKey))
  }

  /** In a conflict the last pressed key awaits nothing at all. */
  predicate WinnerFree(r: AxisRecord) {
    r.Resolved() == Conflict ==> r.Key(r.socdLastKey).expectedTimerId == 0
  }

  /** The other key awaits its timed release or nothing. */
  ghost predicate LoserOk(r: AxisRecord, mode: SocdMode) {
    var loser := Flip(r.socdLastKey);
    if r.socdReleaseTimerId != 0 then r.Key(loser).expectedTimerId == r.socdReleaseTimerId else Spent(r, mode, loser)
  }

  ghost predicate NativeOk(r: AxisRecord, mode: SocdMode) {
    && (r.pos.nativeLogical ==> mode == OFF && r.pos.phys)
    && (r.neg.nativeLogical ==> mode == OFF && r.neg.phys)
  }

  /** The published logical state is exactly what reached the game, and a held key that is not physically
      down, or whose axis is not arbitrated, has its release pending or timed. */
  ghost predicate KeyOk(r: AxisRecord, t: T.Timers, b: I.Boundary, a: Axis, side: Side) {
    var s, k := r.Key(side), KeyOf(a, side);
    && s.logical == (s.nativeLogical || b.held[k])
    && (b.held[k] && (!s.phys || r.axisState == None) ==> b.pending[k] || s.expectedTimerId != 0)
    && TimerLive(s, t, k)
  }

  ghost predicate AxisOk(r: AxisRecord, mode: SocdMode, t: T.Timers, b: I.Boundary, a: Axis) {
    RecordOk(r, mode, t, a) && KeyOk(r, t, b, a, Pos) && KeyOk(r, t, b, a, Neg)
  }

  ghost predicate Inv(w: World) {
    Safety.Reachable(w.b) && TimersOk(w.t) && AxisOk(w.s.x, w.mode, w.t, w.b, X) && AxisOk(w.s.y, w.mode, w.t, w.b, Y)
  }

  // ---- Work in progress ----

  /** What a handler must leave behind for a key before its batch is delivered to boundary b. */
  ghost predicate KeyReady(r: AxisRecord, t: T.Timers, batch: Batch, b: I.Boundary, a: Axis, side: Side) {
    var s, k := r.Key(side), KeyOf(a, side);
    && (Asked(b.held[k], batch, k) && (!s.phys || r.axisState == None) ==>
          s.expectedTimerId != 0 || (b.pending[k] && !Touches(batch, k)))
    && (s.expectedTimerId != 0 && !s.logical ==> !Asked(b.held[k], batch, k) && !Touches(batch, k))
    && TimerLive(s, t, k)
  }

  lemma FinishKey(r: AxisRecord, t: T.Timers, batch: Batch, b: I.Boundary, target: TargetIdentity,
        sends: nat -> I.Dispatch, mode: SocdMode, a: Axis, side: Side)
    requires Safety.Reachable(b) && KeyReady(r, t, batch, b, a, side) && NativeOk(r, mode)
    ensures var b' := Flush(b, batch, target, sends);
            && KeyOk(CommitAxis(r, b', a), t, b', a, side)
            && (Spent(r, mode, side) ==> Spent(CommitAxis(r, b', a), mode, side))
  {
    hide Flush, Asked, Touches, T.Live;
    FlushFollows(b, batch, target, sends, KeyOf(a, side));
    if !Touches(batch, KeyOf(a, side)) {
      FlushFrame(b, batch, target, sends, KeyOf(a, side));
      UntouchedAsks(b, batch, KeyOf(a, side));
    }
  }

  lemma FinishAxisOk(r: AxisRecord, mode: SocdMode, t: T.Timers, batch: Batch, b: I.Boundary, target: TargetIdentity,
                     sends: nat -> I.Dispatch, a: Axis)
    requires Safety.Reachable(b) && RecordOk(r, mode, t, a)
    requires KeyReady(r, t, batch, b, a, Pos) && KeyReady(r, t, batch, b, a, Neg)
    ensures var b' := Flush(b, batch, target, sends);
            AxisOk(CommitAxis(r, b', a), mode, t, b', a)
  {
    hide Flush, KeyOk, KeyReady, Spent, T.OnItsWay;
    FinishKey(r, t, batch, b, target, sends, mode, a, Pos);
    FinishKey(r, t, batch, b, target, sends, mode, a, Neg);
  }

  /** An axis whose timers and keys the handler left alone. */
  ghost predicate SameTimers(t: T.Timers, t': T.Timers, a: Axis) {
    && t'.slots[KeyOf(a, Pos)] == t.slots[KeyOf(a, Pos)] && t'.slots[KeyOf(a, Neg)] == t.slots[KeyOf(a, Neg)]
    && t'.inFlight == t.inFlight && t'.queue == t.queue
  }

  ghost predicate Untouched(batch: Batch, a: Axis) {
    !Touches(batch, KeyOf(a, Pos)) && !Touches(batch, KeyOf(a, Neg))
  }

  /** The work so far stays on axis a. */
  ghost predicate StaysOn(t: T.Timers, w: Work, a: Axis) {
    SameTimers(t, w.t, OtherAxis(a)) && Untouched(w.batch, OtherAxis(a)) && TimersOk(w.t)
  }

  lemma UntouchedReady(r: AxisRecord, r': AxisRecord, t: T.Timers, t': T.Timers, batch: Batch, b: I.Boundary, a: Axis)
    requires KeyOk(r, t, b, a, Pos) && KeyOk(r, t, b, a, Neg)
    requires r'.axisState == r.axisState
    requires r'.pos.phys == r.pos.phys && r'.pos.expectedTimerId == r.pos.expectedTimerId
    requires r'.neg.phys == r.neg.phys && r'.neg.expectedTimerId == r.neg.expectedTimerId
    requires r'.pos.logical == (r'.pos.nativeLogical || b.held[KeyOf(a, Pos)])
    requires r'.neg.logical == (r'.neg.nativeLogical || b.held[KeyOf(a, Neg)])
    requires SameTimers(t, t', a) && Untouched(batch, a)
    ensures KeyReady(r', t', batch, b, a, Pos) && KeyReady(r', t', batch, b, a, Neg)
  {
    UntouchedAsks(b, batch, KeyOf(a, Pos));
    UntouchedAsks(b, batch, KeyOf(a, Neg));
  }

  lemma UntouchedAsks(b: I.Boundary, batch: Batch, k: Key)
    requires !Touches(batch, k)
    ensures Asked(b.held[k], batch, k) == b.held[k]
  {
  }

  /** The batch never asks for a key of the axis that is not logically down. */
  ghost predicate Tracked(w: Work, b: I.Boundary, a: Axis, side: Side) {
    Asked(b.held[KeyOf(a, side)], w.batch, KeyOf(a, side)) ==> w.r.Key(side).logical
  }

  /** A key that is logically but not physically down has its release timed, or pending and left alone. */
  ghost predicate Covered(w: Work, b: I.Boundary, a: Axis, side: Side) {
    var s, k := w.r.Key(side), KeyOf(a, side);
    s.logical && !s.phys ==> s.expectedTimerId != 0 || (b.pending[k] && !Touches(w.batch, k))
  }

  /** A key that awaits a timer is not released by the batch. */
  ghost predicate Kept(w: Work, a: Axis, side: Side) {
    w.r.Key(side).expectedTimerId != 0 && Touches(w.batch, KeyOf(a, side)) ==> w.r.Key(side).logical
  }

  ghost predicate SideOk(w: Work, b: I.Boundary, a: Axis, side: Side) {
    && Tracked(w, b, a, side) && Covered(w, b, a, side) && Kept(w, a, side)
    && TimerLive(w.r.Key(side), w.t, KeyOf(a, side))
  }

  /** Both keys of an axis in the middle of a handler. */
  ghost predicate Going(w: Work, b: I.Boundary, a: Axis, t: T.Timers) {
    SideOk(w, b, a, Pos) && SideOk(w, b, a, Neg) && StaysOn(t, w, a)
  }

  /** The same, before the key that was just released physically is dealt with. */
  ghost predicate GoingExcept(w: Work, b: I.Boundary, a: Axis, t: T.Timers, side: Side) {
    && SideOk(w, b, a, Flip(side)) && StaysOn(t, w, a)
    && Tracked(w, b, a, side) && Kept(w, a, side) && TimerLive(w.r.Key(side), w.t, KeyOf(a, side))
  }

  lemma EmitKeeps(w: Work, a: Axis, side: Side, down: bool, b: I.Boundary, t: T.Timers)
    requires Going(w, b, a, t)
    requires if down then w.r.Key(side).phys || w.r.Key(side).expectedTimerId != 0
             else w.r.Key(side).expectedTimerId == 0
    ensures Going(Emit(w, a, side, down), b, a, t)
  {
  }

  /** Changing what is armed on one side of the axis. */
  lemma TimerKeeps(w: Work, w': Work, a: Axis, side: Side, b: I.Boundary, t: T.Timers)
    requires Going(w, b, a, t) && w'.batch == w.batch && StaysOn(t, w', a)
    requires w'.r.Key(Flip(side)) == w.r.Key(Flip(side))
    requires w'.t.slots[KeyOf(a, Flip(side))] == w.t.slots[KeyOf(a, Flip(side))]
    requires w'.t.inFlight == w.t.inFlight && w'.t.queue == w.t.queue
    requires w'.r.Key(side).logical == w.r.Key(side).logical && w'.r.Key(side).phys == w.r.Key(side).phys
    requires Covered(w', b, a, side) && Kept(w', a, side) && TimerLive(w'.r.Key(side), w'.t, KeyOf(a, side))
    ensures Going(w', b, a, t)
  {
  }

  // ---- Axis resolution keeps the work in order ----

  lemma OverlapKeeps(w: Work, mode: SocdMode, a: Axis, onPress: bool, target: TargetIdentity, env: Env, b: I.Boundary,
        t: T.Timers)
    requires Going(w, b, a, t) && w.r.socdReleaseTimerId == 0 && w.r.Resolved() == Conflict
    ensures var w' := EnterOverlap(w, mode, a, onPress, target, env);
            && Going(w', b, a, t) && (NativeOk(w.r, mode) ==> NativeOk(w'.r, mode))
            && w'.r.Resolved() == Conflict && w'.r.axisState == w.r.axisState && w'.r.socdLastKey == w.r.socdLastKey
            && w'.r.Key(w.r.socdLastKey).expectedTimerId == 0
            && w'.r.Key(Flip(w.r.socdLastKey)).expectedTimerId == w'.r.socdReleaseTimerId
            && (w'.r.socdReleaseTimerId != 0 ==> mode == HUMANIZED)
  {
    var w1 := DisarmAndForget(w, a, Pos);
    TimerKeeps(w, w1, a, Pos, b, t);
    var w2 := DisarmAndForget(w1, a, Neg);
    TimerKeeps(w1, w2, a, Neg, b, t);
    TimerKeeps(w2, EnterOverlap(w, mode, a, onPress, target, env), a, Flip(w.r.socdLastKey), b, t);
  }

  lemma ConflictKeeps(w: Work, mode: SocdMode, a: Axis, onPress: bool, target: TargetIdentity, env: Env,
        b: I.Boundary, t: T.Timers)
    requires Going(w, b, a, t) && NativeOk(w.r, mode) && w.r.socdReleaseTimerId == 0
    requires w.r.Resolved() == w.r.axisState == Conflict
    ensures var w' := EnterConflict(w, mode, a, onPress, target, env);
            && Going(w', b, a, t) && RecordOk(w'.r, mode, w'.t, a) && w'.r.axisState == w'.r.Resolved() == Conflict
            && WinnerFree(w'.r)
  {
    hide EnterOverlap, Asked, Touches, T.Live, T.OnItsWay, StaysOn;
    OverlapKeeps(w, mode, a, onPress, target, env, b, t);
    var w1, winner := EnterOverlap(w, mode, a, onPress, target, env), w.r.socdLastKey;
    if w1.r.socdReleaseTimerId == 0 { EmitKeeps(w1, a, Flip(winner), false, b, t); }
    var w2 := if w1.r.socdReleaseTimerId != 0 then w1 else Release(w1, a, Flip(winner));
    EmitKeeps(w2, a, winner, true, b, t);
  }

  /** The plan of the axis is as it was: its state, priorities, physical and native keys. */
  ghost predicate SamePlan(r: AxisRecord, r': AxisRecord) {
    && r'.axisState == r.axisState && r'.socdReleaseTimerId == r.socdReleaseTimerId && r'.socdLastKey == r.socdLastKey
    && r'.pos.phys == r.pos.phys && r'.neg.phys == r.neg.phys
    && r'.pos.nativeLogical == r.pos.nativeLogical && r'.neg.nativeLogical == r.neg.nativeLogical
  }

  lemma HoldKeeps(w: Work, mode: SocdMode, a: Axis, side: Side, b: I.Boundary, t: T.Timers)
    requires Going(w, b, a, t) && w.r.Key(side).phys
    ensures var w' := Hold(w, mode, a, side);
            && Going(w', b, a, t) && SamePlan(w.r, w'.r)
            && w'.r.Key(side).expectedTimerId == w.r.Key(side).expectedTimerId
            && w'.r.Key(Flip(side)) == w.r.Key(Flip(side)) && w'.t == w.t
  {
    EmitKeeps(w, a, side, true, b, t);
  }

  lemma StaleKeeps(w: Work, a: Axis, opp: Side, b: I.Boundary, t: T.Timers)
    requires Going(w, b, a, t) && !w.r.Key(opp).phys
    ensures var w' := CancelStaleCounterStrafe(w, a, opp);
            && Going(w', b, a, t) && SamePlan(w.r, w'.r)
            && w'.r.Key(opp).expectedTimerId == 0
                 && w'.r.Key(Flip(opp)).expectedTimerId == w.r.Key(Flip(opp)).expectedTimerId
  {
    assert Going(SetLogical(w, opp, false), b, a, t) || w.r.Key(opp).logical;
  }

  lemma ResolveKeeps(w: Work, mode: SocdMode, a: Axis, onPress: bool, target: TargetIdentity, env: Env, b: I.Boundary,
        t: T.Timers)
    requires Going(w, b, a, t) && NativeOk(w.r, mode) && w.r.socdReleaseTimerId == 0
    requires var next := w.r.Resolved();
             && (w.r.axisState == next && !(onPress && next == Conflict) ==> RecordOk(w.r, mode, w.t, a))
             && (w.r.axisState == Conflict && next == Positive ==> Unarmed(w.r, mode, w.t, a, Neg))
             && (w.r.axisState == Conflict && next == Negative ==> Unarmed(w.r, mode, w.t, a, Pos))
    ensures var w' := ResolveAxis(w, mode, a, onPress, target, env);
            && Going(w', b, a, t) && RecordOk(w'.r, mode, w'.t, a) && w'.r.axisState == w'.r.Resolved()
            && (w.r.axisState != w.r.Resolved() ==> WinnerFree(w'.r))
            && w'.r.pos.phys == w.r.pos.phys && w'.r.neg.phys == w.r.neg.phys
  {
    hide EnterConflict, Hold, CancelStaleCounterStrafe, Asked, Touches;
    var prev, next := w.r.axisState, w.r.Resolved();
    if next == prev && !(onPress && next == Conflict) {
    } else {
      var w1 := TurnAxis(w, a, next);
      assert w1 == w.(r := w.r.(axisState := next));
      assert Going(w1, b, a, t);
      if next == Conflict {
        ConflictKeeps(w1, mode, a, onPress, target, env, b, t);
      } else if next != None {
        var down := if next == Positive then Pos else Neg;
        if prev == Conflict {
          HoldKeeps(w1, mode, a, down, b, t);
        } else {
          StaleKeeps(w1, a, Flip(down), b, t);
        }
      }
    }
  }
}
