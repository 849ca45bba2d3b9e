/** The refinement over whole runs: from the start or from any rebuild, as long as edges are routed. */
module EngineIdealRuns {
  import opened Keys
  import opened TargetPlatform
  import opened Engine
  import opened EngineInvariant
  import opened EngineSafety
  import opened EngineUnrouted
  import opened EngineReconcile
  import opened EngineRefinement
  import I = Injection
  import T = Timers
  import Safety = InjectionSafety

  // ---- Two strengths of the invariant ----

  ghost predicate AxisOwned(r: AxisRecord, b: I.Boundary, a: Axis, target: TargetIdentity) {
    Owned(r, b, a, Pos, target) && Owned(r, b, a, Neg, target)
  }

  /** Everything belongs to `target`; the axes may be waiting for a rebuild. */
  ghost predicate Base(w: World, target: TargetIdentity) {
    Inv(w) && Calm(w.b, target) && AxisOwned(w.s.x, w.b, X, target) && AxisOwned(w.s.y, w.b, Y, target)
  }

  /** The axes are arbitrated and have the specified shape. */
  ghost predicate Arbitrated(w: World, target: TargetIdentity) {
    && !w.s.suspended
    && IdealAxis(w.s.x, w.b, X, w.mode, target) && IdealAxis(w.s.y, w.b, Y, w.mode, target)
  }

  ghost predicate Ideal(w: World, target: TargetIdentity) {
    Base(w, target) && Arbitrated(w, target)
  }

  ghost predicate IdealAction(action: Action, target: TargetIdentity) {
    action.target == target && ObligingEnv(action.env, target)
  }

  // ---- Finishing a handler of one axis ----

  lemma FinishIdeal(w: World, s: State, a: Axis, wk: Work, target: TargetIdentity, env: Env)
    requires Ideal(w, target) && ObligingEnv(env, target) && !s.suspended
    requires Exact(wk, w.b, a, w.mode, target) && Shape(wk.r, w.mode) && wk.r.axisState == wk.r.Resolved()
    requires s.At(OtherAxis(a)) == w.s.At(OtherAxis(a))
    ensures var w' := FinishAxis(w, s, a, wk, target, env);
            Calm(w'.b, target) && Arbitrated(w', target)
  {
    var o, b' := OtherAxis(a), Flush(w.b, wk.batch, target, env.sends);
    FlushCalm(w.b, wk.batch, target, env.sends);
    CommitExact(wk, w.b, b', a, w.mode, target);
    AloneExact(s.At(o), wk.batch, w.b, o, w.mode, target);
    CommitExact(Work(s.At(o), T.STARTED, wk.batch), w.b, b', o, w.mode, target);
  }

  lemma ArbitratedBase(w: World, target: TargetIdentity)
    requires Inv(w) && Calm(w.b, target) && Arbitrated(w, target)
    ensures Ideal(w, target)
  {
  }

  /** The tracker finds what it left behind on the other axis, and makes the edge's own axis exact again. */
  lemma TrackedExact(w: World, r: AxisRecord, t: T.Timers, a: Axis, target: TargetIdentity, env: Env)
    requires Safety.Reachable(w.b) && IsExpectedTargetActive(env.nativeFocus, target)
    requires AxisOwned(r, w.b, a, target)
    requires w.mode != OFF ==> Exact(Work(r, t, Empty), w.b, a, w.mode, target)
    ensures Exact(Work(TrackedRecord(w, r, a, false, target, env), t, Empty), w.b, a, w.mode, target)
  {
  }

  lemma TrackedIdle(w: World, a: Axis, target: TargetIdentity, env: Env)
    requires Ideal(w, target) && IsExpectedTargetActive(env.nativeFocus, target)
    ensures TrackedRecord(w, w.s.At(a), a, false, target, env) == w.s.At(a)
  {
  }

  lemma TrackedStates(w: World, r: AxisRecord, a: Axis, target: TargetIdentity, env: Env)
    requires Ideal(w, target) && IsExpectedTargetActive(env.nativeFocus, target)
    ensures var s := TrackIfOff(w, w.s.With(a, r), target, env);
            && s.At(a) == TrackedRecord(w, r, a, false, target, env) && s.At(OtherAxis(a)) == w.s.At(OtherAxis(a))
            && !s.suspended
  {
    TrackIfOffAt(w, w.s.With(a, r), a, target, env);
    TrackIfOffAt(w, w.s.With(a, r), OtherAxis(a), target, env);
    TrackedIdle(w, OtherAxis(a), target, env);
  }

  // ---- Routed edges ----

  lemma PressedExact(w: World, a: Axis, side: Side, target: TargetIdentity)
    requires Ideal(w, target) && !w.s.At(a).Key(side).phys
    ensures var wk := TrackPress(w.s.At(a), w.t, a, side);
            && AxisOwned(wk.r, w.b, a, target) && (w.mode != OFF ==> Exact(wk, w.b, a, w.mode, target))
            && wk.r.socdReleaseTimerId == 0 && wk.r.axisState != wk.r.Resolved() && wk.r.axisState != Conflict
            && wk.r.Key(side).phys && wk.batch == Empty
  {
  }

  lemma PressIdeal(w: World, k: Key, target: TargetIdentity, env: Env)
    requires Ideal(w, target) && ObligingEnv(env, target)
    ensures var w' := HandleKeyDown(w, k, true, target, env); Calm(w'.b, target) && Arbitrated(w', target)
  {
    var a, side := KeyAxis(k), SideOf(k);
    if !w.s.Key(k).phys {
      var tracked := TrackPress(w.s.At(a), w.t, a, side);
      PressedExact(w, a, side, target);
      TrackedStates(w, tracked.r, a, target, env);
      TrackedExact(w, tracked.r, tracked.t, a, target, env);
      var s := TrackIfOff(w, w.s.With(a, tracked.r), target, env);
      var wk := tracked.(r := s.At(a));
      assert wk == Work(TrackedRecord(w, tracked.r, a, false, target, env), tracked.t, Empty);
      RoutePressExact(wk, a, side, target, env, w.b, w.mode);
      FinishIdeal(w, s, a, RoutePress(wk, w.mode, a, side, target, env), target, env);
    }
  }

  lemma CancelSocdExact(r: AxisRecord, t: T.Timers, b: I.Boundary, a: Axis, mode: SocdMode, target: TargetIdentity)
    requires Exact(Work(r, t, Empty), b, a, mode, target)
    ensures var w := CancelSocdTransition(Work(r, t, Empty), a);
            && Exact(w, b, a, mode, target) && w.batch == Empty && w.r.socdReleaseTimerId == 0
            && w.r.axisState == r.axisState && w.r.pos.phys == r.pos.phys && w.r.neg.phys == r.neg.phys
            && w.r.pos.logical == r.pos.logical && w.r.neg.logical == r.neg.logical
            && (r.socdReleaseTimerId == 0 ==> w.r == r)
            && (r.pos.expectedTimerId == r.socdReleaseTimerId || r.pos.expectedTimerId == 0 ==>
                 w.r.pos.expectedTimerId == 0)
            && (r.neg.expectedTimerId == r.socdReleaseTimerId || r.neg.expectedTimerId == 0 ==>
                 w.r.neg.expectedTimerId == 0)
  {
  }

  lemma ReleasedExact(w: World, a: Axis, side: Side, target: TargetIdentity)
    requires Ideal(w, target) && w.s.At(a).Key(side).phys
    ensures var wk := TrackRelease(w.s.At(a), w.t, a, side);
            && AxisOwned(wk.r, w.b, a, target) && (w.mode != OFF ==> Exact(wk, w.b, a, w.mode, target))
            && wk.batch == Empty && wk.r.socdReleaseTimerId == 0
            && (if wk.r.Key(Flip(side)).phys then wk.r.axisState == Conflict && wk.r.Key(side).expectedTimerId == 0
                else wk.r.axisState == (if side == Pos then Positive else Negative)
                     && wk.r.Key(Flip(side)).expectedTimerId == 0 && !wk.r.Key(Flip(side)).logical
                     && !w.b.held[KeyOf(a, Flip(side))])
  {
    var r := w.s.At(a);
    assert RecordOk(r, w.mode, w.t, a) && IdealAxis(r, w.b, a, w.mode, target);
    CancelSocdExact(r, w.t, w.b, a, w.mode, target);
  }

  lemma ReleasedStays(w: World, r: AxisRecord, a: Axis, side: Side, target: TargetIdentity, env: Env)
    requires Released(r, side) && (!r.Key(Flip(side)).phys ==> !w.b.held[KeyOf(a, Flip(side))])
    ensures Released(TrackedRecord(w, r, a, false, target, env), side)
  {
  }

  lemma ReleaseIdeal(w: World, k: Key, target: TargetIdentity, env: Env)
    requires Ideal(w, target) && ObligingEnv(env, target) && w.s.Key(k).phys
    ensures var w' := HandleKeyUp(w, k, true, target, env); Calm(w'.b, target) && Arbitrated(w', target)
  {
    var a, side := KeyAxis(k), SideOf(k);
    var tracked := TrackRelease(w.s.At(a), w.t, a, side);
    ReleasedExact(w, a, side, target);
    TrackedStates(w, tracked.r, a, target, env);
    TrackedExact(w, tracked.r, tracked.t, a, target, env);
    ReleasedStays(w, tracked.r, a, side, target, env);
    var s := TrackIfOff(w, w.s.With(a, tracked.r), target, env);
    var wk := tracked.(r := s.At(a));
    assert wk == Work(TrackedRecord(w, tracked.r, a, false, target, env), tracked.t, Empty);
    RouteReleaseExact(wk, a, side, s.suspended, target, env, w.b, w.mode);
    FinishIdeal(w, s, a, RouteRelease(wk, w.mode, a, side, s.suspended, target, env), target, env);
  }

  /** A repeated edge changes nothing and emits nothing. */
  lemma RepeatIsSilent(w: World, k: Key, down: bool, target: TargetIdentity, env: Env)
    requires Ideal(w, target) && w.s.Key(k).phys == down
    ensures (if down then HandleKeyDown(w, k, true, target, env) else HandleKeyUp(w, k, true, target, env)) == w
  {
    if !down {
      var a := KeyAxis(k);
      var wk := Work(w.s.At(a), w.t, Empty);
      assert ResolveAxis(wk, w.mode, a, false, target, env) == wk;
      assert w.s.With(a, w.s.At(a)) == w.s && Commit(w.s, w.b) == w.s;
    }
  }

  // ---- Expiry ----

  lemma ExpireIdeal(w: World, target: TargetIdentity, env: Env)
    requires Ideal(w, target) && ObligingEnv(env, target)
    ensures var w' := DrainExpired(w, env); Calm(w'.b, target) && Arbitrated(w', target)
  {
    hide ExpireTimer, FinishAxis;
    if w.t.queue != [] {
      var e, w1 := w.t.queue[0], w.(t := T.Pop(w.t));
      if e.key < 4 && e.id != 0 && w.s.Key(e.key).expectedTimerId == e.id {
        var a, side := KeyAxis(e.key), SideOf(e.key);
        var wk := Work(w.s.At(a), w1.t, Empty);
        ExpireExact(wk, w.t, a, side, w.s.suspended, target, w.b, w.mode);
        FinishIdealAfter(w, w1.t, a, ExpireTimer(wk, w.mode, a, side, w.s.suspended), target, env);
      }
    }
  }

  lemma FinishIdealAfter(w: World, t: T.Timers, a: Axis, wk: Work, target: TargetIdentity, env: Env)
    requires Ideal(w, target) && ObligingEnv(env, target)
    requires Exact(wk, w.b, a, w.mode, target) && Shape(wk.r, w.mode) && wk.r.axisState == wk.r.Resolved()
    ensures var w' := FinishAxis(w.(t := t), w.s, a, wk, target, env);
            Calm(w'.b, target) && Arbitrated(w', target)
  {
    FinishIdeal(w, w.s, a, wk, target, env);
  }

  // ---- Rebuild with the SOCD cleaner on ----

  function PassKey(k: KeyState, desired: bool, released: bool, pressed: bool): KeyState {
    if desired then k.(logical := k.logical || pressed)
    else if released && k.logical then k.(logical := false, expectedTimerId := 0, expectedTimerTarget := NO_TARGET)
    else k
  }

  function PassAxis(r: AxisRecord, releasedPos: bool, releasedNeg: bool, pressedPos: bool,
        pressedNeg: bool): AxisRecord {
    r.(pos := PassKey(r.pos, Desired(r, Pos), releasedPos, pressedPos),
        neg := PassKey(r.neg, Desired(r, Neg), releasedNeg, pressedNeg))
  }

  /** Without native keys, what the batch asks for is exactly what is logically down. */
  ghost predicate AsksLogical(w: Work, b: I.Boundary, a: Axis) {
    && Asked(b.held[KeyOf(a, Pos)], w.batch, KeyOf(a, Pos)) == w.r.pos.logical
    && Asked(b.held[KeyOf(a, Neg)], w.batch, KeyOf(a, Neg)) == w.r.neg.logical
  }

  /** The record of an axis of which `passed` tells whether each key has had its turn in the pass. */
  function Passed(r: AxisRecord, down: bool, passed: Side -> bool): AxisRecord {
    PassAxis(r, down || passed(Pos), down || passed(Neg), down && passed(Pos), down && passed(Neg))
  }

  lemma SettleKeyIs(w: Work, r0: AxisRecord, b: I.Boundary, a: Axis, side: Side, down: bool, passed: Side -> bool,
        passed': Side -> bool)
    requires AsksLogical(w, b, a) && w.r == Passed(r0, down, passed)
    requires !passed(side) && passed'(side) && passed'(Flip(side)) == passed(Flip(side))
    ensures var w' := SettleKey(w, a, side, down, Desired(r0, side));
            AsksLogical(w', b, a) && w'.r == Passed(r0, down, passed') && Frame(w, w', b, OtherAxis(a))
  {
  }

  function YPassed(n: nat): Side -> bool {
    side => if side == Pos then n > 0 else n > 1
  }

  function XPassed(n: nat): Side -> bool {
    side => if side == Neg then n > 2 else n > 3
  }

  ghost predicate PassedTo(w: WorkAll, s: State, b: I.Boundary, down: bool, n: nat) {
    && w.s == s.(x := Passed(s.x, down, XPassed(n)), y := Passed(s.y, down, YPassed(n)))
    && AsksLogical(w.At(X), b, X) && AsksLogical(w.At(Y), b, Y)
  }

  lemma FrameAsks(w: Work, w': Work, r: AxisRecord, b: I.Boundary, o: Axis)
    requires Frame(w, w', b, o) && AsksLogical(w.(r := r), b, o)
    ensures AsksLogical(w'.(r := r), b, o)
  {
  }

  lemma SettleYIs(w: WorkAll, s: State, b: I.Boundary, down: bool, n: nat)
    requires n < 2 && PassedTo(w, s, b, down, n)
    ensures PassedTo(w.With(Y, SettleKey(w.At(Y), Y, SideOf(n), down, Desired(s.y, SideOf(n)))), s, b, down, n + 1)
  {
    SettleKeyIs(w.At(Y), s.y, b, Y, SideOf(n), down, YPassed(n), YPassed(n + 1));
    FrameAsks(w.At(Y), SettleKey(w.At(Y), Y, SideOf(n), down, Desired(s.y, SideOf(n))), w.s.x, b, X);
    assert Passed(s.x, down, XPassed(n)) == Passed(s.x, down, XPassed(n + 1));
  }

  lemma SettleXIs(w: WorkAll, s: State, b: I.Boundary, down: bool, n: nat)
    requires 2 <= n < 4 && PassedTo(w, s, b, down, n)
    ensures PassedTo(w.With(X, SettleKey(w.At(X), X, SideOf(n), down, Desired(s.x, SideOf(n)))), s, b, down, n + 1)
  {
    SettleKeyIs(w.At(X), s.x, b, X, SideOf(n), down, XPassed(n), XPassed(n + 1));
    FrameAsks(w.At(X), SettleKey(w.At(X), X, SideOf(n), down, Desired(s.x, SideOf(n))), w.s.y, b, Y);
    assert Passed(s.y, down, YPassed(n)) == Passed(s.y, down, YPassed(n + 1));
  }

  lemma {:induction false} SettleKeysIs(w: WorkAll, s: State, b: I.Boundary, down: bool, n: nat)
    requires n <= 4 && PassedTo(w, s, b, down, 0)
    ensures PassedTo(SettleKeys(w, s, down, n), s, b, down, n)
  {
    if n > 0 {
      SettleKeysIs(w, s, b, down, n - 1);
      if n < 3 {
        SettleYIs(SettleKeys(w, s, down, n - 1), s, b, down, n - 1);
      } else {
        SettleXIs(SettleKeys(w, s, down, n - 1), s, b, down, n - 1);
      }
    }
  }

  lemma SettleBothIs(w: WorkAll, b: I.Boundary)
    requires AsksLogical(w.At(X), b, X) && AsksLogical(w.At(Y), b, Y)
    ensures var w' := SettleBoth(w);
            && w'.s == w.s.(x := PassAxis(w.s.x, true, true, true, true), y := PassAxis(w.s.y, true, true, true, true))
            && AsksLogical(w'.At(X), b, X) && AsksLogical(w'.At(Y), b, Y)
  {
    SettleKeysIs(w, w.s, b, false, 4);
    var w1 := SettleKeys(w, w.s, false, 4);
    assert PassedTo(w1, w.s, b, true, 0);
    SettleKeysIs(w1, w.s, b, true, 4);
  }

  lemma PassedIdeal(r: AxisRecord, b: I.Boundary, b': I.Boundary, a: Axis, mode: SocdMode, target: TargetIdentity)
    requires NativeOk(r, mode) && mode != OFF && r.axisState == r.Resolved() && AxisOwned(r, b, a, target)
    requires WinnerFree(r)
    requires r.pos.logical == b.held[KeyOf(a, Pos)] && r.neg.logical == b.held[KeyOf(a, Neg)]
    requires var r' := PassAxis(r, true, true, true, true);
             b'.held[KeyOf(a, Pos)] == r'.pos.logical && b'.held[KeyOf(a, Neg)] == r'.neg.logical
    ensures var r' := PassAxis(r, true, true, true, true);
            CommitAxis(r', b', a) == r' && IdealAxis(r', b', a, mode, target)
  {
  }

  ghost predicate Rebuildable(w: World, target: TargetIdentity) {
    && Inv(w) && Calm(w.b, target) && !w.s.suspended
    && AxisOwned(w.s.x, w.b, X, target) && AxisOwned(w.s.y, w.b, Y, target)
    && WinnerFree(w.s.x) && WinnerFree(w.s.y)
  }

  lemma IdealRebuildable(w: World, target: TargetIdentity)
    requires Ideal(w, target)
    ensures Rebuildable(w, target)
  {
  }

  function SettledState(s: State): State {
    s.(x := PassAxis(s.x, true, true, true, true), y := PassAxis(s.y, true, true, true, true))
  }

  lemma TakenOverOwned(w: World, physical: Bools4, target: TargetIdentity)
    requires AxisOwned(w.s.x, w.b, X, target) && AxisOwned(w.s.y, w.b, Y, target)
    ensures var s := TakenOver(w, physical).s;
            && AxisOwned(s.x, w.b, X, target) && AxisOwned(s.y, w.b, Y, target)
            && s.suspended == w.s.suspended && SamePhys(Observe(w.s, physical), s)
  {
  }

  lemma CleanedWorkIs(w: World, physical: Bools4, target: TargetIdentity, env: Env)
    requires Inv(w) && w.mode != OFF && Fits(w, physical)
    ensures var wk := ReconcileLogical(WorkAll(Observe(w.s, physical), w.t, Empty), w.mode, w.b, target, env);
            && wk.s == SettledState(TakenOver(w, physical).s)
            && AsksLogical(wk.At(X), w.b, X) && AsksLogical(wk.At(Y), w.b, Y)
  {
    TakenOverOk(w, physical);
    SettleBothIs(TakenOver(w, physical), w.b);
  }

  lemma CleanedRebuildIs(w: World, physical: Bools4, target: TargetIdentity, env: Env)
    requires Rebuildable(w, target) && Fits(w, physical) && w.mode != OFF && ObligingEnv(env, target)
    ensures var w' := RebuildState(w, physical, target, env); Calm(w'.b, target) && Arbitrated(w', target)
  {
    hide IdealAxis, PassAxis, TakenOver, ReconcileLogical, AxisOwned, FitsAxis;
    CleanedWorkIs(w, physical, target, env);
    var wk := ReconcileLogical(WorkAll(Observe(w.s, physical), w.t, Empty), w.mode, w.b, target, env);
    FlushCalm(w.b, wk.batch, target, env.sends);
    var b', s := Flush(w.b, wk.batch, target, env.sends), TakenOver(w, physical).s;
    TakenOverOk(w, physical);
    TakenOverOwned(w, physical, target);
    PassedIdeal(s.x, w.b, b', X, w.mode, target);
    PassedIdeal(s.y, w.b, b', Y, w.mode, target);
  }

  lemma {:induction false} SettleIdle(w: WorkAll, down: bool, n: nat)
    requires n <= 4
    requires Desired(w.s.x, Pos) == w.s.x.pos.logical && Desired(w.s.x, Neg) == w.s.x.neg.logical
    requires Desired(w.s.y, Pos) == w.s.y.pos.logical && Desired(w.s.y, Neg) == w.s.y.neg.logical
    ensures SettleKeys(w, w.s, down, n) == w
  {
    if n > 0 { SettleIdle(w, down, n - 1); }
  }

  lemma ShapeDesired(r: AxisRecord, mode: SocdMode)
    requires mode != OFF && Shape(r, mode)
    ensures Desired(r, Pos) == r.pos.logical && Desired(r, Neg) == r.neg.logical
  {
  }

  lemma TakenOverSame(w: World, physical: Bools4, target: TargetIdentity)
    requires Ideal(w, target) && Seen(w.s, physical)
    ensures TakenOver(w, physical) == WorkAll(w.s, w.t, Empty)
  {
    assert RecordOk(w.s.x, w.mode, w.t, X) && RecordOk(w.s.y, w.mode, w.t, Y);
  }

  lemma CleanedRebuildIsSilent(w: World, physical: Bools4, target: TargetIdentity, env: Env)
    requires Ideal(w, target) && Seen(w.s, physical) && w.mode != OFF
    ensures RebuildState(w, physical, target, env) == w
  {
    TakenOverSame(w, physical, target);
    ShapeDesired(w.s.x, w.mode);
    ShapeDesired(w.s.y, w.mode);
    var w0 := WorkAll(w.s, w.t, Empty);
    SettleIdle(w0, false, 4);
    SettleIdle(w0, true, 4);
    CommitSame(w.s.x, w.mode, w.t, w.b, X);
    CommitSame(w.s.y, w.mode, w.t, w.b, Y);
  }

  // ---- Rebuild with the SOCD cleaner off ----

  lemma OffTrackedExact(w: World, r: AxisRecord, a: Axis, pos: bool, neg: bool, target: TargetIdentity, env: Env)
    requires w.mode == OFF && Calm(w.b, target) && IsExpectedTargetActive(env.nativeFocus, target)
    requires AxisOk(r, OFF, w.t, w.b, a) && AxisOwned(r, w.b, a, target) && FitsAxis(r, OFF, w.b, a, pos, neg)
    ensures var r' := TrackedRecord(w, Shown(r, pos, neg), a, false, target, env).(axisState := None);
            && ExactSide(Work(r', w.t, Empty), w.b, a, Pos, OFF, target)
            && ExactSide(Work(r', w.t, Empty), w.b, a, Neg, OFF, target)
            && r'.socdReleaseTimerId == 0 && (r'.Resolved() == None ==> Shape(r', OFF)) && SeenAxis(r', pos, neg)
  {
    Safety.ReachableSlot(w.b, KeyOf(a, Pos));
    Safety.ReachableSlot(w.b, KeyOf(a, Neg));
  }

  lemma OffResolveExact(w: Work, b: I.Boundary, a: Axis, target: TargetIdentity, env: Env)
    requires ExactSide(w, b, a, Pos, OFF, target) && ExactSide(w, b, a, Neg, OFF, target)
    requires w.r.socdReleaseTimerId == 0 && w.r.axisState == None && (w.r.Resolved() == None ==> Shape(w.r, OFF))
    ensures var w' := ResolveAxis(w, OFF, a, false, target, env);
            && ExactSide(w', b, a, Pos, OFF, target) && ExactSide(w', b, a, Neg, OFF, target)
            && Shape(w'.r, OFF) && w'.r.axisState == w'.r.Resolved() && Frame(w, w', b, OtherAxis(a))
            && w'.r.pos.phys == w.r.pos.phys && w'.r.neg.phys == w.r.neg.phys
            && (Shape(w.r, OFF) ==> w'.batch == w.batch)
  {
  }

  lemma OffFrame(w: Work, w': Work, r: AxisRecord, b: I.Boundary, o: Axis, target: TargetIdentity)
    requires Frame(w, w', b, o)
    requires ExactSide(w.(r := r), b, o, Pos, OFF, target) && ExactSide(w.(r := r), b, o, Neg, OFF, target)
    ensures ExactSide(w'.(r := r), b, o, Pos, OFF, target) && ExactSide(w'.(r := r), b, o, Neg, OFF, target)
  {
  }

  /** The two axes of a rebuild, one after the other. */
  lemma OffBothExact(w: WorkAll, b: I.Boundary, target: TargetIdentity, env: Env)
    requires w.batch == Empty && w.s.x.socdReleaseTimerId == 0 && w.s.y.socdReleaseTimerId == 0
    requires w.s.x.axisState == None && (w.s.x.Resolved() == None ==> Shape(w.s.x, OFF))
    requires w.s.y.axisState == None && (w.s.y.Resolved() == None ==> Shape(w.s.y, OFF))
    requires ExactSide(w.At(X), b, X, Pos, OFF, target) && ExactSide(w.At(X), b, X, Neg, OFF, target)
    requires ExactSide(w.At(Y), b, Y, Pos, OFF, target) && ExactSide(w.At(Y), b, Y, Neg, OFF, target)
    ensures var w1 := w.With(X, ResolveAxis(w.At(X), OFF, X, false, target, env));
            var w2 := w1.With(Y, ResolveAxis(w1.At(Y), OFF, Y, false, target, env));
            && ExactSide(w2.At(X), b, X, Pos, OFF, target) && ExactSide(w2.At(X), b, X, Neg, OFF, target)
            && ExactSide(w2.At(Y), b, Y, Pos, OFF, target) && ExactSide(w2.At(Y), b, Y, Neg, OFF, target)
            && Shape(w2.s.x, OFF) && w2.s.x.axisState == w2.s.x.Resolved()
            && Shape(w2.s.y, OFF) && w2.s.y.axisState == w2.s.y.Resolved()
            && SamePhys(w.s, w2.s)
            && (Shape(w.s.x, OFF) && Shape(w.s.y, OFF) ==> w2.batch == Empty)
  {
    OffResolveExact(w.At(X), b, X, target, env);
    var w1 := w.With(X, ResolveAxis(w.At(X), OFF, X, false, target, env));
    OffFrame(w.At(X), w1.At(X), w.s.y, b, Y, target);
    OffResolveExact(w1.At(Y), b, Y, target, env);
    var w2 := w1.With(Y, ResolveAxis(w1.At(Y), OFF, Y, false, target, env));
    OffFrame(w1.At(Y), w2.At(Y), w1.s.x, b, X, target);
  }

  /** The work of a rebuild with the cleaner off. */
  ghost predicate OffWork(wk: WorkAll, b: I.Boundary, target: TargetIdentity) {
    && ExactSide(wk.At(X), b, X, Pos, OFF, target) && ExactSide(wk.At(X), b, X, Neg, OFF, target)
    && ExactSide(wk.At(Y), b, Y, Pos, OFF, target) && ExactSide(wk.At(Y), b, Y, Neg, OFF, target)
    && Shape(wk.s.x, OFF) && wk.s.x.axisState == wk.s.x.Resolved()
    && Shape(wk.s.y, OFF) && wk.s.y.axisState == wk.s.y.Resolved()
  }

  lemma OffStartIs(w: World, physical: Bools4, target: TargetIdentity, env: Env)
    requires Rebuildable(w, target) && w.mode == OFF && Fits(w, physical) && ObligingEnv(env, target)
    ensures var w0 := OffStart(w, physical, target, env);
            && w0.s.x.socdReleaseTimerId == 0 && w0.s.y.socdReleaseTimerId == 0
            && (w0.s.x.Resolved() == None ==> Shape(w0.s.x, OFF))
            && (w0.s.y.Resolved() == None ==> Shape(w0.s.y, OFF))
            && ExactSide(w0.At(X), w.b, X, Pos, OFF, target) && ExactSide(w0.At(X), w.b, X, Neg, OFF, target)
            && ExactSide(w0.At(Y), w.b, Y, Pos, OFF, target) && ExactSide(w0.At(Y), w.b, Y, Neg, OFF, target)
            && SamePhys(Observe(w.s, physical), w0.s)
            && (Ideal(w, target) && Seen(w.s, physical) ==> Shape(w0.s.x, OFF) && Shape(w0.s.y, OFF))
  {
    hide ExactSide, Shape, FitsAxis, TrackedRecord, IdealAxis, AxisOwned, AxisOk, TrackNative, Shown, Obliges;
    TrackedAt(w, Observe(w.s, physical), target, env);
    OffTrackedExact(w, w.s.x, X, physical[D], physical[A], target, env);
    OffTrackedExact(w, w.s.y, Y, physical[W], physical[S], target, env);
    if Ideal(w, target) && Seen(w.s, physical) { OffStartShape(w, physical, target, env); }
  }

  lemma OffStartShape(w: World, physical: Bools4, target: TargetIdentity, env: Env)
    requires Ideal(w, target) && w.mode == OFF && Seen(w.s, physical) && ObligingEnv(env, target)
    ensures var w0 := OffStart(w, physical, target, env); Shape(w0.s.x, OFF) && Shape(w0.s.y, OFF)
  {
    hide Shape, TrackedRecord, IdealAxis, TrackNative;
    assert Observe(w.s, physical) == w.s;
    TrackedAt(w, w.s, target, env);
    ShapeStays(w, w.s.x, X, target, env);
    ShapeStays(w, w.s.y, Y, target, env);
  }

  lemma OffWorkIs(w: World, physical: Bools4, target: TargetIdentity, env: Env)
    requires Rebuildable(w, target) && w.mode == OFF && Fits(w, physical) && ObligingEnv(env, target)
    ensures var s0 := Observe(w.s, physical);
            var wk := ReconcileLogical(WorkAll(s0, w.t, Empty), OFF, w.b, target, env);
            && OffWork(wk, w.b, target) && SamePhys(s0, wk.s)
            && (Ideal(w, target) && Seen(w.s, physical) ==> wk.batch == Empty)
  {
    hide ExactSide, Shape, FitsAxis, ResolveAxis, IdealAxis, AxisOwned, Calm, TrackNative;
    OffStartIs(w, physical, target, env);
    OffBothExact(OffStart(w, physical, target, env), w.b, target, env);
  }

  lemma TrackedAt(w: World, s: State, target: TargetIdentity, env: Env)
    requires w.mode == OFF
    ensures var s' := TrackNative(s, w.b, target, env.nativeFocus);
            && s'.x == TrackedRecord(w, s.x, X, s.suspended, target, env)
            && s'.y == TrackedRecord(w, s.y, Y, s.suspended, target, env)
            && SamePhys(s, s')
  {
  }

  lemma OffRebuildIs(w: World, physical: Bools4, target: TargetIdentity, env: Env)
    requires Rebuildable(w, target) && Fits(w, physical) && w.mode == OFF && ObligingEnv(env, target)
    ensures var w' := RebuildState(w, physical, target, env);
            && Calm(w'.b, target) && Arbitrated(w', target) && SamePhys(Observe(w.s, physical), w'.s) && w'.mode == OFF
            && (Ideal(w, target) && Seen(w.s, physical) ==> w'.b == w.b)
  {
    OffWorkIs(w, physical, target, env);
    var wk := ReconcileLogical(WorkAll(Observe(w.s, physical), w.t, Empty), OFF, w.b, target, env);
    FlushCalm(w.b, wk.batch, target, env.sends);
    CommitExact(wk.At(X), w.b, Flush(w.b, wk.batch, target, env.sends), X, OFF, target);
    CommitExact(wk.At(Y), w.b, Flush(w.b, wk.batch, target, env.sends), Y, OFF, target);
  }

  lemma SameLogical(r: AxisRecord, r': AxisRecord, b: I.Boundary, a: Axis, mode: SocdMode, target: TargetIdentity)
    requires IdealAxis(r, b, a, mode, target) && IdealAxis(r', b, a, mode, target)
    requires r'.pos.phys == r.pos.phys && r'.neg.phys == r.neg.phys
    ensures r'.pos.logical == r.pos.logical && r'.neg.logical == r.neg.logical
  {
  }

  lemma ShapeStays(w: World, r: AxisRecord, a: Axis, target: TargetIdentity, env: Env)
    requires w.mode == OFF && IsExpectedTargetActive(env.nativeFocus, target) && IdealAxis(r, w.b, a, OFF, target)
    ensures Shape(TrackedRecord(w, r, a, false, target, env).(axisState := None), OFF)
  {
  }

  lemma RebuildIdeal(w: World, physical: Bools4, target: TargetIdentity, env: Env)
    requires Rebuildable(w, target) && Fits(w, physical) && ObligingEnv(env, target)
    ensures var w' := RebuildState(w, physical, target, env); Calm(w'.b, target) && Arbitrated(w', target)
  {
    if w.mode == OFF { OffRebuildIs(w, physical, target, env); } else { CleanedRebuildIs(w, physical, target, env); }
  }

  lemma SameLogicalAt(w: World, w': World, target: TargetIdentity, k: Key)
    requires Arbitrated(w, target) && Arbitrated(w', target) && SamePhys(w.s, w'.s) && w'.b == w.b && w'.mode == w.mode
    ensures w'.s.Key(k).logical == w.s.Key(k).logical && w'.s.Key(k).phys == w.s.Key(k).phys
  {
    SameLogical(w.s.x, w'.s.x, w.b, X, w.mode, target);
    SameLogical(w.s.y, w'.s.y, w.b, Y, w.mode, target);
  }

  /** Reconciling an arbitrated state again sends nothing and changes no logical key. */
  lemma RebuildIsSilent(w: World, physical: Bools4, target: TargetIdentity, env: Env, k: Key)
    requires Ideal(w, target) && Seen(w.s, physical) && ObligingEnv(env, target)
    ensures var w' := RebuildState(w, physical, target, env);
            w'.b == w.b && w'.s.Key(k).logical == w.s.Key(k).logical && w'.s.Key(k).phys == w.s.Key(k).phys
  {
    if w.mode == OFF {
      OffRebuildIs(w, physical, target, env);
      SameLogicalAt(w, RebuildState(w, physical, target, env), target, k);
    } else {
      CleanedRebuildIsSilent(w, physical, target, env);
    }
  }
}
