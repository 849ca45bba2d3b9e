/** Which keys the engine believes physically down: only edges and rebuilds change that. */
module EnginePhysical {
  import opened Keys
  import opened TargetPlatform
  import opened Engine
  import opened EngineReconcile
  import I = Injection
  import T = Timers

  function PhysOf(s: State): Bools4 {
    [s.y.pos.phys, s.y.neg.phys, s.x.neg.phys, s.x.pos.phys]
  }

  ghost predicate SamePair(r: AxisRecord, r': AxisRecord) {
    r'.pos.phys == r.pos.phys && r'.neg.phys == r.neg.phys
  }

  lemma ConflictPair(w: Work, mode: SocdMode, a: Axis, onPress: bool, target: TargetIdentity, env: Env)
    ensures SamePair(w.r, EnterConflict(w, mode, a, onPress, target, env).r)
  {
    assert SamePair(w.r, EnterOverlap(w, mode, a, onPress, target, env).r);
  }

  lemma CancelPair(w: Work, a: Axis)
    ensures SamePair(w.r, CancelSocdTransition(w, a).r)
  {
  }

  lemma ResolvePair(w: Work, mode: SocdMode, a: Axis, onPress: bool, target: TargetIdentity, env: Env)
    ensures SamePair(w.r, ResolveAxis(w, mode, a, onPress, target, env).r)
  {
    hide EnterConflict, CancelSocdTransition;
    CancelPair(w, a);
    ConflictPair(TurnAxis(w, a, w.r.Resolved()), mode, a, onPress, target, env);
  }

  lemma RoutePressPair(w: Work, mode: SocdMode, a: Axis, side: Side, target: TargetIdentity, env: Env)
    ensures SamePair(w.r, RoutePress(w, mode, a, side, target, env).r)
  {
    hide ResolveAxis;
    ResolvePair(w, mode, a, true, target, env);
  }

  lemma StrafePair(w: Work, a: Axis, side: Side, suspended: bool, target: TargetIdentity, env: Env)
    ensures SamePair(w.r, AutoCounterStrafe(w, a, side, suspended, target, env).1.r)
  {
    hide AdmitBrake;
  }

  lemma RouteReleasePair(w: Work, mode: SocdMode, a: Axis, side: Side, suspended: bool, target: TargetIdentity,
        env: Env)
    ensures SamePair(w.r, RouteRelease(w, mode, a, side, suspended, target, env).r)
  {
    hide ResolveAxis, AutoCounterStrafe;
    StrafePair(w, a, side, suspended, target, env);
    var (strafed, w1) :=
      if !BrakePending(w.r, side) && !w.r.Key(Flip(side)).phys
      then AutoCounterStrafe(w, a, side, suspended, target, env)
                         else (BrakePending(w.r, side), w);
    ResolvePair(if strafed then w1 else Release(w1, a, side), mode, a, false, target, env);
  }

  lemma ExpirePair(w: Work, mode: SocdMode, a: Axis, side: Side, suspended: bool)
    ensures SamePair(w.r, ExpireTimer(w, mode, a, side, suspended).r)
  {
    assert SamePair(w.r, SetTimerFor(w, side, 0, NO_TARGET).r);
  }

  // ---- Handlers ----

  lemma TrackedPhys(w: World, s: State, target: TargetIdentity, env: Env)
    ensures SamePhys(s, TrackIfOff(w, s, target, env))
  {
  }

  lemma FinishPhys(w: World, s: State, a: Axis, wk: Work, target: TargetIdentity, env: Env)
    requires SamePair(s.At(a), wk.r)
    ensures SamePhys(s, FinishAxis(w, s, a, wk, target, env).s)
  {
    hide Flush;
  }

  lemma DownPhys(w: World, k: Key, routed: bool, target: TargetIdentity, env: Env)
    ensures PhysOf(HandleKeyDown(w, k, routed, target, env).s) == PhysOf(w.s)[k := true]
  {
    hide RoutePress, FinishAxis, TrackIfOff;
    var a, side := KeyAxis(k), SideOf(k);
    if !w.s.Key(k).phys {
      var tracked := TrackPress(w.s.At(a), w.t, a, side);
      var s := TrackIfOff(w, w.s.With(a, tracked.r), target, env);
      TrackedPhys(w, w.s.With(a, tracked.r), target, env);
      var wk := tracked.(r := s.At(a));
      RoutePressPair(wk, w.mode, a, side, target, env);
      FinishPhys(w, s, a, RoutePress(wk, w.mode, a, side, target, env), target, env);
    }
  }

  lemma UpPhys(w: World, k: Key, routed: bool, target: TargetIdentity, env: Env)
    ensures PhysOf(HandleKeyUp(w, k, routed, target, env).s) == PhysOf(w.s)[k := false]
  {
    hide RouteRelease, FinishAxis, TrackIfOff, ResolveAxis, CancelSocdTransition;
    var a, side := KeyAxis(k), SideOf(k);
    if w.s.Key(k).phys {
      CancelPair(Work(w.s.At(a), w.t, Empty), a);
      var tracked := TrackRelease(w.s.At(a), w.t, a, side);
      var s := TrackIfOff(w, w.s.With(a, tracked.r), target, env);
      TrackedPhys(w, w.s.With(a, tracked.r), target, env);
      var wk := tracked.(r := s.At(a));
      RouteReleasePair(wk, w.mode, a, side, s.suspended, target, env);
      FinishPhys(w, s, a, if routed then RouteRelease(wk, w.mode, a, side, s.suspended, target, env)
          else wk, target, env);
    } else {
      var wk := Work(w.s.At(a), w.t, Empty);
      ResolvePair(wk, w.mode, a, false, target, env);
      FinishPhys(w, w.s, a, if routed then ResolveAxis(wk, w.mode, a, false, target, env) else wk, target, env);
    }
  }

  lemma ExpiryPhys(w: World, env: Env)
    ensures SamePhys(w.s, DrainExpired(w, env).s)
  {
    hide ExpireTimer, FinishAxis;
    if w.t.queue != [] && w.t.queue[0].key < 4 {
      var k, w1 := w.t.queue[0].key, w.(t := T.Pop(w.t));
      var a, wk := KeyAxis(k), Work(w.s.At(KeyAxis(k)), w1.t, Empty);
      ExpirePair(wk, w.mode, a, SideOf(k), w.s.suspended);
      FinishPhys(w1, w.s, a, ExpireTimer(wk, w.mode, a, SideOf(k), w.s.suspended), w.s.Key(k).expectedTimerTarget, env);
    }
  }

  lemma {:induction false} SettlePhys(w: WorkAll, s: State, down: bool, n: nat)
    requires n <= 4
    ensures SamePhys(w.s, SettleKeys(w, s, down, n).s)
  {
    hide Desired;
    if n > 0 { SettlePhys(w, s, down, n - 1); }
  }

  lemma {:induction false} ReleaseKeysPhys(w: WorkAll, n: nat)
    requires n <= 4
    ensures SamePhys(w.s, ReleaseKeys(w, n).s)
  {
    if n > 0 { ReleaseKeysPhys(w, n - 1); }
  }

  lemma ReconcilePhys(w: WorkAll, mode: SocdMode, b: I.Boundary, target: TargetIdentity, env: Env)
    ensures SamePhys(w.s, ReconcileLogical(w, mode, b, target, env).s)
  {
    hide ResolveAxis, CancelSocdTransition, SettleKeys;
    if mode == OFF {
      var s := TrackNative(w.s, b, target, env.nativeFocus);
      var w0 := w.(s := s.(x := s.x.(axisState := None), y := s.y.(axisState := None)));
      ResolvePair(w0.At(X), OFF, X, false, target, env);
      ResolvePair(w0.With(X, ResolveAxis(w0.At(X), OFF, X, false, target, env)).At(Y), OFF, Y, false, target, env);
    } else {
      CancelPair(w.At(X), X);
      var w1 := w.With(X, ReconcileAxis(w.At(X), X));
      CancelPair(w1.At(Y), Y);
      var w2 := w1.With(Y, ReconcileAxis(w1.At(Y), Y));
      SettlePhys(w2, w2.s, false, 4);
      SettlePhys(SettleKeys(w2, w2.s, false, 4), w2.s, true, 4);
    }
  }

  lemma RebuildPhys(w: World, physical: Bools4, target: TargetIdentity, env: Env)
    ensures PhysOf(RebuildState(w, physical, target, env).s) == physical
  {
    hide ReconcileLogical, Flush;
    ReconcilePhys(WorkAll(Observe(w.s, physical), w.t, Empty), w.mode, w.b, target, env);
  }

  lemma ClearPhys(w: World, target: TargetIdentity, env: Env)
    ensures SamePhys(w.s, ClearHeldKeys(w, target, env).s)
  {
    hide CancelSocdTransition, ReleaseKeys, Flush;
    var w1 := CancelSocdTransition(Work(w.s.x, w.t, Empty), X);
    CancelPair(Work(w.s.x, w.t, Empty), X);
    var w2 := CancelSocdTransition(Work(w.s.y, w1.t, w1.batch), Y);
    CancelPair(Work(w.s.y, w1.t, w1.batch), Y);
    ReleaseKeysPhys(WorkAll(w.s.(x := Idled(w1.r), y := Idled(w2.r)), w2.t, w2.batch), 4);
  }

  /** What a step makes of the physical keys. */
  function PhysAfter(phys: Bools4, step: Step): Bools4 {
    match step
    case KeyDown(k, _) => phys[k := true]
    case KeyUp(k, _) => phys[k := false]
    case Rebuild(physical) => physical
    case _ => phys
  }

  lemma StepPhys(w: World, action: Action)
    ensures PhysOf(Apply(w, action).s) == PhysAfter(PhysOf(w.s), action.step)
  {
    hide HandleKeyDown, HandleKeyUp, DrainExpired, RebuildState, ClearHeldKeys;
    var Action(step, target, env) := action;
    match step
    case KeyDown(k, routed) => DownPhys(w, k, routed, target, env);
    case KeyUp(k, routed) => UpPhys(w, k, routed, target, env);
    case Expire => ExpiryPhys(w, env);
    case Rebuild(physical) => RebuildPhys(w, physical, target, env);
    case Clear => ClearPhys(w, target, env);
    case Suspend => ClearPhys(w.(s := w.s.(suspended := !w.s.suspended)), target, env);
    case SetMode(_, _) => ClearPhys(w, target, env);
    case _ =>
  }
}
