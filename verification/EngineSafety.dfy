/** Every disciplined step keeps the invariant, in every SOCD mode and whatever the outside world answers. */
module EngineSafety {
  import opened Keys
  import opened TargetPlatform
  import opened Engine
  import opened EngineInvariant
  import I = Injection
  import T = Timers
  import Safety = InjectionSafety

  // ---- Finishing a handler ----

  /** Records that agree on everything but what the native tracker recomputes. */
  ghost predicate SameExceptNative(r: AxisRecord, r': AxisRecord) {
    && r'.axisState == r.axisState && r'.socdLastKey == r.socdLastKey && r'.socdReleaseTimerId == r.socdReleaseTimerId
    && SameKeyExceptNative(r.pos, r'.pos) && SameKeyExceptNative(r.neg, r'.neg)
  }

  ghost predicate SameKeyExceptNative(k: KeyState, k': KeyState) {
    k'.phys == k.phys && k'.expectedTimerId == k.expectedTimerId
  }

  /** The logical keys are the native ones plus what injection holds. */
  ghost predicate Committed(r: AxisRecord, b: I.Boundary, a: Axis) {
    && r.pos.logical == (r.pos.nativeLogical || b.held[KeyOf(a, Pos)])
    && r.neg.logical == (r.neg.nativeLogical || b.held[KeyOf(a, Neg)])
  }

  lemma FinishKeeps(w: World, s: State, a: Axis, wk: Work, target: TargetIdentity, env: Env)
    requires Safety.Reachable(w.b) && AxisOk(w.s.At(OtherAxis(a)), w.mode, w.t, w.b, OtherAxis(a))
    requires Going(wk, w.b, a, w.t) && RecordOk(wk.r, w.mode, wk.t, a) && wk.r.axisState == wk.r.Resolved()
    requires SameExceptNative(w.s.At(OtherAxis(a)), s.At(OtherAxis(a))) && NativeOk(s.At(OtherAxis(a)), w.mode)
    requires Committed(s.At(OtherAxis(a)), w.b, OtherAxis(a))
    ensures Inv(FinishAxis(w, s, a, wk, target, env))
  {
    hide Flush, Asked, Touches, KeyReady, T.Live;
    var o := OtherAxis(a);
    FlushReachable(w.b, wk.batch, target, env.sends);
    GoingReady(wk, w.b, a, w.t);
    FinishAxisOk(wk.r, w.mode, wk.t, wk.batch, w.b, target, env.sends, a);
    UntouchedReady(w.s.At(o), s.At(o), w.t, wk.t, wk.batch, w.b, o);
    OtherRecordOk(w, s.At(o), wk.t, o);
    FinishAxisOk(s.At(o), w.mode, wk.t, wk.batch, w.b, target, env.sends, o);
  }

  lemma GoingReady(w: Work, b: I.Boundary, a: Axis, t: T.Timers)
    requires Going(w, b, a, t) && w.r.axisState == w.r.Resolved()
    ensures KeyReady(w.r, w.t, w.batch, b, a, Pos) && KeyReady(w.r, w.t, w.batch, b, a, Neg)
  {
  }

  lemma OtherRecordOk(w: World, r: AxisRecord, t: T.Timers, o: Axis)
    requires AxisOk(w.s.At(o), w.mode, w.t, w.b, o) && SameTimers(w.t, t, o)
    requires SameExceptNative(w.s.At(o), r) && NativeOk(r, w.mode) && Committed(r, w.b, o)
    ensures RecordOk(r, w.mode, t, o)
  {
  }

  /** A key whose logical state is what reached the game, when its handler starts to emit. */
  ghost predicate Basic(r: AxisRecord, t: T.Timers, b: I.Boundary, a: Axis, side: Side) {
    var s, k := r.Key(side), KeyOf(a, side);
    s.logical == (s.nativeLogical || b.held[k]) && (s.nativeLogical ==> s.phys) && TimerLive(s, t, k)
  }

  ghost predicate Ready(r: AxisRecord, t: T.Timers, b: I.Boundary, a: Axis, side: Side) {
    var s, k := r.Key(side), KeyOf(a, side);
    Basic(r, t, b, a, side) && (b.held[k] && !s.phys ==> b.pending[k] || s.expectedTimerId != 0)
  }

  lemma StartGoing(r: AxisRecord, t: T.Timers, t': T.Timers, b: I.Boundary, a: Axis, side: Side)
    requires Basic(r, t', b, a, side) && Ready(r, t', b, a, Flip(side))
    requires SameTimers(t, t', OtherAxis(a)) && TimersOk(t')
    ensures GoingExcept(Work(r, t', Empty), b, a, t, side)
    ensures Ready(r, t', b, a, side) ==> Going(Work(r, t', Empty), b, a, t)
  {
  }

  /** What the native tracker makes of the record of one axis. */
  function TrackedRecord(w: World, r: AxisRecord, a: Axis, suspended: bool, target: TargetIdentity,
        env: Env): AxisRecord {
    if w.mode != OFF then r
    else CommitAxis(TrackAxis(r, !suspended && IsExpectedTargetActive(env.nativeFocus, target)), w.b, a)
  }

  lemma TrackIfOffAt(w: World, s: State, a: Axis, target: TargetIdentity, env: Env)
    ensures TrackIfOff(w, s, target, env).At(a) == TrackedRecord(w, s.At(a), a, s.suspended, target, env)
    ensures TrackIfOff(w, s, target, env).suspended == s.suspended
  {
  }

  lemma TrackedRecordOk(w: World, r: AxisRecord, a: Axis, suspended: bool, target: TargetIdentity, env: Env,
        t: T.Timers, side: Side)
    requires w.mode != OFF ==> NativeOk(r, w.mode)
    ensures var r' := TrackedRecord(w, r, a, suspended, target, env);
            && SameExceptNative(r, r') && NativeOk(r', w.mode)
            && (TimerLive(r.Key(side), t, KeyOf(a, side)) && (w.mode != OFF ==> Basic(r, t, w.b, a, side)) ==>
                  Basic(r', t, w.b, a, side))
  {
  }

  /** The native tracker leaves the axis of an edge in order and the other one as it was. */
  lemma TrackedEdge(w: World, a: Axis, wk: Work, s: State, side: Side, target: TargetIdentity, env: Env)
    requires s == TrackIfOff(w, w.s.With(a, wk.r), target, env)
    requires NativeOk(w.s.At(OtherAxis(a)), w.mode) && (w.mode != OFF ==> NativeOk(wk.r, w.mode))
    requires Committed(w.s.At(OtherAxis(a)), w.b, OtherAxis(a))
    requires TimerLive(wk.r.Key(side), wk.t, KeyOf(a, side)) && (w.mode != OFF ==> Basic(wk.r, wk.t, w.b, a, side))
    requires Ready(wk.r, wk.t, w.b, a, Flip(side))
    requires wk.batch == Empty && SameTimers(w.t, wk.t, OtherAxis(a)) && TimersOk(wk.t)
    ensures GoingExcept(wk.(r := s.At(a)), w.b, a, w.t, side)
    ensures Ready(wk.r, wk.t, w.b, a, side) ==> Going(wk.(r := s.At(a)), w.b, a, w.t)
    ensures NativeOk(s.At(a), w.mode) && SameExceptNative(wk.r, s.At(a))
    ensures SameExceptNative(w.s.At(OtherAxis(a)), s.At(OtherAxis(a))) && NativeOk(s.At(OtherAxis(a)), w.mode)
    ensures Committed(s.At(OtherAxis(a)), w.b, OtherAxis(a)) && (w.mode != OFF ==> s.At(a) == wk.r)
    ensures s.suspended == w.s.suspended
  {
    var o := OtherAxis(a);
    assert s.At(a) == TrackedRecord(w, wk.r, a, w.s.suspended, target, env) by {
      TrackIfOffAt(w, w.s.With(a, wk.r), a, target, env);
    }
    assert s.At(o) == TrackedRecord(w, w.s.At(o), o, w.s.suspended, target, env) by {
      TrackIfOffAt(w, w.s.With(a, wk.r), o, target, env);
    }
    TrackedRecordOk(w, wk.r, a, w.s.suspended, target, env, wk.t, side);
    TrackedRecordOk(w, wk.r, a, w.s.suspended, target, env, wk.t, Flip(side));
    TrackedRecordOk(w, w.s.At(o), o, w.s.suspended, target, env, wk.t, side);
    StartGoing(s.At(a), w.t, wk.t, w.b, a, side);
  }

  // ---- Presses ----

  lemma PressReady(r: AxisRecord, mode: SocdMode, t: T.Timers, b: I.Boundary, a: Axis, side: Side)
    requires AxisOk(r, mode, t, b, a) && TimersOk(t) && !r.Key(side).phys
    ensures var w := TrackPress(r, t, a, side);
            && Ready(w.r, w.t, b, a, side) && Ready(w.r, w.t, b, a, Flip(side))
            && w.batch == Empty && SameTimers(t, w.t, OtherAxis(a)) && TimersOk(w.t)
            && NativeOk(w.r, mode) && w.r.socdReleaseTimerId == 0
            && w.r.axisState == r.axisState && w.r.axisState != w.r.Resolved() && w.r.axisState != Conflict
            && w.r.Key(side).phys
  {
  }

  lemma RoutePressKeeps(w: Work, mode: SocdMode, a: Axis, side: Side, target: TargetIdentity, env: Env, b: I.Boundary,
        t: T.Timers)
    requires Going(w, b, a, t) && NativeOk(w.r, mode) && w.r.socdReleaseTimerId == 0 && w.r.Key(side).phys
    requires w.r.axisState != w.r.Resolved() && w.r.axisState != Conflict
    ensures var w' := RoutePress(w, mode, a, side, target, env);
            && Going(w', b, a, t) && RecordOk(w'.r, mode, w'.t, a) && w'.r.axisState == w'.r.Resolved()
            && WinnerFree(w'.r)
  {
    ResolveKeeps(w, mode, a, true, target, env, b, t);
    HoldKeeps(ResolveAxis(w, mode, a, true, target, env), mode, a, side, b, t);
  }

  /** A handler's work on one axis is in order, and the rest of the state is as the tracker leaves it. */
  ghost predicate InOrder(w: World, s: State, a: Axis, wk: Work) {
    && Going(wk, w.b, a, w.t) && RecordOk(wk.r, w.mode, wk.t, a) && wk.r.axisState == wk.r.Resolved()
    && SameExceptNative(w.s.At(OtherAxis(a)), s.At(OtherAxis(a))) && NativeOk(s.At(OtherAxis(a)), w.mode)
    && Committed(s.At(OtherAxis(a)), w.b, OtherAxis(a))
  }

  /** The state and the work of a routed press of a key that was up. */
  function PressState(w: World, k: Key, target: TargetIdentity, env: Env): State {
    TrackIfOff(w, w.s.With(KeyAxis(k), TrackPress(w.s.At(KeyAxis(k)), w.t, KeyAxis(k), SideOf(k)).r), target, env)
  }

  function PressWork(w: World, k: Key, target: TargetIdentity, env: Env): Work {
    var a, side := KeyAxis(k), SideOf(k);
    RoutePress(TrackPress(w.s.At(a), w.t, a, side).(r := PressState(w, k, target, env).At(a)), w.mode, a, side,
        target, env)
  }

  lemma PressInOrder(w: World, k: Key, target: TargetIdentity, env: Env)
    requires Inv(w) && !w.s.Key(k).phys
    ensures InOrder(w, PressState(w, k, target, env), KeyAxis(k), PressWork(w, k, target, env))
    ensures WinnerFree(PressWork(w, k, target, env).r)
    ensures HandleKeyDown(w, k, true, target, env) ==
            FinishAxis(w, PressState(w, k, target, env), KeyAxis(k), PressWork(w, k, target, env), target, env)
  {
    var a, side := KeyAxis(k), SideOf(k);
    var tracked := TrackPress(w.s.At(a), w.t, a, side);
    PressReady(w.s.At(a), w.mode, w.t, w.b, a, side);
    var s := PressState(w, k, target, env);
    TrackedEdge(w, a, tracked, s, side, target, env);
    RoutePressKeeps(tracked.(r := s.At(a)), w.mode, a, side, target, env, w.b, w.t);
  }

  lemma RoutedPressKeeps(w: World, k: Key, target: TargetIdentity, env: Env)
    requires Inv(w)
    ensures Inv(HandleKeyDown(w, k, true, target, env))
  {
    if !w.s.Key(k).phys {
      PressInOrder(w, k, target, env);
      FinishKeeps(w, PressState(w, k, target, env), KeyAxis(k), PressWork(w, k, target, env), target, env);
    }
  }

  // ---- Releases ----

  lemma ReleaseReady(r: AxisRecord, mode: SocdMode, t: T.Timers, b: I.Boundary, a: Axis, side: Side)
    requires AxisOk(r, mode, t, b, a) && TimersOk(t) && r.Key(side).phys
    ensures var w := TrackRelease(r, t, a, side);
            && TimerLive(w.r.Key(side), w.t, KeyOf(a, side)) && (mode != OFF ==> Basic(w.r, w.t, b, a, side))
            && Ready(w.r, w.t, b, a, Flip(side))
            && w.batch == Empty && SameTimers(t, w.t, OtherAxis(a)) && TimersOk(w.t)
            && (mode != OFF ==> NativeOk(w.r, mode)) && w.r.socdReleaseTimerId == 0
            && w.r.axisState == r.axisState && !w.r.Key(side).phys && w.r.Key(Flip(side)).phys == r.Key(Flip(side)).phys
            && (w.r.Key(Flip(side)).phys && w.r.axisState != None ==>
                 w.r.axisState == Conflict && Unarmed(w.r, mode, w.t, a, side))
            && (!w.r.Key(Flip(side)).phys ==> w.r.axisState != Conflict && Unarmed(w.r, mode, w.t, a, Flip(side)))
  {
    if r.socdReleaseTimerId == 0 {
      assert TrackRelease(r, t, a, side) == Work(SetPhys(r, side, false), t, Empty);
    }
  }

  lemma ReleaseKeeps(w: Work, a: Axis, side: Side, b: I.Boundary, t: T.Timers)
    requires GoingExcept(w, b, a, t, side) && !BrakePending(w.r, side)
    ensures Going(Release(w, a, side), b, a, t)
  {
  }

  /** The two timers of a brake, before its edges are emitted. */
  function BrakeTimers(w: Work, t: T.Timers, rel: Side, overlapId: nat, counterId: nat, target: TargetIdentity): Work {
    var w1 := w.(t := t);
    SetTimerFor(if overlapId == 0 then SetTimer(w1, rel, 0) else SetTimerFor(w1, rel, overlapId, target),
                Flip(rel), counterId, target)
  }

  lemma BrakeTimersKeep(w: Work, t': T.Timers, a: Axis, rel: Side, overlapId: nat, counterId: nat,
                        target: TargetIdentity, b: I.Boundary, t: T.Timers, side: Side)
    requires GoingExcept(w, b, a, t, side) && w.batch == Empty && counterId != 0 && StaysOn(t, w.(t := t'), a)
    requires T.Live(t', KeyOf(a, Flip(rel)), counterId)
    requires overlapId != 0 ==> w.r.Key(rel).logical && T.Live(t', KeyOf(a, rel), overlapId)
    ensures var w' := BrakeTimers(w, t', rel, overlapId, counterId, target);
            && GoingExcept(w', b, a, t, rel) && (overlapId != 0 ==> Going(w', b, a, t)) && SamePlan(w.r, w'.r)
  {
    assert !Touches(w.batch, KeyOf(a, rel)) && !Touches(w.batch, KeyOf(a, Flip(rel)));
    hide Asked, Touches, T.Live;
  }

  lemma ArmBrakeKeeps(w: Work, t': T.Timers, a: Axis, rel: Side, overlapId: nat, counterId: nat, target: TargetIdentity,
                      b: I.Boundary, t: T.Timers, side: Side)
    requires GoingExcept(w, b, a, t, side) && w.batch == Empty && counterId != 0 && StaysOn(t, w.(t := t'), a)
    requires T.Live(t', KeyOf(a, Flip(rel)), counterId)
    requires overlapId != 0 ==> w.r.Key(rel).logical && T.Live(t', KeyOf(a, rel), overlapId)
    ensures var w' := ArmBrake(w.(t := t'), a, rel, overlapId, counterId, target);
            Going(w', b, a, t) && SamePlan(w.r, w'.r)
  {
    hide Asked, Touches, T.Live, Going, GoingExcept, StaysOn;
    var w1 := BrakeTimers(w, t', rel, overlapId, counterId, target);
    BrakeTimersKeep(w, t', a, rel, overlapId, counterId, target, b, t, side);
    var w2 := if overlapId == 0 then Release(w1, a, rel) else w1;
    if overlapId == 0 { ReleaseKeeps(w1, a, rel, b, t); }
    EmitKeeps(w2, a, Flip(rel), true, b, t);
    assert ArmBrake(w.(t := t'), a, rel, overlapId, counterId, target) == Press(w2, a, Flip(rel));
  }

  lemma AdmitBrakeOk(w: Work, a: Axis, rel: Side, env: Env, t: T.Timers)
    requires StaysOn(t, w, a) && TimerLive(w.r.pos, w.t, KeyOf(a, Pos)) && TimerLive(w.r.neg, w.t, KeyOf(a, Neg))
    requires BrakePending(w.r, rel) ==> T.OnItsWay(w.t, KeyOf(a, rel), w.r.Key(rel).expectedTimerId)
    ensures var admission := AdmitBrake(w, a, rel, env);
            && StaysOn(t, w.(t := admission.t), a)
            && (admission.Refused? ==>
                  TimerLive(w.r.pos, admission.t, KeyOf(a, Pos)) && TimerLive(w.r.neg, admission.t, KeyOf(a, Neg)))
            && (admission.Admitted? ==>
                  && admission.counterId != 0 && T.Live(admission.t, KeyOf(a, Flip(rel)), admission.counterId)
                  && (admission.overlapId != 0 ==>
                        w.r.Key(rel).logical && T.Live(admission.t, KeyOf(a, rel), admission.overlapId)))
  {
  }

  /** A refused brake leaves at most the timer slots of the axis changed. */
  lemma RefusedKeeps(w: Work, t': T.Timers, a: Axis, b: I.Boundary, t: T.Timers, side: Side)
    requires GoingExcept(w, b, a, t, side) && StaysOn(t, w.(t := t'), a)
    requires TimerLive(w.r.pos, t', KeyOf(a, Pos)) && TimerLive(w.r.neg, t', KeyOf(a, Neg))
    ensures GoingExcept(w.(t := t'), b, a, t, side)
  {
  }

  lemma StrafeKeeps(w: Work, a: Axis, side: Side, suspended: bool, target: TargetIdentity, env: Env, b: I.Boundary,
        t: T.Timers)
    requires GoingExcept(w, b, a, t, side) && w.batch == Empty && !BrakePending(w.r, side)
    requires !w.r.Key(Flip(side)).phys && BrakePending(w.r, Flip(side)) ==>
               T.OnItsWay(w.t, KeyOf(a, Flip(side)), w.r.Key(Flip(side)).expectedTimerId)
    ensures var (strafed, w') := AutoCounterStrafe(w, a, side, suspended, target, env);
            && SamePlan(w.r, w'.r) && (strafed ==> Going(w', b, a, t))
            && (!strafed ==> w'.r == w.r && GoingExcept(w', b, a, t, side))
  {
    hide AdmitBrake, ArmBrake, Asked, Touches, T.Live, T.OnItsWay;
    var rel := if env.reversed then Flip(side) else side;
    if !w.r.pos.phys && !w.r.neg.phys {
      assert TimerLive(w.r.pos, w.t, KeyOf(a, Pos)) && TimerLive(w.r.neg, w.t, KeyOf(a, Neg)) by {
        assert side == Pos || side == Neg;
      }
      AdmitBrakeOk(w, a, rel, env, t);
      var admission := AdmitBrake(w, a, rel, env);
      match admission
      case Admitted(t', overlapId, counterId) =>
        ArmBrakeKeeps(w, t', a, rel, overlapId, counterId, target, b, t, side);
      case Refused(t') =>
        RefusedKeeps(w, t', a, b, t, side);
    }
  }

  lemma RouteReleaseKeeps(w: Work, mode: SocdMode, a: Axis, side: Side, suspended: bool, target: TargetIdentity,
        env: Env, b: I.Boundary, t: T.Timers)
    requires GoingExcept(w, b, a, t, side) && w.batch == Empty && NativeOk(w.r, mode)
    requires w.r.socdReleaseTimerId == 0 && !w.r.Key(side).phys
    requires w.r.Key(Flip(side)).phys ==>
             w.r.axisState == None || (w.r.axisState == Conflict && Unarmed(w.r, mode, w.t, a, side))
    requires !w.r.Key(Flip(side)).phys ==> w.r.axisState != Conflict && Unarmed(w.r, mode, w.t, a, Flip(side))
    ensures var w' := RouteRelease(w, mode, a, side, suspended, target, env);
            Going(w', b, a, t) && RecordOk(w'.r, mode, w'.t, a) && w'.r.axisState == w'.r.Resolved()
  {
    hide AutoCounterStrafe, ResolveAxis, Asked, Touches, T.Live, T.OnItsWay;
    var pending := BrakePending(w.r, side);
    var (strafed, w1) :=
      if !pending && !w.r.Key(Flip(side)).phys then AutoCounterStrafe(w, a, side, suspended, target, env)
                         else (pending, w);
    if !pending { StrafeKeeps(w, a, side, suspended, target, env, b, t); }
    var w2 := if strafed then w1 else Release(w1, a, side);
    if !strafed { ReleaseKeeps(w1, a, side, b, t); }
    assert Going(w2, b, a, t);
    assert w.r.Key(Flip(side)).phys && w.r.axisState == Conflict ==>
             Unarmed(w2.r, mode, w2.t, a, side);
    ResolveKeeps(w2, mode, a, false, target, env, b, t);
  }

  function ReleaseState(w: World, k: Key, target: TargetIdentity, env: Env): State {
    TrackIfOff(w, w.s.With(KeyAxis(k), TrackRelease(w.s.At(KeyAxis(k)), w.t, KeyAxis(k), SideOf(k)).r), target, env)
  }

  function ReleaseWork(w: World, k: Key, target: TargetIdentity, env: Env): Work {
    var a, side, s := KeyAxis(k), SideOf(k), ReleaseState(w, k, target, env);
    RouteRelease(TrackRelease(w.s.At(a), w.t, a, side).(r := s.At(a)), w.mode, a, side, s.suspended, target, env)
  }

  lemma ReleaseInOrder(w: World, k: Key, target: TargetIdentity, env: Env)
    requires Inv(w) && w.s.Key(k).phys
    ensures InOrder(w, ReleaseState(w, k, target, env), KeyAxis(k), ReleaseWork(w, k, target, env))
    ensures HandleKeyUp(w, k, true, target, env) ==
            FinishAxis(w, ReleaseState(w, k, target, env), KeyAxis(k), ReleaseWork(w, k, target, env), target, env)
  {
    var a, side := KeyAxis(k), SideOf(k);
    var tracked := TrackRelease(w.s.At(a), w.t, a, side);
    ReleaseReady(w.s.At(a), w.mode, w.t, w.b, a, side);
    var s := ReleaseState(w, k, target, env);
    TrackedEdge(w, a, tracked, s, side, target, env);
    RouteReleaseKeeps(tracked.(r := s.At(a)), w.mode, a, side, s.suspended, target, env, w.b, w.t);
  }

  lemma RoutedReleaseKeeps(w: World, k: Key, target: TargetIdentity, env: Env)
    requires Inv(w) && w.s.Key(k).phys
    ensures Inv(HandleKeyUp(w, k, true, target, env))
  {
    ReleaseInOrder(w, k, target, env);
    FinishKeeps(w, ReleaseState(w, k, target, env), KeyAxis(k), ReleaseWork(w, k, target, env), target, env);
  }

  /** A routed release of a key that is already up only resolves the axis. */
  lemma SpuriousInOrder(w: World, k: Key, target: TargetIdentity, env: Env)
    requires Inv(w)
    ensures InOrder(w, w.s, KeyAxis(k),
            ResolveAxis(Work(w.s.At(KeyAxis(k)), w.t, Empty), w.mode, KeyAxis(k), false, target, env))
  {
    var a := KeyAxis(k);
    assert AxisOk(w.s.At(OtherAxis(a)), w.mode, w.t, w.b, OtherAxis(a));
    SpuriousGoing(w.s.At(a), w.mode, w.t, w.b, a, target, env);
  }

  lemma SpuriousGoing(r: AxisRecord, mode: SocdMode, t: T.Timers, b: I.Boundary, a: Axis, target: TargetIdentity,
        env: Env)
    requires AxisOk(r, mode, t, b, a) && TimersOk(t)
    ensures var w' := ResolveAxis(Work(r, t, Empty), mode, a, false, target, env);
            Going(w', b, a, t) && RecordOk(w'.r, mode, w'.t, a) && w'.r.axisState == w'.r.Resolved()
  {
    StartGoing(r, t, t, b, a, Pos);
    if r.axisState != r.Resolved() { ResolveKeeps(Work(r, t, Empty), mode, a, false, target, env, b, t); }
  }

  lemma SpuriousReleaseKeeps(w: World, k: Key, target: TargetIdentity, env: Env)
    requires Inv(w) && !w.s.Key(k).phys
    ensures Inv(HandleKeyUp(w, k, true, target, env))
  {
    SpuriousInOrder(w, k, target, env);
    FinishKeeps(w, w.s, KeyAxis(k),
        ResolveAxis(Work(w.s.At(KeyAxis(k)), w.t, Empty), w.mode, KeyAxis(k), false, target, env), target, env);
  }
}
