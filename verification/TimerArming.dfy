/** Which steps arm a timer, for which key and until when, and that hardly any step leaves one armed that nothing
    awaits. */
module TimerArming {
  import opened Keys
  import opened TargetPlatform
  import opened Engine
  import opened EngineInvariant
  import opened EngineSafety
  import opened EngineRuns
  import opened StaleTimers
  import G = EngineProgress
  import I = Injection
  import P = EnginePhysical
  import T = Timers

  /** The key awaits a fresh timer that is armed in its slot until `expireUs`. */
  ghost predicate Armed(k: KeyState, t: T.Timers, key: Key, first: nat, expireUs: int) {
    k.expectedTimerId >= first && t.slots[key] == T.TimerSlot(true, expireUs, k.expectedTimerId, key)
  }

  // ---- A press ----

  /** A routed press disarms whatever ended with it, and arms at most the overlap of the opposite key. */
  ghost predicate PressArms(r: AxisRecord, t: T.Timers, w: Work, mode: SocdMode, a: Axis, side: Side, env: Env) {
    && SameTimers(t, w.t, OtherAxis(a)) && ForgotKey(r.Key(side), t, w.r.Key(side), w.t, KeyOf(a, side))
    && (ForgotKey(r.Key(Flip(side)), t, w.r.Key(Flip(side)), w.t, KeyOf(a, Flip(side)))
        || (mode == HUMANIZED && w.r.pos.phys && w.r.neg.phys
            && Armed(w.r.Key(Flip(side)), w.t, KeyOf(a, Flip(side)), t.nextId, env.now + 8000)))
  }

  lemma ForgotArms(r: AxisRecord, t: T.Timers, w: Work, mode: SocdMode, a: Axis, side: Side, env: Env)
    requires Forgot(r, t, w.r, w.t, a) && SameTimers(t, w.t, OtherAxis(a))
    ensures PressArms(r, t, w, mode, a, side, env)
  {
  }

  lemma WatchArms(r: AxisRecord, t: T.Timers, w: Work, w': Work, mode: SocdMode, a: Axis, side: Side, env: Env)
    requires PressArms(r, t, w, mode, a, side, env) && SameWatch(w, w')
    ensures PressArms(r, t, w', mode, a, side, env)
  {
  }

  lemma RoutePressArms(w: Work, mode: SocdMode, a: Axis, side: Side, target: TargetIdentity, env: Env)
    requires w.r.socdLastKey == side && w.t.nextId > 0
    ensures PressArms(w.r, w.t, RoutePress(w, mode, a, side, target, env), mode, a, side, env)
  {
    hide ResolveAxis, PressArms, Hold;
    var w1 := ResolveAxis(w, mode, a, true, target, env);
    ResolveArms(w, mode, a, side, target, env);
    HoldSame(w1, mode, a, side);
    WatchArms(w.r, w.t, w1, Hold(w1, mode, a, side), mode, a, side, env);
  }

  lemma ResolveArms(w: Work, mode: SocdMode, a: Axis, side: Side, target: TargetIdentity, env: Env)
    requires w.r.socdLastKey == side && w.t.nextId > 0
    ensures PressArms(w.r, w.t, ResolveAxis(w, mode, a, true, target, env), mode, a, side, env)
  {
    hide CancelSocdTransition, EnterConflict, PressArms, Hold, CancelStaleCounterStrafe, Forgot, SameTimers;
    CancelForgets(w, a);
    CancelKeeps(w, a);
    var next := w.r.Resolved();
    var w1 := TurnAxis(w, a, next);
    TurnForgets(w, a, next);
    SameForgot(w, a);
    ForgotArms(w.r, w.t, w, mode, a, side, env);
    ForgotArms(w.r, w.t, w1, mode, a, side, env);
    if next == Conflict {
      ConflictArms(w.r, w.t, w1, mode, a, side, target, env);
    } else if next != None {
      var down := if next == Positive then Pos else Neg;
      HoldSame(w1, mode, a, down);
      WatchArms(w.r, w.t, w1, Hold(w1, mode, a, down), mode, a, side, env);
      StaleForgets(w.r, w.t, w1, a, Flip(down));
      ForgotArms(w.r, w.t, CancelStaleCounterStrafe(w1, a, Flip(down)), mode, a, side, env);
    }
  }

  lemma ConflictArms(r: AxisRecord, t: T.Timers, w: Work, mode: SocdMode, a: Axis, side: Side, target: TargetIdentity,
        env: Env)
    requires Forgot(r, t, w.r, w.t, a) && SameTimers(t, w.t, OtherAxis(a)) && t.nextId > 0
    requires w.r.socdLastKey == side && w.r.socdReleaseTimerId == 0 && w.r.Resolved() == Conflict
    ensures PressArms(r, t, EnterConflict(w, mode, a, true, target, env), mode, a, side, env)
  {
    hide EnterOverlap, PressArms, Press, Release;
    var w2 := EnterOverlap(w, mode, a, true, target, env);
    OverlapArms(r, t, w, mode, a, side, target, env);
    HoldSame(w2, FULL, a, Flip(side));
    var w3 := if w2.r.socdReleaseTimerId != 0 then w2 else Release(w2, a, Flip(side));
    WatchArms(r, t, w2, w3, mode, a, side, env) by { SameItself(w2); }
    HoldSame(w3, FULL, a, side);
    WatchArms(r, t, w3, Press(w3, a, side), mode, a, side, env);
  }

  lemma OverlapArms(r: AxisRecord, t: T.Timers, w: Work, mode: SocdMode, a: Axis, side: Side, target: TargetIdentity,
        env: Env)
    requires Forgot(r, t, w.r, w.t, a) && SameTimers(t, w.t, OtherAxis(a)) && t.nextId > 0
    requires w.r.socdLastKey == side && w.r.Resolved() == Conflict
    ensures PressArms(r, t, EnterOverlap(w, mode, a, true, target, env), mode, a, side, env)
  {
    var w1 := DisarmAndForget(DisarmAndForget(w, a, Pos), a, Neg);
    assert Forgot(r, t, w1.r, w1.t, a) && SameTimers(t, w1.t, OtherAxis(a));
  }

  // ---- A release ----

  /** What a release may do to a key: disarm it, let go of its timer, take its slot for a brake that is then
      refused, or give it one of the two timers of a brake. */
  ghost predicate ReleaseArmsKey(r: AxisRecord, t: T.Timers, w: Work, a: Axis, side: Side, expireUs: int,
        brakes: bool) {
    || ForgotKey(r.Key(side), t, w.r.Key(side), w.t, KeyOf(a, side))
    || (brakes && w.r.Key(side).expectedTimerId == 0 && w.t.slots[KeyOf(a, side)] == t.slots[KeyOf(a, side)])
    || (brakes && !w.t.slots[KeyOf(a, side)].active)
    || (brakes && Armed(w.r.Key(side), w.t, KeyOf(a, side), t.nextId, expireUs))
  }

  ghost predicate ReleaseArms(r: AxisRecord, t: T.Timers, w: Work, a: Axis, rel: Side, overlapUs: int, brakes: bool,
        env: Env) {
    && SameTimers(t, w.t, OtherAxis(a)) && (brakes ==> overlapUs < env.brakeUs)
    && ReleaseArmsKey(r, t, w, a, Flip(rel), env.now + env.brakeUs, brakes)
    && ReleaseArmsKey(r, t, w, a, rel, env.now + overlapUs, brakes)
  }

  function OverlapOf(w: Work, rel: Side, env: Env): int {
    ClampCounterOverlapUs(if w.r.Key(rel).logical then env.overlapUs else 0, env.brakeUs)
  }

  /** Whether a release comes to the point of admitting a brake. */
  predicate Brakes(w: Work, suspended: bool, target: TargetIdentity, env: Env) {
    !w.r.pos.phys && !w.r.neg.phys && !suspended && IsExpectedTargetActive(env.brakeFocus, target) && env.brakeUs > 0
  }

  lemma StrafeArmsOnly(w: Work, a: Axis, side: Side, suspended: bool, target: TargetIdentity, env: Env)
    requires w.t.nextId > 0
    ensures var (strafed, w') := AutoCounterStrafe(w, a, side, suspended, target, env);
            var rel := if env.reversed then Flip(side) else side;
            ReleaseArms(w.r, w.t, w', a, rel, OverlapOf(w, rel, env), Brakes(w, suspended, target, env), env)
  {
    hide AdmitBrake, ArmBrake, ClampCounterOverlapUs;
    var rel := if env.reversed then Flip(side) else side;
    if Brakes(w, suspended, target, env) {
      AdmitsOnly(w, a, rel, env);
      match AdmitBrake(w, a, rel, env)
      case Refused(_) =>
      case Admitted(t, overlapId, counterId) => ArmBrakeIds(w.(t := t), a, rel, overlapId, counterId, target);
    }
  }

  lemma ArmBrakeIds(w: Work, a: Axis, rel: Side, overlapId: nat, counterId: nat, target: TargetIdentity)
    ensures var w' := ArmBrake(w, a, rel, overlapId, counterId, target);
            && w'.t == w.t && w'.r.Key(Flip(rel)).expectedTimerId == counterId
            && w'.r.Key(rel).expectedTimerId == overlapId
  {
  }

  lemma AdmitsOnly(w: Work, a: Axis, rel: Side, env: Env)
    requires w.t.nextId > 0 && env.brakeUs > 0
    ensures var overlapUs, admission := OverlapOf(w, rel, env), AdmitBrake(w, a, rel, env);
            var key, counter := KeyOf(a, rel), KeyOf(a, Flip(rel));
            && overlapUs < env.brakeUs && SameTimers(w.t, admission.t, OtherAxis(a))
            && (admission.Refused? ==>
                  && admission.t.slots[counter] == w.t.slots[counter]
                  && (admission.t.slots[key] == w.t.slots[key] || !admission.t.slots[key].active))
            && (admission.Admitted? ==>
                  && admission.counterId >= w.t.nextId
                  && admission.t.slots[counter] ==
                     T.TimerSlot(true, env.now + env.brakeUs, admission.counterId, counter)
                  && (if admission.overlapId == 0 then admission.t.slots[key] == w.t.slots[key]
                      else
                        && admission.overlapId >= w.t.nextId
                        && admission.t.slots[key] ==
                           T.TimerSlot(true, env.now + overlapUs, admission.overlapId, key)))
  {
  }

  lemma RouteReleaseArms(w: Work, mode: SocdMode, a: Axis, side: Side, suspended: bool, target: TargetIdentity,
        env: Env)
    requires w.t.nextId > 0
    ensures var rel := if env.reversed then Flip(side) else side;
            ReleaseArms(w.r, w.t, RouteRelease(w, mode, a, side, suspended, target, env), a, rel,
                        OverlapOf(w, rel, env), Brakes(w, suspended, target, env), env)
  {
    hide AutoCounterStrafe, ResolveAxis, ReleaseArms, Forgot, SameTimers, OverlapOf, Brakes;
    var rel := if env.reversed then Flip(side) else side;
    var pending := BrakePending(w.r, side);
    var (strafed, w1) :=
      if !pending && !w.r.Key(Flip(side)).phys then AutoCounterStrafe(w, a, side, suspended, target, env)
                         else (pending, w);
    if !pending && !w.r.Key(Flip(side)).phys {
      StrafeArmsOnly(w, a, side, suspended, target, env);
    } else {
      NothingReleased(w, a, rel, OverlapOf(w, rel, env), Brakes(w, suspended, target, env), env) by {
        OverlapShorter(w, rel, suspended, target, env);
      }
    }
    var w2 := if strafed then w1 else Release(w1, a, side);
    HoldSame(w1, mode, a, side);
    SameItself(w1);
    ResolveForgets(w2, mode, a, target, env);
    StillArms(w.r, w.t, w1, w2, ResolveAxis(w2, mode, a, false, target, env), a, rel, OverlapOf(w, rel, env),
              Brakes(w, suspended, target, env), env);
  }

  lemma OverlapShorter(w: Work, rel: Side, suspended: bool, target: TargetIdentity, env: Env)
    ensures Brakes(w, suspended, target, env) ==> OverlapOf(w, rel, env) < env.brakeUs
  {
  }

  lemma NothingReleased(w: Work, a: Axis, rel: Side, overlapUs: int, brakes: bool, env: Env)
    requires brakes ==> overlapUs < env.brakeUs
    ensures ReleaseArms(w.r, w.t, w, a, rel, overlapUs, brakes, env)
  {
  }

  lemma StillArms(r: AxisRecord, t: T.Timers, w: Work, w1: Work, w2: Work, a: Axis, rel: Side, overlapUs: int,
        brakes: bool, env: Env)
    requires ReleaseArms(r, t, w, a, rel, overlapUs, brakes, env) && SameWatch(w, w1)
    requires Forgot(w1.r, w1.t, w2.r, w2.t, a) && SameTimers(w1.t, w2.t, OtherAxis(a))
    ensures ReleaseArms(r, t, w2, a, rel, overlapUs, brakes, env)
  {
  }

  // ---- Whole steps ----

  /** Slot j has been armed by the step. */
  predicate NewlyArmed(w: World, w': World, j: Key) {
    w'.t.slots[j].active && w'.t.slots[j] != w.t.slots[j]
  }

  lemma DownArms(w: World, k: Key, routed: bool, target: TargetIdentity, env: Env, j: Key)
    requires w.t.nextId > 0
    ensures var w' := HandleKeyDown(w, k, routed, target, env);
            || ForgotKey(w.s.Key(j), w.t, w'.s.Key(j), w'.t, j)
            || (routed && j == Opposite(k) && w.mode == HUMANIZED && w'.s.Key(j).phys && w'.s.Key(k).phys
                && Armed(w'.s.Key(j), w'.t, j, w.t.nextId, env.now + 8000))
    ensures var w' := HandleKeyDown(w, k, routed, target, env);
            !w.s.Key(k).phys && !BrakePending(w.s.At(KeyAxis(k)), SideOf(k)) ==>
              w'.s.Key(k).expectedTimerId == 0 && !w'.t.slots[k].active
  {
    hide RoutePress, FinishAxis, TrackIfOff, PressArms;
    var a, side := KeyAxis(k), SideOf(k);
    if !w.s.Key(k).phys {
      var tracked := TrackPress(w.s.At(a), w.t, a, side);
      var s := TrackIfOff(w, w.s.With(a, tracked.r), target, env);
      TrackIfOffSame(w, w.s.With(a, tracked.r), a, target, env);
      TrackIfOffSame(w, w.s.With(a, tracked.r), OtherAxis(a), target, env);
      var wk := tracked.(r := s.At(a));
      var wk' := RoutePress(wk, w.mode, a, side, target, env);
      RoutePressArms(wk, w.mode, a, side, target, env);
      FinishAt(w, s, a, wk', target, env);
      var w' := HandleKeyDown(w, k, routed, target, env);
      PressedKeys(w, w', k, routed, wk, wk', env, j);
    }
  }

  lemma PressedKeys(w: World, w': World, k: Key, routed: bool, wk: Work, wk': Work, env: Env, j: Key)
    requires var a := KeyAxis(k);
             && SameExceptNative(TrackPress(w.s.At(a), w.t, a, SideOf(k)).r, wk.r)
             && wk.t == TrackPress(w.s.At(a), w.t, a, SideOf(k)).t
             && PressArms(wk.r, wk.t, wk', w.mode, a, SideOf(k), env)
             && SameExceptNative(if routed then wk'.r else wk.r, w'.s.At(a)) && w'.t == (if routed then wk' else wk).t
             && SameExceptNative(w.s.At(OtherAxis(a)), w'.s.At(OtherAxis(a)))
    ensures || ForgotKey(w.s.Key(j), w.t, w'.s.Key(j), w'.t, j)
            || (routed && j == Opposite(k) && w.mode == HUMANIZED && w'.s.Key(j).phys && w'.s.Key(k).phys
                && Armed(w'.s.Key(j), w'.t, j, w.t.nextId, env.now + 8000))
    ensures !BrakePending(w.s.At(KeyAxis(k)), SideOf(k)) ==> w'.s.Key(k).expectedTimerId == 0 && !w'.t.slots[k].active
  {
  }

  /** A brake was to be had: both keys of the axis up, not suspended, on target, with a positive duration. */
  predicate BrakesAfter(w: World, w': World, k: Key, target: TargetIdentity, env: Env) {
    && !w'.s.Key(k).phys && !w'.s.Key(Opposite(k)).phys && !w.s.suspended
    && IsExpectedTargetActive(env.brakeFocus, target) && env.brakeUs > 0
  }

  /** The key awaits a fresh timer: the brake's for its whole duration, or the shorter overlap's. */
  predicate ArmedByBrake(w': World, j: Key, along: bool, first: nat, env: Env) {
    var slot := w'.t.slots[j];
    && slot == T.TimerSlot(true, slot.expireUs, w'.s.Key(j).expectedTimerId, j) && slot.id >= first
    && if along then slot.expireUs < env.now + env.brakeUs else slot.expireUs == env.now + env.brakeUs
  }

  /** What a routed release may make of a key of its axis besides forgetting its timer. */
  predicate BrakeTook(w: World, w': World, k: Key, j: Key, target: TargetIdentity, env: Env) {
    && KeyAxis(j) == KeyAxis(k) && BrakesAfter(w, w', k, target, env)
    && ((w'.s.Key(j).expectedTimerId == 0 && w'.t.slots[j] == w.t.slots[j])
        || !w'.t.slots[j].active
        || ArmedByBrake(w', j, j == if env.reversed then Opposite(k) else k, w.t.nextId, env))
  }

  lemma UpArms(w: World, k: Key, routed: bool, target: TargetIdentity, env: Env, j: Key)
    requires w.t.nextId > 0
    ensures var w' := HandleKeyUp(w, k, routed, target, env);
            ForgotKey(w.s.Key(j), w.t, w'.s.Key(j), w'.t, j) || (routed && BrakeTook(w, w', k, j, target, env))
  {
    hide RouteRelease, FinishAxis, TrackIfOff, ReleaseArms, ResolveAxis, CancelSocdTransition, OverlapOf, Brakes;
    var a, side := KeyAxis(k), SideOf(k);
    var w' := HandleKeyUp(w, k, routed, target, env);
    if w.s.Key(k).phys {
      CancelForgets(Work(w.s.At(a), w.t, Empty), a);
      var tracked := TrackRelease(w.s.At(a), w.t, a, side);
      var s := TrackIfOff(w, w.s.With(a, tracked.r), target, env);
      TrackIfOffSame(w, w.s.With(a, tracked.r), a, target, env);
      TrackIfOffSame(w, w.s.With(a, tracked.r), OtherAxis(a), target, env);
      var wk := tracked.(r := s.At(a));
      var wk' := RouteRelease(wk, w.mode, a, side, s.suspended, target, env);
      RouteReleaseArms(wk, w.mode, a, side, s.suspended, target, env);
      P.RouteReleasePair(wk, w.mode, a, side, s.suspended, target, env);
      TrackIfOffAt(w, w.s.With(a, tracked.r), a, target, env);
      FinishAt(w, s, a, if routed then wk' else wk, target, env);
      ReleasedKeys(w, w', k, routed, s.suspended, wk, wk', target, env, j);
    } else {
      var wk := Work(w.s.At(a), w.t, Empty);
      ResolveForgets(wk, w.mode, a, target, env);
      SameForgot(wk, a);
      FinishAt(w, w.s, a, if routed then ResolveAxis(wk, w.mode, a, false, target, env) else wk, target, env);
    }
  }

  lemma ReleasedKeys(w: World, w': World, k: Key, routed: bool, suspended: bool, wk: Work, wk': Work,
        target: TargetIdentity, env: Env, j: Key)
    requires var a, side := KeyAxis(k), SideOf(k);
             var tracked, rel := TrackRelease(w.s.At(a), w.t, a, side), if env.reversed then Flip(side) else side;
             && Forgot(w.s.At(a), w.t, tracked.r, tracked.t, a) && SameTimers(w.t, tracked.t, OtherAxis(a))
             && SameExceptNative(tracked.r, wk.r) && wk.t == tracked.t && suspended == w.s.suspended
             && P.SamePair(wk.r, wk'.r)
             && ReleaseArms(wk.r, wk.t, wk', a, rel, OverlapOf(wk, rel, env), Brakes(wk, suspended, target, env), env)
             && SameExceptNative(if routed then wk'.r else wk.r, w'.s.At(a)) && w'.t == (if routed then wk' else wk).t
             && SameExceptNative(w.s.At(OtherAxis(a)), w'.s.At(OtherAxis(a)))
    ensures ForgotKey(w.s.Key(j), w.t, w'.s.Key(j), w'.t, j) || (routed && BrakeTook(w, w', k, j, target, env))
  {
    hide TrackRelease, OverlapOf;
  }

  // ---- All steps ----

  lemma OtherStepsForget(w: World, action: Action, j: Key)
    requires !action.step.KeyDown? && !action.step.KeyUp? && !action.step.Expire?
    requires !action.step.PickTimer? && !action.step.FireTimer? && !action.step.EnqueueTimer?
    ensures var w' := Apply(w, action); ForgotKey(w.s.Key(j), w.t, w'.s.Key(j), w'.t, j)
  {
    hide ClearHeldKeys, ReconcileLogical, Flush, Forgot;
    var Action(step, target, env) := action;
    match step
    case Rebuild(physical) =>
      var s := Observe(w.s, physical);
      var wk := ReconcileLogical(WorkAll(s, w.t, Empty), w.mode, w.b, target, env);
      ReconcileForgets(WorkAll(s, w.t, Empty), w.mode, w.b, target, env);
      CommitForgets(s, w.t, wk.s, wk.t, Flush(w.b, wk.batch, target, env.sends));
      ForgetsKey(s, w.t, Apply(w, action).s, Apply(w, action).t, j);
    case Clear =>
      ClearForgets(w, target, env);
      ForgetsKey(w.s, w.t, Apply(w, action).s, Apply(w, action).t, j);
    case Suspend =>
      ClearForgets(w.(s := w.s.(suspended := true)), target, env);
      ForgetsKey(w.s.(suspended := true), w.t, ClearHeldKeys(w.(s := w.s.(suspended := true)), target, env).s,
                 ClearHeldKeys(w.(s := w.s.(suspended := true)), target, env).t, j);
    case SetMode(_, _) =>
      ClearForgets(w, target, env);
      ForgetsKey(w.s, w.t, ClearHeldKeys(w, target, env).s, ClearHeldKeys(w, target, env).t, j);
    case _ =>
  }

  lemma ForgetsKey(s: State, t: T.Timers, s': State, t': T.Timers, j: Key)
    requires Forgets(s, t, s', t')
    ensures ForgotKey(s.Key(j), t, s'.Key(j), t', j)
  {
  }

  /** Main result: only routed edges arm timers. A press arms at most the 8 ms overlap of the opposite key, in
      HUMANIZED mode with both keys down; a release at most a brake, with both keys up, not suspended and on target:
      one key for the brake's duration, the other for less. Each time the key awaits exactly the fresh timer. */
  lemma ArmedOnlyBy(w: World, action: Action, j: Key)
    requires w.t.nextId > 0 && NewlyArmed(w, Apply(w, action), j)
    ensures var Action(step, target, env) := action;
            var w' := Apply(w, action);
            && w'.t.slots[j].key == j && w'.t.slots[j].id == w'.s.Key(j).expectedTimerId >= w.t.nextId
            && match step
               case KeyDown(k, routed) =>
                 && routed && j == Opposite(k) && w.mode == HUMANIZED && w'.s.Key(j).phys && w'.s.Key(k).phys
                 && w'.t.slots[j].expireUs == env.now + 8000
               case KeyUp(k, routed) =>
                 && routed && KeyAxis(j) == KeyAxis(k) && BrakesAfter(w, w', k, target, env)
                 && ArmedByBrake(w', j, j == if env.reversed then Opposite(k) else k, w.t.nextId, env)
               case _ => false
  {
    hide HandleKeyDown, HandleKeyUp, DrainExpired, RebuildState, ClearHeldKeys, ToggleSuspend, ChangeMode;
    var Action(step, target, env) := action;
    match step
    case KeyDown(k, routed) => DownArms(w, k, routed, target, env, j);
    case KeyUp(k, routed) => UpArms(w, k, routed, target, env, j);
    case Expire => G.DrainPops(w, env);
    case PickTimer =>
    case FireTimer =>
    case EnqueueTimer =>
    case _ => OtherStepsForget(w, action, j);
  }

  /** The slot of the key is armed for a timer that the key does not await. */
  predicate Orphaned(w: World, j: Key) {
    w.t.slots[j].active && w.t.slots[j].id != w.s.Key(j).expectedTimerId
  }

  /** Main result: no step but a release that arms a brake leaves a timer armed that nothing awaits: whatever stops
      awaiting a timer disarms it. */
  lemma DisarmedWhenForgotten(w: World, action: Action, j: Key)
    requires w.t.nextId > 0 && !Orphaned(w, j)
    requires action.step.Expire? && w.t.queue != [] && w.t.slots[j].active ==>
               w.t.queue[0] != T.Expired(j, w.t.slots[j].id)
    requires action.step.KeyUp? && action.step.routed ==>
               !BrakesAfter(w, Apply(w, action), action.step.k, action.target, action.env)
    ensures !Orphaned(Apply(w, action), j)
  {
    hide HandleKeyDown, HandleKeyUp, DrainExpired, RebuildState, ClearHeldKeys, ToggleSuspend, ChangeMode, BrakesAfter;
    var Action(step, target, env) := action;
    match step
    case KeyDown(k, routed) => DownArms(w, k, routed, target, env, j);
    case KeyUp(k, routed) => UpArms(w, k, routed, target, env, j);
    case Expire =>
      G.DrainPops(w, env);
      if w.s.Key(j).expectedTimerId != 0 { G.DrainStep(w, j, env); } else { G.DrainForgets(w, j, env); }
    case PickTimer =>
    case FireTimer =>
    case EnqueueTimer =>
    case _ => OtherStepsForget(w, action, j);
  }

  /** Main result: a press clears whatever its key still awaited, unless that is a brake that still holds it. */
  lemma PressForgets(w: World, k: Key, routed: bool, target: TargetIdentity, env: Env)
    requires w.t.nextId > 0 && !w.s.Key(k).phys && !(w.s.Key(k).logical && w.s.Key(k).expectedTimerId != 0)
    ensures var w' := HandleKeyDown(w, k, routed, target, env);
            w'.s.Key(k).expectedTimerId == 0 && !w'.t.slots[k].active
  {
    hide HandleKeyDown;
    DownArms(w, k, routed, target, env, k);
  }
}
