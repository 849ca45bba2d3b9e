/** The life of a brake and of a humanized overlap in an obliging world: which key is held, until when, and what
    its expiry leaves behind. */
module BrakeLife {
  import opened Keys
  import opened TargetPlatform
  import opened Engine
  import opened EngineInvariant
  import opened EngineSafety
  import opened EngineRuns
  import opened EngineRefinement
  import opened EngineIdealRuns
  import I = Injection
  import T = Timers

  /** The key awaits a timer that is armed in its slot for the given moment. */
  ghost predicate ArmedUntil(r: AxisRecord, t: T.Timers, a: Axis, side: Side, expireUs: int) {
    r.Key(side).expectedTimerId != 0
    && t.slots[KeyOf(a, side)] == T.TimerSlot(true, expireUs, r.Key(side).expectedTimerId, KeyOf(a, side))
  }

  // ---- A release arms a brake ----

  /** What the release of `side` is asked to overlap: only a key that is logically down can overlap. */
  function Overlap(logical: bool, env: Env): int {
    ClampCounterOverlapUs(if logical then env.overlapUs else 0, env.brakeUs)
  }

  /** What a brake needs besides both keys being up: the target, a duration, and every timer it asks for. */
  predicate BrakeFits(held: bool, target: TargetIdentity, env: Env) {
    && IsExpectedTargetActive(env.brakeFocus, target) && env.brakeUs > 0
    && env.admitCounter && (env.admitOverlap || Overlap(held, env) == 0)
  }

  /** No timer is armed that was not armed before. */
  ghost predicate NothingArmed(t: T.Timers, t': T.Timers) {
    forall i: T.TimerKey :: t'.slots[i].active ==> t'.slots[i] == t.slots[i]
  }

  lemma AdmitsAll(w: Work, a: Axis, rel: Side, env: Env)
    requires w.t.nextId > 0
    ensures var overlapUs, admission := Overlap(w.r.Key(rel).logical, env), AdmitBrake(w, a, rel, env);
            && (admission.Admitted? <==> env.admitCounter && (env.admitOverlap || overlapUs == 0))
            && (admission.Refused? ==> NothingArmed(w.t, admission.t))
            && (admission.Admitted? ==>
                  && admission.counterId >= w.t.nextId && (admission.overlapId != 0 <==> overlapUs > 0)
                  && admission.t.slots[KeyOf(a, Flip(rel))] ==
                     T.TimerSlot(true, env.now + env.brakeUs, admission.counterId, KeyOf(a, Flip(rel)))
                  && (overlapUs > 0 ==> admission.t.slots[KeyOf(a, rel)] ==
                                        T.TimerSlot(true, env.now + overlapUs, admission.overlapId, KeyOf(a, rel))))
  {
  }

  lemma ReleaseWorkArms(w: Work, mode: SocdMode, a: Axis, side: Side, suspended: bool, target: TargetIdentity, env: Env)
    requires !w.r.pos.phys && !w.r.neg.phys && !BrakePending(w.r, side) && w.r.socdReleaseTimerId == 0 && w.t.nextId > 0
    requires w.batch == Empty
    ensures var w' := RouteRelease(w, mode, a, side, suspended, target, env);
            var rel := if env.reversed then Flip(side) else side;
            var overlapUs := Overlap(w.r.Key(rel).logical, env);
            && !w'.r.pos.phys && !w'.r.neg.phys
            && (if !suspended && BrakeFits(w.r.Key(rel).logical, target, env) then
                  && ArmedUntil(w'.r, w'.t, a, Flip(rel), env.now + env.brakeUs)
                  && w'.r.Key(Flip(rel)).expectedTimerId >= w.t.nextId
                  && (if overlapUs > 0 then ArmedUntil(w'.r, w'.t, a, rel, env.now + overlapUs)
                      else w'.r.Key(rel).expectedTimerId == 0)
                else
                  && NothingArmed(w.t, w'.t) && w'.r.pos.expectedTimerId == w.r.pos.expectedTimerId
                  && w'.r.neg.expectedTimerId == w.r.neg.expectedTimerId
                  && w'.batch == if w.r.Key(side).logical then More(Empty, Event(KeyOf(a, side), false)) else Empty)
  {
    hide AutoCounterStrafe, ResolveAxis, ClampCounterOverlapUs, NothingArmed, BrakeFits;
    var (strafed, w1) := AutoCounterStrafe(w, a, side, suspended, target, env);
    StrafeArms(w, a, side, suspended, target, env);
    IdleResolve(if strafed then w1 else Release(w1, a, side), mode, a, target, env);
  }

  /** With both keys up and no transition running, resolving the axis only records that it is idle. */
  lemma IdleResolve(w: Work, mode: SocdMode, a: Axis, target: TargetIdentity, env: Env)
    requires !w.r.pos.phys && !w.r.neg.phys && w.r.socdReleaseTimerId == 0
    ensures ResolveAxis(w, mode, a, false, target, env) == w.(r := w.r.(axisState := None))
  {
  }

  lemma StrafeArms(w: Work, a: Axis, side: Side, suspended: bool, target: TargetIdentity, env: Env)
    requires !w.r.pos.phys && !w.r.neg.phys && w.t.nextId > 0
    ensures var (strafed, w') := AutoCounterStrafe(w, a, side, suspended, target, env);
            var rel := if env.reversed then Flip(side) else side;
            var overlapUs := Overlap(w.r.Key(rel).logical, env);
            && !w'.r.pos.phys && !w'.r.neg.phys && w'.r.socdReleaseTimerId == w.r.socdReleaseTimerId
            && strafed == (!suspended && BrakeFits(w.r.Key(rel).logical, target, env))
            && (strafed ==>
                  && ArmedUntil(w'.r, w'.t, a, Flip(rel), env.now + env.brakeUs)
                  && w'.r.Key(Flip(rel)).expectedTimerId >= w.t.nextId
                  && (if overlapUs > 0 then ArmedUntil(w'.r, w'.t, a, rel, env.now + overlapUs)
                      else w'.r.Key(rel).expectedTimerId == 0))
            && (!strafed ==> NothingArmed(w.t, w'.t) && w'.r == w.r && w'.batch == w.batch)
  {
    hide AdmitBrake, ArmBrake, ClampCounterOverlapUs, NothingArmed;
    var rel := if env.reversed then Flip(side) else side;
    AdmitsAll(w, a, rel, env);
    SameArmed(w.t);
    match AdmitBrake(w, a, rel, env)
    case Refused(_) =>
    case Admitted(t, overlapId, counterId) =>
      ArmBrakeArms(w.(t := t), a, rel, overlapId, counterId, target);
  }

  /** The key along the motion awaits its overlap or nothing, the counter key the brake. */
  lemma ArmBrakeArms(w: Work, a: Axis, rel: Side, overlapId: nat, counterId: nat, target: TargetIdentity)
    requires !w.r.pos.phys && !w.r.neg.phys
    ensures var w' := ArmBrake(w, a, rel, overlapId, counterId, target);
            && w'.t == w.t && w'.r.Key(Flip(rel)).expectedTimerId == counterId
            && w'.r.Key(rel).expectedTimerId == overlapId
            && !w'.r.pos.phys && !w'.r.neg.phys && w'.r.socdReleaseTimerId == w.r.socdReleaseTimerId
  {
  }

  lemma SameArmed(t: T.Timers)
    ensures NothingArmed(t, t)
  {
  }

  /** Main result: in every state the invariant allows and whatever the outside world does, releasing the last key
      of an axis arms a timer exactly when a brake fits and the engine is not suspended: then the counter key
      awaits a fresh timer for the computed duration and the key along the motion one for the overlap; else no
      timer is armed, no key awaits another one, and at most the release itself reaches the game. */
  lemma ReleaseArmsIff(w: World, k: Key, target: TargetIdentity, env: Env)
    requires Inv(w) && w.s.Key(k).phys && !w.s.Key(Opposite(k)).phys
    requires !(w.b.held[k] && w.s.Key(k).expectedTimerId != 0)
    ensures var w' := HandleKeyUp(w, k, true, target, env);
            var along := if env.reversed then Opposite(k) else k;
            var overlapUs := Overlap(w.b.held[along], env);
            && !w'.s.Key(k).phys && !w'.s.Key(Opposite(k)).phys
            && if !w.s.suspended && BrakeFits(w.b.held[along], target, env) then
              && ArmedUntil(w'.s.At(KeyAxis(k)), w'.t, KeyAxis(k), SideOf(Opposite(along)), env.now + env.brakeUs)
              && w'.s.Key(Opposite(along)).expectedTimerId >= w.t.nextId
              && (if overlapUs > 0
                  then ArmedUntil(w'.s.At(KeyAxis(k)), w'.t, KeyAxis(k), SideOf(along), env.now + overlapUs)
                  else w'.s.Key(along).expectedTimerId == 0)
            else
              && NothingArmed(w.t, w'.t)
              && (w'.b.log == w.b.log || w'.b.log == w.b.log + [I.Accepted(k, false, target)])
              && w'.s.Key(k).expectedTimerId == w.s.Key(k).expectedTimerId
              && w'.s.Key(Opposite(k)).expectedTimerId == w.s.Key(Opposite(k)).expectedTimerId
  {
    hide RouteRelease, AxisOk, TrackRelease, FinishAxis, NothingArmed, BrakeFits, ClampCounterOverlapUs, Flush, InOrder;
    var a, side := KeyAxis(k), SideOf(k);
    var s, wk := ReleaseState(w, k, target, env), ReleaseWork(w, k, target, env);
    ReleaseInOrder(w, k, target, env);
    ReleasedRecord(w, k, target, env);
    ReleaseWorkArms(TrackRelease(w.s.At(a), w.t, a, side).(r := s.At(a)), w.mode, a, side, s.suspended, target, env);
    FinishAt(w, s, a, wk, target, env);
    OneUp(w.b, k, target, env);
  }

  lemma OneUp(b: I.Boundary, k: Key, target: TargetIdentity, env: Env)
    ensures Flush(b, Empty, target, env.sends) == b
    ensures var b' := Flush(b, More(Empty, Event(k, false)), target, env.sends);
            b'.log == b.log || b'.log == b.log + [I.Accepted(k, false, target)]
  {
  }

  /** Main result: in an obliging world a brake that fits holds the key against the residual motion for exactly
      the computed duration; the key along the motion stays down exactly for the configured overlap. */
  lemma ReleaseArmsBrake(w: World, k: Key, target: TargetIdentity, env: Env)
    requires Ideal(w, target) && ObligingEnv(env, target)
    requires w.s.Key(k).phys && !w.s.Key(Opposite(k)).phys && w.s.Key(k).expectedTimerId == 0
    requires BrakeFits(w.b.held[if env.reversed then Opposite(k) else k], target, env)
    ensures var w' := HandleKeyUp(w, k, true, target, env);
            var along := if env.reversed then Opposite(k) else k;
            var overlapUs := Overlap(w.b.held[along], env);
            && w'.b.held[Opposite(along)]
            && w'.t.slots[Opposite(along)] ==
                 T.TimerSlot(true, env.now + env.brakeUs, w'.s.Key(Opposite(along)).expectedTimerId, Opposite(along))
            && w'.s.Key(Opposite(along)).expectedTimerId != 0
            && (w'.b.held[along] <==> overlapUs > 0)
            && (overlapUs > 0 ==>
                  w'.t.slots[along] == T.TimerSlot(true, env.now + overlapUs, w'.s.Key(along).expectedTimerId, along))
  {
    hide HandleKeyUp, AxisOk, IdealAxis, BrakeFits, ClampCounterOverlapUs;
    ReleaseArmsIff(w, k, target, env);
    ReleaseIdeal(w, k, target, env);
    HeldIsArmed(HandleKeyUp(w, k, true, target, env), KeyAxis(k), target);
  }

  /** Main result: without one, no key of the axis is held, at most one input reaches the game, the release of the
      key, and no timer is armed. */
  lemma ReleaseWithoutBrake(w: World, k: Key, target: TargetIdentity, env: Env)
    requires Ideal(w, target) && ObligingEnv(env, target)
    requires w.s.Key(k).phys && !w.s.Key(Opposite(k)).phys && w.s.Key(k).expectedTimerId == 0
    requires !BrakeFits(w.b.held[if env.reversed then Opposite(k) else k], target, env)
    ensures var w' := HandleKeyUp(w, k, true, target, env);
            && !w'.b.held[k] && !w'.b.held[Opposite(k)] && NothingArmed(w.t, w'.t)
            && (w'.b.log == w.b.log || w'.b.log == w.b.log + [I.Accepted(k, false, target)])
  {
    hide HandleKeyUp, AxisOk, IdealAxis, BrakeFits, NothingArmed;
    assert w.s.Key(Opposite(k)).expectedTimerId == 0 by { LastKeyAlone(w, k, target); }
    ReleaseArmsIff(w, k, target, env);
    ReleaseIdeal(w, k, target, env);
    HeldIsArmed(HandleKeyUp(w, k, true, target, env), KeyAxis(k), target);
  }

  /** A key of the axis is held after the release exactly when a brake fits. */
  lemma ReleaseBrakesIff(w: World, k: Key, target: TargetIdentity, env: Env)
    requires Ideal(w, target) && ObligingEnv(env, target)
    requires w.s.Key(k).phys && !w.s.Key(Opposite(k)).phys && w.s.Key(k).expectedTimerId == 0
    ensures var w' := HandleKeyUp(w, k, true, target, env);
            w'.b.held[k] || w'.b.held[Opposite(k)] <==>
            BrakeFits(w.b.held[if env.reversed then Opposite(k) else k], target, env)
  {
    hide HandleKeyUp, Ideal, BrakeFits, NothingArmed;
    if BrakeFits(w.b.held[if env.reversed then Opposite(k) else k], target, env) {
      ReleaseArmsBrake(w, k, target, env);
    } else {
      ReleaseWithoutBrake(w, k, target, env);
    }
  }

  lemma LastKeyAlone(w: World, k: Key, target: TargetIdentity)
    requires Ideal(w, target) && w.s.Key(k).phys && !w.s.Key(Opposite(k)).phys
    ensures w.s.Key(Opposite(k)).expectedTimerId == 0
  {
    var r := w.s.At(KeyAxis(k));
    assert RecordOk(r, w.mode, w.t, KeyAxis(k)) && IdealAxis(r, w.b, KeyAxis(k), w.mode, target);
  }

  /** The record that the release starts to emit from. */
  lemma ReleasedRecord(w: World, k: Key, target: TargetIdentity, env: Env)
    requires Inv(w) && w.s.Key(k).phys && !w.s.Key(Opposite(k)).phys
    requires !(w.b.held[k] && w.s.Key(k).expectedTimerId != 0)
    ensures var a, side, s := KeyAxis(k), SideOf(k), ReleaseState(w, k, target, env);
            var wk := TrackRelease(w.s.At(a), w.t, a, side).(r := s.At(a));
            && !wk.r.pos.phys && !wk.r.neg.phys && wk.r.socdReleaseTimerId == 0 && wk.t == w.t && w.t.nextId > 0
            && !BrakePending(wk.r, side) && s.suspended == w.s.suspended && wk.batch == Empty
            && wk.r.pos.logical == w.b.held[KeyOf(a, Pos)] && wk.r.neg.logical == w.b.held[KeyOf(a, Neg)]
            && wk.r.pos.expectedTimerId == w.s.At(a).pos.expectedTimerId
            && wk.r.neg.expectedTimerId == w.s.At(a).neg.expectedTimerId
  {
    hide AxisOk, TrackRelease, TrackIfOff;
    var a, side := KeyAxis(k), SideOf(k);
    var r := w.s.At(a);
    assert AxisOk(r, w.mode, w.t, w.b, a);
    LastKeyTracked(r, w.mode, w.t, w.b, a, side);
    TrackIfOffAt(w, w.s.With(a, SetPhys(r, side, false)), a, target, env);
    LastKeyRecord(w, r, a, side, target, env);
  }

  lemma LastKeyTracked(r: AxisRecord, mode: SocdMode, t: T.Timers, b: I.Boundary, a: Axis, side: Side)
    requires AxisOk(r, mode, t, b, a) && r.Key(side).phys && !r.Key(Flip(side)).phys
    ensures TrackRelease(r, t, a, side) == Work(SetPhys(r, side, false), t, Empty)
    ensures r.socdReleaseTimerId == 0
  {
  }

  lemma LastKeyRecord(w: World, r: AxisRecord, a: Axis, side: Side, target: TargetIdentity, env: Env)
    requires AxisOk(r, w.mode, w.t, w.b, a) && r.Key(side).phys && !r.Key(Flip(side)).phys
    requires !(w.b.held[KeyOf(a, side)] && r.Key(side).expectedTimerId != 0)
    ensures var r' := TrackedRecord(w, SetPhys(r, side, false), a, w.s.suspended, target, env);
            && !r'.pos.phys && !r'.neg.phys && r'.socdReleaseTimerId == r.socdReleaseTimerId && !BrakePending(r', side)
            && r'.pos.logical == w.b.held[KeyOf(a, Pos)] && r'.neg.logical == w.b.held[KeyOf(a, Neg)]
            && r'.pos.expectedTimerId == r.pos.expectedTimerId && r'.neg.expectedTimerId == r.neg.expectedTimerId
  {
  }

  /** On an axis with no key physically down, what is held is what awaits a timer. */
  lemma HeldIsArmed(w: World, a: Axis, target: TargetIdentity)
    requires Arbitrated(w, target)
    ensures var r := w.s.At(a);
            !r.pos.phys && !r.neg.phys ==>
              && (w.b.held[KeyOf(a, Pos)] <==> r.pos.expectedTimerId != 0)
              && (w.b.held[KeyOf(a, Neg)] <==> r.neg.expectedTimerId != 0)
  {
    assert IdealAxis(w.s.At(a), w.b, a, w.mode, target);
  }

  // ---- Its expiry releases it ----

  /** Main result: the expiry of a brake releases its key unless it is physically down by then, and leaves
      the opposite key as it was. */
  lemma ExpiryEndsBrake(w: World, k: Key, target: TargetIdentity, env: Env)
    requires Ideal(w, target) && ObligingEnv(env, target) && !(w.s.Key(k).phys && w.s.Key(Opposite(k)).phys)
    requires w.t.queue != [] && w.t.queue[0] == T.Expired(k, w.s.Key(k).expectedTimerId)
             && w.s.Key(k).expectedTimerId != 0
    ensures var w' := DrainExpired(w, env);
            && w'.s.Key(k).expectedTimerId == 0
            && (!w.s.Key(k).phys ==> !w'.b.held[k])
            && w'.b.held[Opposite(k)] == w.b.held[Opposite(k)]
  {
    hide AxisOk, IdealAxis, Exact, FinishAxis, ExpireTimer;
    var a, side, w1 := KeyAxis(k), SideOf(k), w.(t := T.Pop(w.t));
    var wk := Work(w.s.At(a), w1.t, Empty);
    var wk' := ExpireTimer(wk, w.mode, a, side, w.s.suspended);
    ExpireIdeal(w, target, env);
    FinishAt(w1, w.s, a, wk', w.s.Key(k).expectedTimerTarget, env);
    ExpireRecord(w, a, side, target);
    OppositeUnasked(w, a, side, target, w1.t, env);
    HeldIsArmed(DrainExpired(w, env), a, target);
  }

  lemma ExpireRecord(w: World, a: Axis, side: Side, target: TargetIdentity)
    requires Ideal(w, target) && w.s.At(a).Key(side).expectedTimerId != 0
    requires !(w.s.At(a).Key(side).phys && w.s.At(a).Key(Flip(side)).phys)
    ensures var r, t := w.s.At(a), T.Pop(w.t);
            var w' := ExpireTimer(Work(r, t, Empty), w.mode, a, side, w.s.suspended);
            && w'.r.Key(side).expectedTimerId == 0 && w'.r.Key(Flip(side)) == r.Key(Flip(side))
            && w'.r.Key(side).phys == r.Key(side).phys && !r.Key(Flip(side)).phys
            && !Touches(w'.batch, KeyOf(a, Flip(side)))
  {
    assert RecordOk(w.s.At(a), w.mode, w.t, a) && IdealAxis(w.s.At(a), w.b, a, w.mode, target);
  }

  lemma OppositeUnasked(w: World, a: Axis, side: Side, target: TargetIdentity, t: T.Timers, env: Env)
    requires Ideal(w, target) && ObligingEnv(env, target) && t == T.Pop(w.t)
    requires !Touches(ExpireTimer(Work(w.s.At(a), t, Empty), w.mode, a, side, w.s.suspended).batch,
             KeyOf(a, Flip(side)))
    ensures var batch := ExpireTimer(Work(w.s.At(a), t, Empty), w.mode, a, side, w.s.suspended).batch;
            Flush(w.b, batch, w.s.At(a).Key(side).expectedTimerTarget, env.sends).held[KeyOf(a, Flip(side))] ==
                w.b.held[KeyOf(a, Flip(side))]
  {
    hide ExpireTimer;
    var batch := ExpireTimer(Work(w.s.At(a), t, Empty), w.mode, a, side, w.s.suspended).batch;
    FlushFrame(w.b, batch, w.s.At(a).Key(side).expectedTimerTarget, env.sends, KeyOf(a, Flip(side)));
  }

  // ---- Humanized overlaps ----

  lemma PressWorkOverlaps(w: Work, a: Axis, side: Side, target: TargetIdentity, env: Env)
    requires w.r.pos.phys && w.r.neg.phys && w.r.axisState != Conflict && w.r.socdLastKey == side
             && w.r.socdReleaseTimerId == 0
    requires w.r.Key(Flip(side)).logical && env.admitSocd && w.t.nextId > 0
    ensures var w' := RoutePress(w, HUMANIZED, a, side, target, env);
            && ArmedUntil(w'.r, w'.t, a, Flip(side), env.now + SOCD_OVERLAP_US)
            && w'.r.socdReleaseTimerId == w'.r.Key(Flip(side)).expectedTimerId && w'.r.socdLastKey == side
            && w'.r.pos.phys && w'.r.neg.phys
  {
  }

  /** Main result: in HUMANIZED mode a second press holds both keys, with the release of the first timed 8 ms
      ahead. */
  lemma SecondPressOverlaps(w: World, k: Key, target: TargetIdentity, env: Env)
    requires Ideal(w, target) && ObligingEnv(env, target) && w.mode == HUMANIZED && env.admitSocd
    requires !w.s.Key(k).phys && w.s.Key(Opposite(k)).phys
    ensures var w', o := HandleKeyDown(w, k, true, target, env), Opposite(k);
            && w'.b.held[k] && w'.b.held[o] && w'.s.Key(o).expectedTimerId != 0
            && w'.t.slots[o] == T.TimerSlot(true, env.now + 8000, w'.s.Key(o).expectedTimerId, o)
  {
    hide RoutePress, AxisOk, IdealAxis, Exact, TrackPress, FinishAxis;
    var a, side := KeyAxis(k), SideOf(k);
    var s, wk := PressState(w, k, target, env), PressWork(w, k, target, env);
    PressInOrder(w, k, target, env);
    PressIdeal(w, k, target, env);
    PressedRecord(w, k, target, env);
    PressWorkOverlaps(TrackPress(w.s.At(a), w.t, a, side).(r := s.At(a)), a, side, target, env);
    FinishAt(w, s, a, wk, target, env);
    PressKeepsMode(w, k, target, env);
    OverlapHeld(HandleKeyDown(w, k, true, target, env), a, target);
  }

  lemma PressKeepsMode(w: World, k: Key, target: TargetIdentity, env: Env)
    ensures HandleKeyDown(w, k, true, target, env).mode == w.mode
  {
    hide RoutePress, TrackPress, TrackIfOff;
  }

  lemma PressedRecord(w: World, k: Key, target: TargetIdentity, env: Env)
    requires Ideal(w, target) && ObligingEnv(env, target) && w.mode == HUMANIZED
    requires !w.s.Key(k).phys && w.s.Key(Opposite(k)).phys
    ensures var a, side := KeyAxis(k), SideOf(k);
            var wk := TrackPress(w.s.At(a), w.t, a, side).(r := PressState(w, k, target, env).At(a));
            && wk.r.pos.phys && wk.r.neg.phys && wk.r.axisState != Conflict && wk.r.socdLastKey == side
            && wk.r.socdReleaseTimerId == 0 && wk.r.Key(Flip(side)).logical && wk.t.nextId > 0
  {
    var a := KeyAxis(k);
    assert RecordOk(w.s.At(a), w.mode, w.t, a) && IdealAxis(w.s.At(a), w.b, a, w.mode, target) && TimersOk(w.t);
  }

  lemma OverlapHeld(w: World, a: Axis, target: TargetIdentity)
    requires Arbitrated(w, target) && w.mode == HUMANIZED
    ensures var r := w.s.At(a);
            r.pos.phys && r.neg.phys && r.socdReleaseTimerId != 0 ==> w.b.held[KeyOf(a, Pos)] && w.b.held[KeyOf(a, Neg)]
  {
    assert IdealAxis(w.s.At(a), w.b, a, w.mode, target);
  }

  /** Main result: when the overlap expires with both keys still down, only the last pressed key stays held. */
  lemma OverlapEnds(w: World, k: Key, target: TargetIdentity, env: Env)
    requires Ideal(w, target) && ObligingEnv(env, target) && w.s.Key(k).phys && w.s.Key(Opposite(k)).phys
    requires w.t.queue != [] && w.t.queue[0] == T.Expired(k, w.s.Key(k).expectedTimerId)
             && w.s.Key(k).expectedTimerId != 0
    ensures var w' := DrainExpired(w, env);
            !w'.b.held[k] && w'.b.held[Opposite(k)] && w'.s.At(KeyAxis(k)).socdLastKey == SideOf(Opposite(k))
  {
    hide AxisOk, Exact, FinishAxis;
    var a, side, w1 := KeyAxis(k), SideOf(k), w.(t := T.Pop(w.t));
    var wk' := ExpireTimer(Work(w.s.At(a), w1.t, Empty), w.mode, a, side, w.s.suspended);
    ExpireIdeal(w, target, env);
    FinishAt(w1, w.s, a, wk', w.s.Key(k).expectedTimerTarget, env);
    ExpireOverlapRecord(w, a, side, target);
    ExpireKeepsMode(w, env);
    LastHeld(DrainExpired(w, env), a, target);
  }

  lemma ExpireKeepsMode(w: World, env: Env)
    ensures DrainExpired(w, env).mode == w.mode
  {
  }

  lemma ExpireOverlapRecord(w: World, a: Axis, side: Side, target: TargetIdentity)
    requires Ideal(w, target) && w.s.At(a).Key(side).expectedTimerId != 0
    requires w.s.At(a).Key(side).phys && w.s.At(a).Key(Flip(side)).phys
    ensures var r := w.s.At(a);
            var w' := ExpireTimer(Work(r, T.Pop(w.t), Empty), w.mode, a, side, w.s.suspended);
            && w.mode == HUMANIZED && r.socdLastKey == Flip(side)
            && w'.r.socdReleaseTimerId == 0 && w'.r.socdLastKey == r.socdLastKey && w'.r.pos.phys && w'.r.neg.phys
  {
    assert RecordOk(w.s.At(a), w.mode, w.t, a) && IdealAxis(w.s.At(a), w.b, a, w.mode, target);
  }

  lemma LastHeld(w: World, a: Axis, target: TargetIdentity)
    requires Arbitrated(w, target) && w.mode == HUMANIZED
    ensures var r := w.s.At(a);
            r.pos.phys && r.neg.phys && r.socdReleaseTimerId == 0 ==>
              w.b.held[KeyOf(a, r.socdLastKey)] && !w.b.held[KeyOf(a, Flip(r.socdLastKey))]
  {
    assert IdealAxis(w.s.At(a), w.b, a, w.mode, target);
  }
}
