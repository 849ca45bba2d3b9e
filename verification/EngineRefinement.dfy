/** In an obliging world the arbitration machine refines a simple function of the physical keys, the last
    pressed key and the armed timers. */
module EngineRefinement {
  import opened Keys
  import opened TargetPlatform
  import opened Engine
  import opened EngineInvariant
  import I = Injection
  import T = Timers
  import Safety = InjectionSafety

  // ---- The simple function ----

  /** The logical keys (Pos, Neg) that the specification calls for. */
  function Specified(mode: SocdMode, pos: bool, neg: bool, last: Side, overlapping: bool, posArmed: bool,
        negArmed: bool): (bool, bool) {
    if pos && neg then
      if mode == OFF then (true, true) else (last == Pos || overlapping, last == Neg || overlapping)
    else if pos || neg then (pos, neg)
    else (posArmed, negArmed)
  }

  /** The logical pair is the specified one. */
  predicate SpecifiedPair(r: AxisRecord, mode: SocdMode) {
    (r.pos.logical, r.neg.logical) ==
    Specified(mode, r.pos.phys, r.neg.phys, r.socdLastKey, r.socdReleaseTimerId != 0,
              r.pos.expectedTimerId != 0, r.neg.expectedTimerId != 0)
  }

  /** It stays so: moreover the winner of a conflict awaits no timer. */
  predicate Shape(r: AxisRecord, mode: SocdMode) {
    SpecifiedPair(r, mode) && WinnerFree(r)
  }

  // ---- A boundary where everything succeeds ----

  ghost predicate Obliges(d: I.Dispatch, target: TargetIdentity) {
    IsExpectedTargetActive(d.focus, target) && forall i: nat :: d.accepts(i)
  }

  ghost predicate ObligingEnv(env: Env, target: TargetIdentity) {
    IsExpectedTargetActive(env.nativeFocus, target) && forall i: nat :: Obliges(env.sends(i), target)
  }

  /** Nothing owed, and `target` owns whatever is held. */
  ghost predicate Calm(b: I.Boundary, target: TargetIdentity) {
    Safety.Reachable(b) && !b.releaseOnly && forall slot: I.Slot :: b.held[slot] ==> b.owner[slot] == target
  }

  lemma SlotCalm(b: I.Boundary, slot: I.Slot, down: bool, target: TargetIdentity, d: I.Dispatch)
    requires Calm(b, target) && Obliges(d, target)
    ensures var b' := if down then I.DownForTarget(b, slot, target, d).0 else I.UpForTarget(b, slot, target, d).0;
            && !b'.releaseOnly && b'.held == b.held[slot := down]
            && forall s: I.Slot :: b'.held[s] ==> b'.owner[s] == target
  {
    Safety.ReachableSlot(b, slot);
    if down {
      assert b.held[slot] ==> b.held[slot := true] == b.held;
    } else {
      assert !b.held[slot] ==> b.held[slot := false] == b.held;
      assert d.accepts(2 * slot);
      assert true !in b.pending[slot := false];
    }
  }

  lemma SendCalm(b: I.Boundary, e: Event, target: TargetIdentity, d: I.Dispatch)
    requires Calm(b, target) && Obliges(d, target)
    ensures Calm(Send(b, e, target, d), target) && Send(b, e, target, d).held == b.held[e.k := e.down]
  {
    SlotCalm(b, e.k, e.down, target, d);
    Safety.StaysReachable(b, if e.down then I.KeyDown(e.k) else I.KeyUp(e.k), target, d);
  }

  /** Every delivered batch does exactly what it asks. */
  lemma {:induction false} FlushCalm(b: I.Boundary, batch: Batch, target: TargetIdentity, sends: nat -> I.Dispatch)
    requires Calm(b, target) && forall i: nat :: Obliges(sends(i), target)
    ensures var b' := Flush(b, batch, target, sends);
            Calm(b', target) && forall k: Key :: b'.held[k] == Asked(b.held[k], batch, k)
  {
    match batch
    case Empty =>
    case More(rest, e) =>
      FlushCalm(b, rest, target, sends);
      SendCalm(Flush(b, rest, target, sends), e, target, sends(Size(rest)));
  }

  // ---- Work whose logical keys are exactly what it asks for ----

  ghost predicate ExactSide(w: Work, b: I.Boundary, a: Axis, side: Side, mode: SocdMode, target: TargetIdentity) {
    var s, asked := w.r.Key(side), Asked(b.held[KeyOf(a, side)], w.batch, KeyOf(a, side));
    && s.nativeLogical == (mode == OFF && s.phys)
    && s.logical == (s.nativeLogical || asked)
    && (s.expectedTimerId != 0 ==> asked && s.expectedTimerTarget == target)
  }

  ghost predicate Alone(batch: Batch, b: I.Boundary, o: Axis) {
    && Asked(b.held[KeyOf(o, Pos)], batch, KeyOf(o, Pos)) == b.held[KeyOf(o, Pos)]
    && Asked(b.held[KeyOf(o, Neg)], batch, KeyOf(o, Neg)) == b.held[KeyOf(o, Neg)]
  }

  ghost predicate Exact(w: Work, b: I.Boundary, a: Axis, mode: SocdMode, target: TargetIdentity) {
    ExactSide(w, b, a, Pos, mode, target) && ExactSide(w, b, a, Neg, mode, target) && Alone(w.batch, b, OtherAxis(a))
  }

  lemma EmitExact(w: Work, a: Axis, side: Side, down: bool, b: I.Boundary, mode: SocdMode, target: TargetIdentity)
    requires Exact(w, b, a, mode, target) && !w.r.Key(side).nativeLogical
             && (!down ==> w.r.Key(side).expectedTimerId == 0)
    ensures Exact(Emit(w, a, side, down), b, a, mode, target)
  {
  }

  lemma HoldExact(w: Work, a: Axis, side: Side, b: I.Boundary, mode: SocdMode, target: TargetIdentity)
    requires Exact(w, b, a, mode, target) && w.r.Key(side).phys
    ensures Exact(Hold(w, mode, a, side), b, a, mode, target) && Hold(w, mode, a, side).r.Key(side).logical
  {
    if !w.r.Key(side).logical { EmitExact(w, a, side, true, b, mode, target); }
  }

  lemma OverlapExact(w: Work, a: Axis, onPress: bool, target: TargetIdentity, env: Env, b: I.Boundary, mode: SocdMode)
    requires Exact(w, b, a, mode, target) && w.r.socdReleaseTimerId == 0 && w.r.Resolved() == Conflict
    ensures var w' := EnterOverlap(w, mode, a, onPress, target, env);
            && Exact(w', b, a, mode, target) && w'.r.Resolved() == Conflict
            && w'.r.socdLastKey == w.r.socdLastKey && w'.r.axisState == w.r.axisState
            && (w'.r.socdReleaseTimerId != 0 ==> mode == HUMANIZED && w'.r.Key(Flip(w.r.socdLastKey)).logical)
            && (w'.r.socdReleaseTimerId == 0 ==> w'.r.Key(Flip(w.r.socdLastKey)).expectedTimerId == 0)
            && WinnerFree(w'.r)
  {
    var w1 := DisarmAndForget(DisarmAndForget(w, a, Pos), a, Neg);
    assert Exact(w1, b, a, mode, target);
  }

  lemma ConflictExact(w: Work, a: Axis, onPress: bool, target: TargetIdentity, env: Env, b: I.Boundary, mode: SocdMode)
    requires Exact(w, b, a, mode, target) && w.r.socdReleaseTimerId == 0 && w.r.Resolved() == Conflict
    ensures var w' := EnterConflict(w, mode, a, onPress, target, env);
            Exact(w', b, a, mode, target) && Shape(w'.r, mode) && w'.r.axisState == w.r.axisState
              && w'.r.Resolved() == Conflict
  {
    OverlapExact(w, a, onPress, target, env, b, mode);
    var w1 := EnterOverlap(w, mode, a, onPress, target, env);
    if mode != OFF { PickWinnerExact(w1, a, w.r.socdLastKey, b, mode, target); }
  }

  lemma PickWinnerExact(w: Work, a: Axis, winner: Side, b: I.Boundary, mode: SocdMode, target: TargetIdentity)
    requires Exact(w, b, a, mode, target) && mode != OFF && w.r.Resolved() == Conflict && w.r.socdLastKey == winner
    requires WinnerFree(w.r)
    requires if w.r.socdReleaseTimerId != 0 then w.r.Key(Flip(winner)).logical
             else w.r.Key(Flip(winner)).expectedTimerId == 0
    ensures var w' := Press(if w.r.socdReleaseTimerId != 0 then w else Release(w, a, Flip(winner)), a, winner);
            Exact(w', b, a, mode, target) && Shape(w'.r, mode) && w'.r.axisState == w.r.axisState
              && w'.r.Resolved() == Conflict
  {
    if w.r.socdReleaseTimerId == 0 { EmitExact(w, a, Flip(winner), false, b, mode, target); }
    var w2 := if w.r.socdReleaseTimerId != 0 then w else Release(w, a, Flip(winner));
    assert Exact(w2, b, a, mode, target);
    EmitExact(w2, a, winner, true, b, mode, target);
  }

  lemma StaleExact(w: Work, a: Axis, opp: Side, b: I.Boundary, mode: SocdMode, target: TargetIdentity)
    requires Exact(w, b, a, mode, target) && !w.r.Key(opp).phys
    ensures var w' := CancelStaleCounterStrafe(w, a, opp);
            Exact(w', b, a, mode, target) && !w'.r.Key(opp).logical
            && w'.r.Resolved() == w.r.Resolved() && w'.r.axisState == w.r.axisState
  {
    var w1 := Disarm(w, a, opp);
    assert Exact(w1, b, a, mode, target);
    EmitExact(w1, a, opp, false, b, mode, target);
  }

  lemma SurvivorExact(w: Work, a: Axis, side: Side, b: I.Boundary, mode: SocdMode, target: TargetIdentity)
    requires Exact(w, b, a, mode, target) && w.r.Key(side).phys && !w.r.Key(Flip(side)).phys
             && !w.r.Key(Flip(side)).logical
    ensures var w' := Hold(w, mode, a, side);
            Exact(w', b, a, mode, target) && Shape(w'.r, mode) && !w'.r.Key(Flip(side)).logical
            && w'.r.Resolved() == w.r.Resolved() && w'.r.axisState == w.r.axisState
  {
    HoldExact(w, a, side, b, mode, target);
  }

  lemma ResolveExact(w: Work, a: Axis, onPress: bool, target: TargetIdentity, env: Env, b: I.Boundary, mode: SocdMode)
    requires Exact(w, b, a, mode, target) && w.r.socdReleaseTimerId == 0 && w.r.axisState != w.r.Resolved()
    requires w.r.Resolved() == None ==> Shape(w.r, mode)
    requires w.r.axisState == Conflict && w.r.Resolved() == Positive ==> !w.r.neg.logical
    requires w.r.axisState == Conflict && w.r.Resolved() == Negative ==> !w.r.pos.logical
    ensures var w' := ResolveAxis(w, mode, a, onPress, target, env);
            && Exact(w', b, a, mode, target)
            && (w'.r.Resolved() == Conflict || w'.r.Resolved() == None || w.r.axisState == Conflict ==>
                 Shape(w'.r, mode))
            && (w'.r.Resolved() == Positive ==> !w'.r.neg.logical)
                 && (w'.r.Resolved() == Negative ==> !w'.r.pos.logical)
            && w'.r.Resolved() == w.r.Resolved() == w'.r.axisState
  {
    var prev, next := w.r.axisState, w.r.Resolved();
    var w1 := TurnAxis(w, a, next);
    assert w1 == w.(r := w.r.(axisState := next));
    assert Exact(w1, b, a, mode, target);
    if next == Conflict {
      ConflictExact(w1, a, onPress, target, env, b, mode);
    } else if next != None {
      var down := if next == Positive then Pos else Neg;
      if prev == Conflict {
        SurvivorExact(w1, a, down, b, mode, target);
      } else {
        StaleExact(w1, a, Flip(down), b, mode, target);
      }
    }
  }

  lemma RoutePressExact(w: Work, a: Axis, side: Side, target: TargetIdentity, env: Env, b: I.Boundary, mode: SocdMode)
    requires Exact(w, b, a, mode, target) && w.r.socdReleaseTimerId == 0 && w.r.Key(side).phys
    requires w.r.axisState != w.r.Resolved() && w.r.axisState != Conflict
    ensures var w' := RoutePress(w, mode, a, side, target, env);
            Exact(w', b, a, mode, target) && Shape(w'.r, mode) && w'.r.axisState == w'.r.Resolved()
  {
    ResolveExact(w, a, true, target, env, b, mode);
    var w1 := ResolveAxis(w, mode, a, true, target, env);
    if w1.r.axisState != Conflict { HoldExact(w1, a, side, b, mode, target); }
  }

  // ---- Releases ----

  lemma StrafeExact(w: Work, a: Axis, side: Side, suspended: bool, target: TargetIdentity, env: Env, b: I.Boundary,
        mode: SocdMode)
    requires Exact(w, b, a, mode, target)
    ensures var (strafed, w') := AutoCounterStrafe(w, a, side, suspended, target, env);
            && (!strafed ==> w'.r == w.r && w'.batch == w.batch)
            && (strafed ==>
                  && Exact(w', b, a, mode, target) && Shape(w'.r, mode) && SamePlan(w.r, w'.r)
                  && w.r.Resolved() == None)
  {
    hide ArmBrake, ExactSide, Alone, Shape;
    var rel := if env.reversed then Flip(side) else side;
    if !w.r.pos.phys && !w.r.neg.phys {
      match AdmitBrake(w, a, rel, env)
      case Refused(t) =>
      case Admitted(t, overlapId, counterId) => ArmExact(w, t, a, rel, overlapId, counterId, target, b, mode);
    }
  }

  lemma PressCounterExact(w: Work, a: Axis, counter: Side, counterId: nat, target: TargetIdentity, b: I.Boundary,
        mode: SocdMode)
    requires Exact(w, b, a, mode, target) && !w.r.pos.phys && !w.r.neg.phys && counterId != 0
    requires w.r.Key(Flip(counter)).logical == (w.r.Key(Flip(counter)).expectedTimerId != 0)
    ensures var w' := SetTimerFor(Press(w, a, counter), counter, counterId, target);
            Exact(w', b, a, mode, target) && Shape(w'.r, mode) && SamePlan(w.r, w'.r)
  {
    EmitExact(w, a, counter, true, b, mode, target);
  }

  lemma ArmExact(w: Work, t: T.Timers, a: Axis, rel: Side, overlapId: nat, counterId: nat, target: TargetIdentity,
                 b: I.Boundary, mode: SocdMode)
    requires Exact(w, b, a, mode, target) && !w.r.pos.phys && !w.r.neg.phys
    requires counterId != 0 && (overlapId != 0 ==> w.r.Key(rel).logical)
    ensures var w' := ArmBrake(w.(t := t), a, rel, overlapId, counterId, target);
            Exact(w', b, a, mode, target) && Shape(w'.r, mode) && SamePlan(w.r, w'.r)
  {
    var w1 := if overlapId == 0 then SetTimer(w.(t := t), rel, 0) else SetTimerFor(w.(t := t), rel, overlapId, target);
    assert Exact(w1, b, a, mode, target);
    if overlapId == 0 { EmitExact(w1, a, rel, false, b, mode, target); }
    var w2 := if overlapId == 0 then Release(w1, a, rel) else w1;
    assert Exact(w2, b, a, mode, target);
    PressCounterExact(w2, a, Flip(rel), counterId, target, b, mode);
  }

  /** What is known of the axis when a routed release starts to emit. */
  ghost predicate Released(r: AxisRecord, side: Side) {
    && r.socdReleaseTimerId == 0 && !r.Key(side).phys
    && (if r.Key(Flip(side)).phys then r.axisState == Conflict && r.Key(side).expectedTimerId == 0
        else r.axisState == (if side == Pos then Positive else Negative)
             && r.Key(Flip(side)).expectedTimerId == 0 && !r.Key(Flip(side)).logical)
  }

  lemma RouteReleaseExact(w: Work, a: Axis, side: Side, suspended: bool, target: TargetIdentity, env: Env,
        b: I.Boundary, mode: SocdMode)
    requires Exact(w, b, a, mode, target) && Released(w.r, side)
    ensures var w' := RouteRelease(w, mode, a, side, suspended, target, env);
            Exact(w', b, a, mode, target) && Shape(w'.r, mode) && w'.r.axisState == w'.r.Resolved()
  {
    var pending := BrakePending(w.r, side);
    StrafeExact(w, a, side, suspended, target, env, b, mode);
    var (strafed, w1) :=
      if !pending && !w.r.Key(Flip(side)).phys then AutoCounterStrafe(w, a, side, suspended, target, env)
                         else (pending, w);
    assert Exact(w1, b, a, mode, target);
    if !strafed && w1.r.Key(side).logical { EmitExact(w1, a, side, false, b, mode, target); }
    ResolveExact(if strafed then w1 else Release(w1, a, side), a, false, target, env, b, mode);
  }

  // ---- Expiry ----

  /** `before` are the timers before the expiry was popped. */
  lemma ExpireExact(w: Work, before: T.Timers, a: Axis, side: Side, suspended: bool, target: TargetIdentity,
        b: I.Boundary, mode: SocdMode)
    requires Exact(w, b, a, mode, target) && Shape(w.r, mode) && w.r.axisState == w.r.Resolved()
    requires RecordOk(w.r, mode, before, a)
    requires w.r.Key(side).expectedTimerId != 0 && !suspended
    ensures var w' := ExpireTimer(w, mode, a, side, suspended);
            Exact(w', b, a, mode, target) && Shape(w'.r, mode) && w'.r.axisState == w'.r.Resolved()
  {
    var w1 := SetTimerFor(w, side, 0, NO_TARGET);
    assert Exact(w1, b, a, mode, target);
    if !w.r.Key(side).nativeLogical { EmitExact(w1, a, side, false, b, mode, target); }
  }

  // ---- One axis between handlers ----

  /** The record of an axis whose native keys, held keys and timers all belong to `target`. */
  ghost predicate Owned(r: AxisRecord, b: I.Boundary, a: Axis, side: Side, target: TargetIdentity) {
    r.Key(side).expectedTimerId != 0 ==> b.held[KeyOf(a, side)] && r.Key(side).expectedTimerTarget == target
  }

  ghost predicate IdealAxis(r: AxisRecord, b: I.Boundary, a: Axis, mode: SocdMode, target: TargetIdentity) {
    Exact(Work(r, T.STARTED, Empty), b, a, mode, target) && Shape(r, mode) && r.axisState == r.Resolved()
  }

  lemma CommitExact(w: Work, b: I.Boundary, b': I.Boundary, a: Axis, mode: SocdMode, target: TargetIdentity)
    requires ExactSide(w, b, a, Pos, mode, target) && ExactSide(w, b, a, Neg, mode, target)
    requires forall k: Key :: b'.held[k] == Asked(b.held[k], w.batch, k)
    ensures CommitAxis(w.r, b', a) == w.r
    ensures Exact(Work(w.r, T.STARTED, Empty), b', a, mode, target)
  {
    assert b'.held[KeyOf(a, Pos)] == Asked(b.held[KeyOf(a, Pos)], w.batch, KeyOf(a, Pos));
    assert b'.held[KeyOf(a, Neg)] == Asked(b.held[KeyOf(a, Neg)], w.batch, KeyOf(a, Neg));
  }

  lemma AloneExact(r: AxisRecord, batch: Batch, b: I.Boundary, o: Axis, mode: SocdMode, target: TargetIdentity)
    requires IdealAxis(r, b, o, mode, target) && Alone(batch, b, o)
    ensures ExactSide(Work(r, T.STARTED, batch), b, o, Pos, mode, target)
            && ExactSide(Work(r, T.STARTED, batch), b, o, Neg, mode, target)
  {
  }
}
