/** What the game holds after each handler, in every state the invariant allows (suspended, waiting for a rebuild or
    arbitrated), once the handler's sends are accepted and no release is owed. */
module HandlerEffects {
  import opened Keys
  import opened TargetPlatform
  import opened Engine
  import opened EngineInvariant
  import opened EngineSafety
  import opened EngineReconcile
  import opened EngineRuns
  import opened EngineRefinement
  import opened EngineIdealRuns
  import opened BrakeLife
  import I = Injection
  import T = Timers

  // ---- What is asked for is what is logically down ----

  lemma EmitAsks(w: Work, b: I.Boundary, a: Axis, side: Side)
    requires AsksLogical(w, b, a)
    ensures AsksLogical(Press(w, a, side), b, a) && AsksLogical(Release(w, a, side), b, a)
  {
  }

  /** Timers and plans do not matter. */
  ghost predicate SameEdges(w: Work, w': Work) {
    w'.batch == w.batch && w'.r.pos.logical == w.r.pos.logical && w'.r.neg.logical == w.r.neg.logical
  }

  lemma SameAsks(w: Work, w': Work, b: I.Boundary, a: Axis)
    requires AsksLogical(w, b, a) && SameEdges(w, w')
    ensures AsksLogical(w', b, a)
  {
  }

  lemma OverlapSame(w: Work, mode: SocdMode, a: Axis, onPress: bool, target: TargetIdentity, env: Env)
    ensures SameEdges(w, EnterOverlap(w, mode, a, onPress, target, env))
  {
  }

  lemma TurnSame(w: Work, a: Axis, next: AxisState)
    ensures SameEdges(w, TurnAxis(w, a, next))
  {
  }

  lemma ConflictAsks(w: Work, b: I.Boundary, mode: SocdMode, a: Axis, onPress: bool, target: TargetIdentity, env: Env)
    requires AsksLogical(w, b, a)
    ensures AsksLogical(EnterConflict(w, mode, a, onPress, target, env), b, a)
  {
    hide EnterOverlap, AsksLogical, Press, Release;
    var w1, winner := EnterOverlap(w, mode, a, onPress, target, env), w.r.socdLastKey;
    OverlapSame(w, mode, a, onPress, target, env);
    SameAsks(w, w1, b, a);
    EmitAsks(w1, b, a, Flip(winner));
    EmitAsks(if w1.r.socdReleaseTimerId != 0 then w1 else Release(w1, a, Flip(winner)), b, a, winner);
  }

  lemma ResolveAsks(w: Work, b: I.Boundary, mode: SocdMode, a: Axis, onPress: bool, target: TargetIdentity, env: Env)
    requires AsksLogical(w, b, a) && mode != OFF
    ensures AsksLogical(ResolveAxis(w, mode, a, onPress, target, env), b, a)
  {
    hide TurnAxis, EnterConflict, AsksLogical, Press, Release;
    var next := w.r.Resolved();
    var w1 := TurnAxis(w, a, next);
    TurnSame(w, a, next);
    SameAsks(w, w1, b, a);
    if next == Conflict {
      ConflictAsks(w1, b, mode, a, onPress, target, env);
    } else if next != None {
      var down := if next == Positive then Pos else Neg;
      EmitAsks(w1, b, a, down);
      var w2 := Disarm(w1, a, Flip(down));
      SameAsks(w1, w2, b, a);
      EmitAsks(w2, b, a, Flip(down));
    }
  }

  /** Delivered and accepted, such work leaves held on its axis what is logically down, and the rest as it was. */
  lemma FinishHolds(w: World, s: State, a: Axis, wk: Work, target: TargetIdentity, env: Env)
    requires Calm(w.b, target) && ObligingEnv(env, target)
    requires AsksLogical(wk, w.b, a) && Untouched(wk.batch, OtherAxis(a))
    ensures var w' := FinishAxis(w, s, a, wk, target, env);
            && w'.b.held[KeyOf(a, Pos)] == wk.r.pos.logical && w'.b.held[KeyOf(a, Neg)] == wk.r.neg.logical
            && forall j: Key :: KeyAxis(j) != a ==> w'.b.held[j] == w.b.held[j]
  {
    hide Flush, Calm, Obliges;
    FlushCalm(w.b, wk.batch, target, env.sends);
    UntouchedAsks(w.b, wk.batch, KeyOf(OtherAxis(a), Pos));
    UntouchedAsks(w.b, wk.batch, KeyOf(OtherAxis(a), Neg));
  }

  // ---- A press ----

  lemma ConflictLogical(w: Work, mode: SocdMode, a: Axis, onPress: bool, target: TargetIdentity, env: Env)
    requires w.r.socdReleaseTimerId == 0 && w.t.nextId > 0 && mode != OFF
    ensures var r', winner := EnterConflict(w, mode, a, onPress, target, env).r, w.r.socdLastKey;
            && r'.Key(winner).logical
            && r'.Key(Flip(winner)).logical ==
               (w.r.Key(Flip(winner)).logical && mode == HUMANIZED && onPress && env.admitSocd)
  {
  }

  lemma RoutePressLogical(w: Work, mode: SocdMode, a: Axis, side: Side, target: TargetIdentity, env: Env)
    requires w.r.socdReleaseTimerId == 0 && w.t.nextId > 0 && mode != OFF && w.r.Key(side).phys
    requires w.r.socdLastKey == side && w.r.axisState != w.r.Resolved() && w.r.axisState != Conflict
    ensures var r', o := RoutePress(w, mode, a, side, target, env).r, w.r.Key(Flip(side));
            && r'.Key(side).logical
            && r'.Key(Flip(side)).logical == (o.logical && o.phys && mode == HUMANIZED && env.admitSocd)
  {
    hide EnterConflict;
    if w.r.Resolved() == Conflict {
      ConflictLogical(TurnAxis(w, a, Conflict), mode, a, true, target, env);
      ConflictStays(TurnAxis(w, a, Conflict), mode, a, true, target, env);
    }
  }

  lemma ConflictStays(w: Work, mode: SocdMode, a: Axis, onPress: bool, target: TargetIdentity, env: Env)
    ensures EnterConflict(w, mode, a, onPress, target, env).r.axisState == w.r.axisState
  {
  }

  /** Main result: with the cleaner on, a routed press of a key that was up holds it, and of the opposite key keeps
      hold only for a HUMANIZED overlap: if that key is physically down, was held, and its timer is admitted. */
  lemma PressHolds(w: World, k: Key, target: TargetIdentity, env: Env)
    requires Inv(w) && Calm(w.b, target) && ObligingEnv(env, target) && w.mode != OFF && !w.s.Key(k).phys
    ensures var w', o := HandleKeyDown(w, k, true, target, env), Opposite(k);
            && w'.b.held[k]
            && w'.b.held[o] == (w.b.held[o] && w.s.Key(o).phys && w.mode == HUMANIZED && env.admitSocd)
            && forall j: Key :: j != k && j != o ==> w'.b.held[j] == w.b.held[j]
  {
    hide Inv, RoutePress, FinishAxis, AxisOk, TrackPress, AsksLogical, Calm, Obliges;
    var a, side := KeyAxis(k), SideOf(k);
    var tracked := TrackPress(w.s.At(a), w.t, a, side);
    InvParts(w, a);
    PressInOrder(w, k, target, env);
    TrackIfOffAt(w, w.s.With(a, tracked.r), a, target, env);
    PressReady(w.s.At(a), w.mode, w.t, w.b, a, side);
    PressTracked(w.s.At(a), w.t, w.mode, w.b, a, side);
    RoutePressLogical(tracked, w.mode, a, side, target, env);
    RoutePressAsks(tracked, w.b, w.mode, a, side, target, env);
    assert PressWork(w, k, target, env) == RoutePress(tracked, w.mode, a, side, target, env);
    FinishHolds(w, PressState(w, k, target, env), a, PressWork(w, k, target, env), target, env);
  }

  lemma PressTracked(r: AxisRecord, t: T.Timers, mode: SocdMode, b: I.Boundary, a: Axis, side: Side)
    requires AxisOk(r, mode, t, b, a) && mode != OFF
    ensures var w := TrackPress(r, t, a, side);
            && AsksLogical(w, b, a) && w.r.socdLastKey == side && w.t.nextId == t.nextId
            && w.r.Key(Flip(side)) == r.Key(Flip(side)) && r.Key(Flip(side)).logical == b.held[KeyOf(a, Flip(side))]
  {
  }

  lemma RoutePressAsks(w: Work, b: I.Boundary, mode: SocdMode, a: Axis, side: Side, target: TargetIdentity, env: Env)
    requires AsksLogical(w, b, a) && mode != OFF
    ensures AsksLogical(RoutePress(w, mode, a, side, target, env), b, a)
  {
    hide ResolveAxis, AsksLogical, Press;
    ResolveAsks(w, b, mode, a, true, target, env);
    EmitAsks(ResolveAxis(w, mode, a, true, target, env), b, a, side);
  }

  lemma InvParts(w: World, a: Axis)
    requires Inv(w)
    ensures AxisOk(w.s.At(a), w.mode, w.t, w.b, a) && TimersOk(w.t)
  {
  }

  // ---- A release ----

  lemma ArmAsks(w: Work, b: I.Boundary, a: Axis, rel: Side, overlapId: nat, counterId: nat, target: TargetIdentity)
    requires AsksLogical(w, b, a)
    ensures AsksLogical(ArmBrake(w, a, rel, overlapId, counterId, target), b, a)
  {
    hide AsksLogical, Press, Release;
    var w0 := if overlapId == 0 then SetTimer(w, rel, 0) else SetTimerFor(w, rel, overlapId, target);
    SameAsks(w, w0, b, a);
    EmitAsks(w0, b, a, rel);
    var w1 := if overlapId == 0 then Release(w0, a, rel) else w0;
    EmitAsks(w1, b, a, Flip(rel));
    SameAsks(Press(w1, a, Flip(rel)), ArmBrake(w, a, rel, overlapId, counterId, target), b, a);
  }

  lemma ArmLogical(w: Work, a: Axis, rel: Side, overlapId: nat, counterId: nat, target: TargetIdentity)
    ensures var r' := ArmBrake(w, a, rel, overlapId, counterId, target).r;
            && r'.Key(Flip(rel)).logical && r'.Key(rel).logical == (w.r.Key(rel).logical && overlapId != 0)
            && r'.axisState == w.r.axisState
  {
  }

  lemma StrafeLogical(w: Work, b: I.Boundary, a: Axis, side: Side, suspended: bool, target: TargetIdentity, env: Env)
    requires AsksLogical(w, b, a) && !w.r.pos.phys && !w.r.neg.phys && w.t.nextId > 0
    ensures var (strafed, w') := AutoCounterStrafe(w, a, side, suspended, target, env);
            var rel := if env.reversed then Flip(side) else side;
            && AsksLogical(w', b, a) && w'.r.axisState == w.r.axisState
            && strafed == (!suspended && BrakeFits(w.r.Key(rel).logical, target, env))
            && (if strafed
                then w'.r.Key(Flip(rel)).logical && w'.r.Key(rel).logical == (Overlap(w.r.Key(rel).logical, env) > 0)
                else SameEdges(w, w'))
  {
    hide AdmitBrake, ArmBrake, AsksLogical;
    var rel := if env.reversed then Flip(side) else side;
    AdmitsAll(w, a, rel, env);
    match AdmitBrake(w, a, rel, env)
    case Refused(t) => SameAsks(w, w.(t := t), b, a);
    case Admitted(t, overlapId, counterId) =>
      SameAsks(w, w.(t := t), b, a);
      ArmAsks(w.(t := t), b, a, rel, overlapId, counterId, target);
      ArmLogical(w.(t := t), a, rel, overlapId, counterId, target);
  }

  lemma RouteReleaseAsks(w: Work, b: I.Boundary, mode: SocdMode, a: Axis, side: Side, suspended: bool,
        target: TargetIdentity, env: Env)
    requires AsksLogical(w, b, a) && mode != OFF && !w.r.Key(side).phys && w.t.nextId > 0
    ensures AsksLogical(RouteRelease(w, mode, a, side, suspended, target, env), b, a)
  {
    hide ResolveAxis, AutoCounterStrafe, AsksLogical, Release;
    var pending := BrakePending(w.r, side);
    if !pending && !w.r.Key(Flip(side)).phys { StrafeLogical(w, b, a, side, suspended, target, env); }
    var (strafed, w1) :=
      if !pending && !w.r.Key(Flip(side)).phys then AutoCounterStrafe(w, a, side, suspended, target, env)
                         else (pending, w);
    EmitAsks(w1, b, a, side);
    ResolveAsks(if strafed then w1 else Release(w1, a, side), b, mode, a, false, target, env);
  }

  /** What a release leaves logically down while the opposite key is down or a brake holds the key. */
  lemma KeptReleaseLogical(w: Work, mode: SocdMode, a: Axis, side: Side, suspended: bool, target: TargetIdentity,
        env: Env)
    requires mode != OFF && !w.r.Key(side).phys && w.r.socdReleaseTimerId == 0
    requires w.r.Key(Flip(side)).phys || BrakePending(w.r, side)
    requires if w.r.Key(Flip(side)).phys then w.r.axisState == None || w.r.axisState == Conflict
             else w.r.axisState != Conflict
    requires BrakePending(w.r, side) && w.r.Key(Flip(side)).phys ==> w.r.axisState == Conflict
    ensures var r' := RouteRelease(w, mode, a, side, suspended, target, env).r;
            && r'.Key(side).logical == BrakePending(w.r, side)
            && r'.Key(Flip(side)).logical == (w.r.Key(Flip(side)).logical || w.r.axisState == Conflict)
  {
    hide AutoCounterStrafe;
  }

  /** And otherwise. */
  lemma LastReleaseLogical(w: Work, b: I.Boundary, mode: SocdMode, a: Axis, side: Side, suspended: bool,
        target: TargetIdentity, env: Env)
    requires AsksLogical(w, b, a) && mode != OFF && !w.r.pos.phys && !w.r.neg.phys && w.r.socdReleaseTimerId == 0
    requires !BrakePending(w.r, side) && w.t.nextId > 0
    ensures var r' := RouteRelease(w, mode, a, side, suspended, target, env).r;
            var rel := if env.reversed then Flip(side) else side;
            if !suspended && BrakeFits(w.r.Key(rel).logical, target, env)
            then r'.Key(Flip(rel)).logical && r'.Key(rel).logical == (Overlap(w.r.Key(rel).logical, env) > 0)
            else !r'.Key(side).logical && r'.Key(Flip(side)).logical == w.r.Key(Flip(side)).logical
  {
    hide AutoCounterStrafe, AsksLogical, BrakeFits, Overlap, ResolveAxis;
    StrafeLogical(w, b, a, side, suspended, target, env);
    StrafeArms(w, a, side, suspended, target, env);
    var (strafed, w1) := AutoCounterStrafe(w, a, side, suspended, target, env);
    IdleResolve(if strafed then w1 else Release(w1, a, side), mode, a, target, env);
  }

  lemma ReleaseTracked(r: AxisRecord, t: T.Timers, mode: SocdMode, b: I.Boundary, a: Axis, side: Side)
    requires AxisOk(r, mode, t, b, a) && TimersOk(t) && r.Key(side).phys && mode != OFF
    ensures var w := TrackRelease(r, t, a, side);
            && AsksLogical(w, b, a) && w.t.nextId > 0
            && w.r.Key(side).logical == b.held[KeyOf(a, side)]
            && w.r.Key(Flip(side)).logical == b.held[KeyOf(a, Flip(side))]
            && BrakePending(w.r, side) == BrakeHolds(r, b, a, side)
            && (BrakePending(w.r, side) && w.r.Key(Flip(side)).phys ==> w.r.axisState == Conflict)
  {
  }

  /** The key is held until its brake expires. */
  predicate BrakeHolds(r: AxisRecord, b: I.Boundary, a: Axis, side: Side) {
    b.held[KeyOf(a, side)] && r.Key(side).expectedTimerId != 0 && r.socdReleaseTimerId == 0
  }

  /** Main result: with the cleaner on, a routed release lets its key go unless a brake still holds it. If the opposite
      key is down, that key is held again exactly if the two were in conflict. If it was the last key of the axis, a
      brake that fits holds the counter key, and the key along the motion for its overlap; without one the opposite
      key stays as it was. */
  lemma ReleaseHolds(w: World, k: Key, target: TargetIdentity, env: Env)
    requires Inv(w) && Calm(w.b, target) && ObligingEnv(env, target) && w.mode != OFF && w.s.Key(k).phys
    ensures var w', r, o := HandleKeyUp(w, k, true, target, env), w.s.At(KeyAxis(k)), Opposite(k);
            var along, braked := if env.reversed then o else k, BrakeHolds(r, w.b, KeyAxis(k), SideOf(k));
            && (forall j: Key :: j != k && j != o ==> w'.b.held[j] == w.b.held[j])
            && if w.s.Key(o).phys || braked then
                 w'.b.held[k] == braked && w'.b.held[o] == (w.b.held[o] || r.axisState == Conflict)
               else if !w.s.suspended && BrakeFits(w.b.held[along], target, env) then
                 w'.b.held[Opposite(along)] && w'.b.held[along] == (Overlap(w.b.held[along], env) > 0)
               else !w'.b.held[k] && w'.b.held[o] == w.b.held[o]
  {
    hide Inv, RouteRelease, FinishAxis, AxisOk, TrackRelease, AsksLogical, Calm, Obliges, BrakeFits;
    hide Overlap, BrakeHolds;
    var a, side := KeyAxis(k), SideOf(k);
    var tracked := TrackRelease(w.s.At(a), w.t, a, side);
    InvParts(w, a);
    ReleaseInOrder(w, k, target, env);
    TrackIfOffAt(w, w.s.With(a, tracked.r), a, target, env);
    ReleaseReady(w.s.At(a), w.mode, w.t, w.b, a, side);
    ReleaseTracked(w.s.At(a), w.t, w.mode, w.b, a, side);
    RouteReleaseAsks(tracked, w.b, w.mode, a, side, w.s.suspended, target, env);
    assert ReleaseWork(w, k, target, env) == RouteRelease(tracked, w.mode, a, side, w.s.suspended, target, env);
    if tracked.r.Key(Flip(side)).phys || BrakePending(tracked.r, side) {
      KeptReleaseLogical(tracked, w.mode, a, side, w.s.suspended, target, env);
    } else {
      LastReleaseLogical(tracked, w.b, w.mode, a, side, w.s.suspended, target, env);
    }
    FinishHolds(w, ReleaseState(w, k, target, env), a, ReleaseWork(w, k, target, env), target, env);
  }

  // ---- An expiry ----

  /** Main result: with its sends accepted, an awaited expiry does exactly this in every state the invariant allows,
      suspended or not: an overlap releases its key unless the engine is suspended; a brake releases its key and
      gives way to the opposite key if that is physically down, unless its own key is down by then. */
  lemma ExpiryHolds(w: World, k: Key, target: TargetIdentity, env: Env)
    requires Inv(w) && Calm(w.b, target) && ObligingEnv(env, target)
    requires w.t.queue != [] && w.t.queue[0] == T.Expired(k, w.s.Key(k).expectedTimerId)
             && w.s.Key(k).expectedTimerId != 0 && w.s.Key(k).expectedTimerTarget == target
    ensures var w', o := DrainExpired(w, env), Opposite(k);
            var overlaps := w.s.At(KeyAxis(k)).socdReleaseTimerId == w.s.Key(k).expectedTimerId;
            && w'.s.Key(k).expectedTimerId == 0
            && w'.b.held[k] == (w.b.held[k] && (if overlaps then w.s.suspended else w.s.Key(k).phys))
            && w'.b.held[o] == (w.b.held[o] || (!w.s.Key(k).phys && w.s.Key(o).phys && !w.s.Key(o).nativeLogical))
            && forall j: Key :: j != k && j != o ==> w'.b.held[j] == w.b.held[j]
  {
    hide Inv, FinishAxis, ExpireTimer, AxisOk, Flush;
    var a, w1 := KeyAxis(k), w.(t := T.Pop(w.t));
    var wk := Work(w.s.At(a), w1.t, Empty);
    assert AxisOk(w.s.At(a), w.mode, w.t, w.b, a) by { InvParts(w, a); }
    ExpiryWorkIs(wk, w.mode, a, SideOf(k), w.s.suspended, w.t, w.b);
    var batch := ExpireTimer(wk, w.mode, a, SideOf(k), w.s.suspended).batch;
    FinishAt(w1, w.s, a, ExpireTimer(wk, w.mode, a, SideOf(k), w.s.suspended), target, env);
    FlushCalm(w.b, batch, target, env.sends);
    assert forall j: Key :: Flush(w.b, batch, target, env.sends).held[j] == Asked(w.b.held[j], batch, j);
  }

  lemma ExpiryWorkIs(w: Work, mode: SocdMode, a: Axis, side: Side, suspended: bool, t: T.Timers, b: I.Boundary)
    requires w.batch == Empty && w.r.Key(side).expectedTimerId != 0 && AxisOk(w.r, mode, t, b, a)
    ensures var w', k, o := ExpireTimer(w, mode, a, side, suspended), w.r.Key(side), w.r.Key(Flip(side));
            var held, heldO := b.held[KeyOf(a, side)], b.held[KeyOf(a, Flip(side))];
            var overlaps := w.r.socdReleaseTimerId == k.expectedTimerId;
            && w'.r.Key(side).expectedTimerId == 0
            && Asked(held, w'.batch, KeyOf(a, side)) == (held && (if overlaps then suspended else k.phys))
            && Asked(heldO, w'.batch, KeyOf(a, Flip(side))) == (heldO || (!k.phys && o.phys && !o.nativeLogical))
            && forall j: Key :: KeyAxis(j) != a ==> Asked(b.held[j], w'.batch, j) == b.held[j]
  {
  }

  // ---- A rebuild ----

  /** What a rebuild wishes to hold, of what it is shown and of what is held: a key shown down, except the loser of a
      conflict without a running overlap, and a key held by a brake while both are shown up. */
  predicate Wished(w: World, physical: Bools4, k: Key) {
    var r, o := w.s.At(KeyAxis(k)), Opposite(k);
    if physical[k] then !physical[o] || r.socdLastKey == SideOf(k) || r.socdReleaseTimerId != 0
    else !physical[o] && BrakeHolds(r, w.b, KeyAxis(k), SideOf(k))
  }

  lemma ReconciledAsks(r: AxisRecord, t: T.Timers, mode: SocdMode, b: I.Boundary, a: Axis, pos: bool, neg: bool,
        t': T.Timers)
    requires AxisOk(r, mode, t, b, a) && mode != OFF
    ensures var w := ReconcileAxis(Work(Shown(r, pos, neg), t', Empty), a);
            && w.batch == Empty && AsksLogical(w, b, a)
            && Desired(w.r, Pos) == (if pos then !neg || r.socdLastKey == Pos || r.socdReleaseTimerId != 0
                                     else !neg && BrakeHolds(r, b, a, Pos))
            && Desired(w.r, Neg) == (if neg then !pos || r.socdLastKey == Neg || r.socdReleaseTimerId != 0
                                     else !pos && BrakeHolds(r, b, a, Neg))
  {
  }

  lemma SettledLogical(r: AxisRecord)
    ensures var r' := PassAxis(r, true, true, true, true);
            r'.pos.logical == Desired(r, Pos) && r'.neg.logical == Desired(r, Neg)
  {
  }

  lemma TakenIs(w: World, physical: Bools4)
    requires Inv(w) && w.mode != OFF
    ensures var taken := TakenOver(w, physical);
            && AsksLogical(taken.At(X), w.b, X) && AsksLogical(taken.At(Y), w.b, Y)
            && Desired(taken.s.x, Pos) == Wished(w, physical, D) && Desired(taken.s.x, Neg) == Wished(w, physical, A)
            && Desired(taken.s.y, Pos) == Wished(w, physical, W) && Desired(taken.s.y, Neg) == Wished(w, physical, S)
  {
    hide Inv, AxisOk, AsksLogical, ReconcileAxis, Desired, BrakeHolds;
    var w0 := WorkAll(Observe(w.s, physical), w.t, Empty);
    var w1 := w0.With(X, ReconcileAxis(w0.At(X), X));
    InvParts(w, X);
    InvParts(w, Y);
    ReconciledAsks(w.s.x, w.t, w.mode, w.b, X, physical[D], physical[A], w.t);
    ReconciledAsks(w.s.y, w.t, w.mode, w.b, Y, physical[W], physical[S], w1.t);
    TakenAsks(TakenOver(w, physical), w1, w.b);
  }

  /** Main result: with the cleaner on, a rebuild ends with exactly the wished keys held, whatever it is shown. */
  lemma RebuildHolds(w: World, physical: Bools4, target: TargetIdentity, env: Env, k: Key)
    requires Inv(w) && Calm(w.b, target) && ObligingEnv(env, target) && w.mode != OFF
    ensures RebuildState(w, physical, target, env).b.held[k] == Wished(w, physical, k)
  {
    hide Inv, AsksLogical, Calm, Obliges, TakenOver, SettleBoth, Desired, Wished, PassAxis, Flush, RebuildState;
    var taken := TakenOver(w, physical);
    var wk := SettleBoth(taken);
    TakenIs(w, physical);
    SettleBothIs(taken, w.b);
    SettledLogical(taken.s.x);
    SettledLogical(taken.s.y);
    RebuildIs(w, physical, target, env);
    FlushCalm(w.b, wk.batch, target, env.sends);
    assert Flush(w.b, wk.batch, target, env.sends).held[k] == Asked(w.b.held[k], wk.batch, k);
    AskedAt(wk, w.b, k);
  }

  lemma TakenAsks(taken: WorkAll, w1: WorkAll, b: I.Boundary)
    requires AsksLogical(w1.At(X), b, X) && AsksLogical(taken.At(Y), b, Y)
    requires taken.s.x == w1.s.x && taken.batch == w1.batch
    ensures AsksLogical(taken.At(X), b, X)
  {
  }

  lemma AskedAt(wk: WorkAll, b: I.Boundary, k: Key)
    requires AsksLogical(wk.At(X), b, X) && AsksLogical(wk.At(Y), b, Y)
    ensures Asked(b.held[k], wk.batch, k) == wk.s.Key(k).logical
  {
  }

  // ---- With the cleaner off ----

  /** A key that is not physically down is logically down exactly if it is held. */
  ghost predicate HeldOnly(r: AxisRecord, b: I.Boundary, a: Axis, side: Side) {
    !r.Key(side).phys ==> r.Key(side).logical == b.held[KeyOf(a, side)]
  }

  /** The later batch asks for exactly these keys of the axis, and for the other axis what the earlier one did. */
  ghost predicate AsksFor(batch: Batch, batch': Batch, b: I.Boundary, a: Axis, pos: bool, neg: bool) {
    && Asked(b.held[KeyOf(a, Pos)], batch', KeyOf(a, Pos)) == pos
    && Asked(b.held[KeyOf(a, Neg)], batch', KeyOf(a, Neg)) == neg
    && forall j: Key :: KeyAxis(j) != a ==> Asked(b.held[j], batch', j) == Asked(b.held[j], batch, j)
  }

  ghost predicate AsksNothing(batch: Batch, b: I.Boundary, a: Axis) {
    AsksFor(batch, batch, b, a, b.held[KeyOf(a, Pos)], b.held[KeyOf(a, Neg)])
  }

  /** Turning to the opposite key alone lets go of the key, unless the axis comes out of a conflict. */
  predicate Cut(r: AxisRecord, side: Side) {
    !r.Key(side).phys && r.Key(Flip(side)).phys && r.axisState != r.Resolved() && r.axisState != Conflict
  }

  lemma OffResolveAsks(w: Work, b: I.Boundary, a: Axis, onPress: bool, target: TargetIdentity, env: Env)
    requires AsksNothing(w.batch, b, a) && HeldOnly(w.r, b, a, Pos) && HeldOnly(w.r, b, a, Neg)
    ensures AsksFor(w.batch, ResolveAxis(w, OFF, a, onPress, target, env).batch, b, a,
                    b.held[KeyOf(a, Pos)] && !Cut(w.r, Pos), b.held[KeyOf(a, Neg)] && !Cut(w.r, Neg))
  {
    hide CancelSocdTransition;
    CancelQuiet(w, a);
    var next := w.r.Resolved();
    var w1 := TurnAxis(w, a, next);
    if next == Positive || next == Negative {
      var down := if next == Positive then Pos else Neg;
      StaleAsks(w1, b, a, Flip(down));
    } else {
      assert ResolveAxis(w, OFF, a, onPress, target, env).batch == w.batch;
    }
  }

  lemma StaleAsks(w: Work, b: I.Boundary, a: Axis, opp: Side)
    requires AsksNothing(w.batch, b, a) && !w.r.Key(opp).phys && w.r.Key(opp).logical == b.held[KeyOf(a, opp)]
    ensures AsksFor(w.batch, CancelStaleCounterStrafe(w, a, opp).batch, b, a,
                    b.held[KeyOf(a, Pos)] && opp != Pos, b.held[KeyOf(a, Neg)] && opp != Neg)
  {
  }

  lemma CancelQuiet(w: Work, a: Axis)
    ensures var w' := CancelSocdTransition(w, a);
            && w'.batch == w.batch && w'.r.Resolved() == w.r.Resolved() && w'.r.socdLastKey == w.r.socdLastKey
            && w'.r.pos.logical == w.r.pos.logical && w'.r.neg.logical == w.r.neg.logical
            && w'.r.pos.phys == w.r.pos.phys && w'.r.neg.phys == w.r.neg.phys
  {
  }

  /** Delivered and accepted, such a batch leaves exactly those keys of the axis held. */
  lemma FinishAsks(w: World, s: State, a: Axis, wk: Work, pos: bool, neg: bool, target: TargetIdentity, env: Env)
    requires Calm(w.b, target) && ObligingEnv(env, target) && AsksFor(Empty, wk.batch, w.b, a, pos, neg)
    ensures var w' := FinishAxis(w, s, a, wk, target, env);
            && w'.b.held[KeyOf(a, Pos)] == pos && w'.b.held[KeyOf(a, Neg)] == neg
            && forall j: Key :: KeyAxis(j) != a ==> w'.b.held[j] == w.b.held[j]
  {
    hide Flush, Calm, Obliges;
    FlushCalm(w.b, wk.batch, target, env.sends);
  }

  lemma OffTracked(w: World, r: AxisRecord, a: Axis, side: Side, target: TargetIdentity, env: Env)
    requires w.mode == OFF
    ensures HeldOnly(TrackedRecord(w, r, a, w.s.suspended, target, env), w.b, a, side)
  {
  }

  /** Main result: with the cleaner off a routed press leaves its key to the player's own input; of the opposite key
      it keeps hold only if that is physically down too. */
  lemma OffPressHolds(w: World, k: Key, target: TargetIdentity, env: Env)
    requires Inv(w) && Calm(w.b, target) && ObligingEnv(env, target) && w.mode == OFF && !w.s.Key(k).phys
    ensures var w', o := HandleKeyDown(w, k, true, target, env), Opposite(k);
            && w'.b.held[o] == (w.b.held[o] && w.s.Key(o).phys)
            && forall j: Key :: j != o ==> w'.b.held[j] == w.b.held[j]
  {
    hide Inv, RoutePress, FinishAxis, AxisOk, TrackPress, TrackedRecord, AsksFor, Calm, Obliges;
    var a, side := KeyAxis(k), SideOf(k);
    var tracked := TrackPress(w.s.At(a), w.t, a, side);
    InvParts(w, a);
    PressInOrder(w, k, target, env);
    TrackIfOffAt(w, w.s.With(a, tracked.r), a, target, env);
    var wk := tracked.(r := TrackedRecord(w, tracked.r, a, w.s.suspended, target, env));
    assert PressWork(w, k, target, env) == RoutePress(wk, OFF, a, side, target, env);
    OffPressAsks(w, a, side, target, env);
    FinishAsks(w, PressState(w, k, target, env), a, PressWork(w, k, target, env),
               w.b.held[KeyOf(a, Pos)] && (side == Pos || w.s.At(a).pos.phys),
               w.b.held[KeyOf(a, Neg)] && (side == Neg || w.s.At(a).neg.phys), target, env);
  }

  lemma OffPressAsks(w: World, a: Axis, side: Side, target: TargetIdentity, env: Env)
    requires w.mode == OFF && AxisOk(w.s.At(a), OFF, w.t, w.b, a) && TimersOk(w.t) && !w.s.At(a).Key(side).phys
    ensures var tracked := TrackPress(w.s.At(a), w.t, a, side);
            var wk := tracked.(r := TrackedRecord(w, tracked.r, a, w.s.suspended, target, env));
            AsksFor(Empty, RoutePress(wk, OFF, a, side, target, env).batch, w.b, a,
                    w.b.held[KeyOf(a, Pos)] && (side == Pos || w.s.At(a).pos.phys),
                    w.b.held[KeyOf(a, Neg)] && (side == Neg || w.s.At(a).neg.phys))
  {
    hide ResolveAxis, AxisOk, TrackPress, TrackedRecord, AsksFor, HeldOnly;
    var tracked := TrackPress(w.s.At(a), w.t, a, side);
    PressReady(w.s.At(a), OFF, w.t, w.b, a, side);
    PressOpposite(w.s.At(a), w.t, a, side);
    OffTracked(w, tracked.r, a, Pos, target, env);
    OffTracked(w, tracked.r, a, Neg, target, env);
    OffSamePlan(w, tracked.r, a, target, env);
    NothingAsked(w.b, a);
    var r' := TrackedRecord(w, tracked.r, a, w.s.suspended, target, env);
    OffResolveAsks(tracked.(r := r'), w.b, a, true, target, env);
  }

  lemma NothingAsked(b: I.Boundary, a: Axis)
    ensures AsksNothing(Empty, b, a)
  {
  }

  lemma PressOpposite(r: AxisRecord, t: T.Timers, a: Axis, side: Side)
    ensures TrackPress(r, t, a, side).r.Key(Flip(side)) == r.Key(Flip(side))
  {
  }

  lemma OffSamePlan(w: World, r: AxisRecord, a: Axis, target: TargetIdentity, env: Env)
    ensures var r' := TrackedRecord(w, r, a, w.s.suspended, target, env);
            && r'.axisState == r.axisState && r'.Resolved() == r.Resolved()
            && r'.pos.phys == r.pos.phys && r'.neg.phys == r.neg.phys
  {
  }

  lemma OffKeptAsks(w: Work, b: I.Boundary, a: Axis, side: Side, suspended: bool, target: TargetIdentity, env: Env)
    requires w.batch == Empty && HeldOnly(w.r, b, a, side) && !w.r.Key(side).phys && w.r.socdReleaseTimerId == 0
    requires w.r.Key(Flip(side)).phys || BrakePending(w.r, side)
    requires BrakePending(w.r, side) && w.r.Key(Flip(side)).phys ==> w.r.axisState == Conflict
    ensures var batch := RouteRelease(w, OFF, a, side, suspended, target, env).batch;
            batch == if w.r.Key(side).logical && !BrakePending(w.r, side) then More(Empty, Event(KeyOf(a, side), false))
                     else Empty
  {
    hide AutoCounterStrafe;
  }

  lemma OffLastIs(w: Work, b: I.Boundary, a: Axis, side: Side, suspended: bool, target: TargetIdentity, env: Env)
    requires AsksLogical(w, b, a) && !w.r.pos.phys && !w.r.neg.phys && w.r.socdReleaseTimerId == 0
    requires !BrakePending(w.r, side) && w.t.nextId > 0
    ensures var w' := RouteRelease(w, OFF, a, side, suspended, target, env);
            SameEdges(RouteRelease(w, FULL, a, side, suspended, target, env), w')
  {
    hide AutoCounterStrafe, AsksLogical, ResolveAxis;
    StrafeArms(w, a, side, suspended, target, env);
    var (strafed, w1) := AutoCounterStrafe(w, a, side, suspended, target, env);
    IdleResolve(if strafed then w1 else Release(w1, a, side), OFF, a, target, env);
    IdleResolve(if strafed then w1 else Release(w1, a, side), FULL, a, target, env);
  }

  /** The record a routed release starts from. */
  lemma OffReleaseTracked(w: World, a: Axis, side: Side, target: TargetIdentity, env: Env)
    requires w.mode == OFF && AxisOk(w.s.At(a), OFF, w.t, w.b, a) && TimersOk(w.t) && w.s.At(a).Key(side).phys
    ensures var r, tracked := w.s.At(a), TrackRelease(w.s.At(a), w.t, a, side);
            var r' := TrackedRecord(w, tracked.r, a, w.s.suspended, target, env);
            && tracked.t.nextId > 0 && tracked.batch == Empty && r'.socdReleaseTimerId == 0 && !r'.Key(side).phys
            && r'.Key(Flip(side)).phys == r.Key(Flip(side)).phys
            && BrakePending(r', side) == BrakeHolds(r, w.b, a, side)
            && (BrakePending(r', side) && r'.Key(Flip(side)).phys ==> r'.axisState == Conflict)
            && (!r.Key(Flip(side)).phys ==> AsksLogical(tracked.(r := r'), w.b, a))
            && r'.Key(side).logical == w.b.held[KeyOf(a, side)]
            && (!r.Key(Flip(side)).phys ==> r'.Key(Flip(side)).logical == w.b.held[KeyOf(a, Flip(side))])
  {
    assert w.s.At(a).socdReleaseTimerId == 0;
  }

  /** Main result: with the cleaner off a routed release does the same for its own key and for brakes, but never holds
      the opposite key again. */
  lemma OffReleaseHolds(w: World, k: Key, target: TargetIdentity, env: Env)
    requires Inv(w) && Calm(w.b, target) && ObligingEnv(env, target) && w.mode == OFF && w.s.Key(k).phys
    ensures var w', r, o := HandleKeyUp(w, k, true, target, env), w.s.At(KeyAxis(k)), Opposite(k);
            var along, braked := if env.reversed then o else k, BrakeHolds(r, w.b, KeyAxis(k), SideOf(k));
            && (forall j: Key :: j != k && j != o ==> w'.b.held[j] == w.b.held[j])
            && if w.s.Key(o).phys || braked then w'.b.held[k] == braked && w'.b.held[o] == w.b.held[o]
               else if !w.s.suspended && BrakeFits(w.b.held[along], target, env) then
                 w'.b.held[Opposite(along)] && w'.b.held[along] == (Overlap(w.b.held[along], env) > 0)
               else !w'.b.held[k] && w'.b.held[o] == w.b.held[o]
  {
    hide Inv, RouteRelease, FinishAxis, AxisOk, TrackRelease, TrackedRecord, AsksLogical, Calm, Obliges, BrakeFits;
    hide Overlap, BrakeHolds;
    var a, side := KeyAxis(k), SideOf(k);
    var tracked := TrackRelease(w.s.At(a), w.t, a, side);
    InvParts(w, a);
    ReleaseInOrder(w, k, target, env);
    TrackIfOffAt(w, w.s.With(a, tracked.r), a, target, env);
    OffReleaseTracked(w, a, side, target, env);
    var wk := tracked.(r := TrackedRecord(w, tracked.r, a, w.s.suspended, target, env));
    var s, wk' := ReleaseState(w, k, target, env), ReleaseWork(w, k, target, env);
    assert wk' == RouteRelease(wk, OFF, a, side, w.s.suspended, target, env);
    if wk.r.Key(Flip(side)).phys || BrakePending(wk.r, side) {
      OffKeptAsks(wk, w.b, a, side, w.s.suspended, target, env);
      OneUpAsks(wk'.batch, w.b, a, side, w.b.held[KeyOf(a, side)] && !BrakePending(wk.r, side));
      FinishAsks(w, s, a, wk',
                 w.b.held[KeyOf(a, Pos)] && (side == Neg || BrakePending(wk.r, side)),
                 w.b.held[KeyOf(a, Neg)] && (side == Pos || BrakePending(wk.r, side)), target, env);
    } else {
      LastReleaseLogical(wk, w.b, FULL, a, side, w.s.suspended, target, env);
      RouteReleaseAsks(wk, w.b, FULL, a, side, w.s.suspended, target, env);
      OffLastIs(wk, w.b, a, side, w.s.suspended, target, env);
      SameAsks(RouteRelease(wk, FULL, a, side, w.s.suspended, target, env), wk', w.b, a);
      FinishHolds(w, s, a, wk', target, env);
    }
  }

  lemma OneUpAsks(batch: Batch, b: I.Boundary, a: Axis, side: Side, up: bool)
    requires batch == if up then More(Empty, Event(KeyOf(a, side), false)) else Empty
    ensures AsksFor(Empty, batch, b, a, b.held[KeyOf(a, Pos)] && !(up && side == Pos),
                    b.held[KeyOf(a, Neg)] && !(up && side == Neg))
  {
  }

  lemma OffShownAsks(w: World, physical: Bools4, a: Axis, target: TargetIdentity, env: Env)
    requires w.mode == OFF
    ensures var w0 := OffStart(w, physical, target, env);
            && HeldOnly(w0.s.At(a), w.b, a, Pos) && HeldOnly(w0.s.At(a), w.b, a, Neg)
            && w0.s.At(a).pos.phys == physical[KeyOf(a, Pos)] && w0.s.At(a).neg.phys == physical[KeyOf(a, Neg)]
            && w0.s.At(a).axisState == None
  {
  }

  lemma OffBothAsk(w: WorkAll, b: I.Boundary, target: TargetIdentity, env: Env)
    requires w.batch == Empty && HeldOnly(w.s.x, b, X, Pos) && HeldOnly(w.s.x, b, X, Neg)
    requires HeldOnly(w.s.y, b, Y, Pos) && HeldOnly(w.s.y, b, Y, Neg)
    ensures var w1 := w.With(X, ResolveAxis(w.At(X), OFF, X, false, target, env));
            var batch := w1.With(Y, ResolveAxis(w1.At(Y), OFF, Y, false, target, env)).batch;
            && Asked(b.held[D], batch, D) == (b.held[D] && !Cut(w.s.x, Pos))
            && Asked(b.held[A], batch, A) == (b.held[A] && !Cut(w.s.x, Neg))
            && Asked(b.held[W], batch, W) == (b.held[W] && !Cut(w.s.y, Pos))
            && Asked(b.held[S], batch, S) == (b.held[S] && !Cut(w.s.y, Neg))
  {
    hide ResolveAxis, Cut, HeldOnly;
    NothingAsked(b, X);
    OffResolveAsks(w.At(X), b, X, false, target, env);
    var w1 := w.With(X, ResolveAxis(w.At(X), OFF, X, false, target, env));
    StillNothing(w1.batch, b, X, b.held[D] && !Cut(w.s.x, Pos), b.held[A] && !Cut(w.s.x, Neg));
    OffResolveAsks(w1.At(Y), b, Y, false, target, env);
  }

  /** Main result: with the cleaner off a rebuild lets go of exactly the held keys that it shows up while it shows the
      opposite key down. */
  lemma OffRebuildHolds(w: World, physical: Bools4, target: TargetIdentity, env: Env, k: Key)
    requires Calm(w.b, target) && ObligingEnv(env, target) && w.mode == OFF
    ensures RebuildState(w, physical, target, env).b.held[k] ==
            (w.b.held[k] && (physical[k] || !physical[Opposite(k)]))
  {
    hide ResolveAxis, TrackNative, HeldOnly, Flush, Calm, Obliges, Asked;
    var w0 := OffStart(w, physical, target, env);
    OffShownAsks(w, physical, X, target, env);
    OffShownAsks(w, physical, Y, target, env);
    OffBothAsk(w0, w.b, target, env);
    var w1 := w0.With(X, ResolveAxis(w0.At(X), OFF, X, false, target, env));
    var w2 := w1.With(Y, ResolveAxis(w1.At(Y), OFF, Y, false, target, env));
    FlushCalm(w.b, w2.batch, target, env.sends);
    assert Flush(w.b, w2.batch, target, env.sends).held[k] == Asked(w.b.held[k], w2.batch, k);
    assert RebuildState(w, physical, target, env).b == Flush(w.b, w2.batch, target, env.sends);
  }

  lemma StillNothing(batch: Batch, b: I.Boundary, a: Axis, pos: bool, neg: bool)
    requires AsksFor(Empty, batch, b, a, pos, neg)
    ensures AsksNothing(batch, b, OtherAxis(a))
  {
  }
}
