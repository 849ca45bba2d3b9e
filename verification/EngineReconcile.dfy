/** Reconciliation, cleanup, suspension and mode changes keep the invariant. */
module EngineReconcile {
  import opened Keys
  import opened TargetPlatform
  import opened Engine
  import opened EngineInvariant
  import opened EngineSafety
  import opened EngineUnrouted
  import I = Injection
  import T = Timers
  import Safety = InjectionSafety

  // ---- Two axes that share the timers and the batch ----

  /** Work on one axis that leaves the given other axis alone. */
  ghost predicate Frame(w: Work, w': Work, b: I.Boundary, o: Axis) {
    && SameTimers(w.t, w'.t, o)
    && SameAsks(w.batch, w'.batch, b, KeyOf(o, Pos)) && SameAsks(w.batch, w'.batch, b, KeyOf(o, Neg))
  }

  ghost predicate SameAsks(batch: Batch, batch': Batch, b: I.Boundary, k: Key) {
    Touches(batch', k) == Touches(batch, k) && Asked(b.held[k], batch', k) == Asked(b.held[k], batch, k)
  }

  ghost predicate SidesOk(w: Work, b: I.Boundary, a: Axis) {
    SideOk(w, b, a, Pos) && SideOk(w, b, a, Neg)
  }

  lemma FrameKeeps(w: Work, w': Work, r: AxisRecord, b: I.Boundary, o: Axis)
    requires Frame(w, w', b, o) && SidesOk(w.(r := r), b, o)
    ensures SidesOk(w'.(r := r), b, o)
  {
  }

  /** Both axes settled: what a reconciliation must leave behind. */
  ghost predicate Settled(w: Work, mode: SocdMode, b: I.Boundary, a: Axis) {
    SidesOk(w, b, a) && RecordOk(w.r, mode, w.t, a) && w.r.axisState == w.r.Resolved()
  }

  lemma SettledFinish(w: World, wk: WorkAll, target: TargetIdentity, env: Env)
    requires Safety.Reachable(w.b) && TimersOk(wk.t)
    requires Settled(wk.At(X), w.mode, w.b, X) && Settled(wk.At(Y), w.mode, w.b, Y)
    ensures Inv(FlushAndCommit(w, wk.s, wk.t, wk.batch, target, env))
  {
    FlushReachable(w.b, wk.batch, target, env.sends);
    FinishAxisOk(wk.s.x, w.mode, wk.t, wk.batch, w.b, target, env.sends, X);
    FinishAxisOk(wk.s.y, w.mode, wk.t, wk.batch, w.b, target, env.sends, Y);
  }

  // ---- Which masks a rebuild can take over ----

  predicate SeenAxis(r: AxisRecord, pos: bool, neg: bool) {
    r.pos.phys == pos && r.neg.phys == neg
  }

  /** The mask is what the engine's own edges left physically down. */
  predicate Seen(s: State, physical: Bools4) {
    SeenAxis(s.x, physical[D], physical[A]) && SeenAxis(s.y, physical[W], physical[S])
  }

  /** A held key has its release pending or timed. */
  predicate Accounted(r: AxisRecord, b: I.Boundary, a: Axis, side: Side) {
    b.held[KeyOf(a, side)] ==> b.pending[KeyOf(a, side)] || r.Key(side).expectedTimerId != 0
  }

  /** The axis can take the shown keys over: they are the ones it already has; or, with the cleaner off, some key
      is shown down or no held key is left unaccounted for; or, with the cleaner on, both are not shown down while
      the last pressed key still awaits a timer. */
  predicate FitsAxis(r: AxisRecord, mode: SocdMode, b: I.Boundary, a: Axis, pos: bool, neg: bool) {
    || SeenAxis(r, pos, neg)
    || (if mode == OFF then pos || neg || (Accounted(r, b, a, Pos) && Accounted(r, b, a, Neg))
        else pos && neg ==> r.Key(r.socdLastKey).expectedTimerId == 0)
  }

  predicate Fits(w: World, physical: Bools4) {
    && FitsAxis(w.s.x, w.mode, w.b, X, physical[D], physical[A])
    && FitsAxis(w.s.y, w.mode, w.b, Y, physical[W], physical[S])
  }

  /** The axis does not lose a key to the shown keys: they fit, or the expiry that the last pressed key awaits is
      already on its way. */
  predicate SurvivesAxis(r: AxisRecord, mode: SocdMode, t: T.Timers, b: I.Boundary, a: Axis, pos: bool, neg: bool) {
    FitsAxis(r, mode, b, a, pos, neg) || Expiring(r, mode, t, a, r.socdLastKey)
  }

  predicate Survives(w: World, physical: Bools4) {
    && SurvivesAxis(w.s.x, w.mode, w.t, w.b, X, physical[D], physical[A])
    && SurvivesAxis(w.s.y, w.mode, w.t, w.b, Y, physical[W], physical[S])
  }

  lemma FitsSurvives(w: World, physical: Bools4)
    requires Fits(w, physical)
    ensures Survives(w, physical)
  {
  }

  /** A mask that the engine has seen fits, and so does any mask while the axes are quiet. */
  lemma SeenOrQuietFits(w: World, physical: Bools4)
    requires Inv(w) && (Seen(w.s, physical) || (QuietAxis(w.s.x) && QuietAxis(w.s.y)))
    ensures Fits(w, physical)
  {
  }

  // ---- Rebuild with the SOCD cleaner on ----

  /** An axis that has taken its new keys over and has not settled them yet. */
  ghost predicate Unsettled(w: Work, mode: SocdMode, b: I.Boundary, a: Axis) {
    && w.batch == Empty && mode != OFF && NativeOk(w.r, mode) && w.r.axisState == w.r.Resolved()
    && w.r.pos.logical == b.held[KeyOf(a, Pos)] && w.r.neg.logical == b.held[KeyOf(a, Neg)]
    && TimerLive(w.r.pos, w.t, KeyOf(a, Pos)) && TimerLive(w.r.neg, w.t, KeyOf(a, Neg))
    && (w.r.socdReleaseTimerId != 0 ==>
          && mode == HUMANIZED && w.r.axisState == Conflict
          && w.r.Key(Flip(w.r.socdLastKey)).expectedTimerId == w.r.socdReleaseTimerId)
  }

  lemma ReconcileAxisOk(r: AxisRecord, mode: SocdMode, t: T.Timers, b: I.Boundary, a: Axis, pos: bool, neg: bool)
    requires AxisOk(r, mode, t, b, a) && TimersOk(t) && mode != OFF
    ensures var w := ReconcileAxis(Work(Shown(r, pos, neg), t, Empty), a);
            && Unsettled(w, mode, b, a) && SameTimers(t, w.t, OtherAxis(a)) && TimersOk(w.t)
            && w.t.queue == t.queue && w.t.inFlight == t.inFlight
            && (SurvivesAxis(r, mode, t, b, a, pos, neg) && w.r.Resolved() == Conflict ==> WinnerOk(w.r, mode, t, a))
            && (FitsAxis(r, mode, b, a, pos, neg) && WinnerFree(r) ==> WinnerFree(w.r))
  {
  }

  /** How far a key of record r0 has got; `released` says that it has had its turn among the releases. */
  ghost predicate Turn(w: Work, r0: AxisRecord, side: Side, released: bool) {
    var s, s0 := w.r.Key(side), r0.Key(side);
    && s.phys == s0.phys
    && if Desired(r0, side) then s.expectedTimerId == s0.expectedTimerId && (s0.logical ==> s.logical)
       else if s0.logical && released then !s.logical && s.expectedTimerId == 0
       else s == s0
  }

  ghost predicate InPass(w: Work, r0: AxisRecord, mode: SocdMode, b: I.Boundary, a: Axis,
                         posDone: bool, negDone: bool) {
    && NativeOk(w.r, mode) && w.r.axisState == r0.axisState
    && w.r.socdLastKey == r0.socdLastKey && w.r.socdReleaseTimerId == r0.socdReleaseTimerId
    && Turn(w, r0, Pos, posDone) && Turn(w, r0, Neg, negDone)
    && Tracked(w, b, a, Pos) && Kept(w, a, Pos) && TimerLive(w.r.pos, w.t, KeyOf(a, Pos))
    && Tracked(w, b, a, Neg) && Kept(w, a, Neg) && TimerLive(w.r.neg, w.t, KeyOf(a, Neg))
  }

  lemma PressTurns(w: Work, r0: AxisRecord, mode: SocdMode, b: I.Boundary, a: Axis, side: Side,
                   posDone: bool, negDone: bool)
    requires InPass(w, r0, mode, b, a, posDone, negDone) && Desired(r0, side)
    ensures var w' := Emit(w, a, side, true);
            InPass(w', r0, mode, b, a, posDone, negDone) && Frame(w, w', b, OtherAxis(a)) && w'.t == w.t
  {
    hide Desired, T.Live;
  }

  lemma ReleaseTurns(w: Work, r0: AxisRecord, mode: SocdMode, b: I.Boundary, a: Axis, side: Side,
                     posDone: bool, negDone: bool)
    requires InPass(w, r0, mode, b, a, posDone, negDone) && !Desired(r0, side)
    ensures var w' := Emit(DisarmAndForget(w, a, side), a, side, false);
            w.r.Key(side).logical ==>
              && InPass(w', r0, mode, b, a, posDone || side == Pos, negDone || side == Neg)
              && Frame(w, w', b, OtherAxis(a)) && (TimersOk(w.t) ==> TimersOk(w'.t))
  {
    hide Desired;
  }

  lemma TurnComes(w: Work, r0: AxisRecord, mode: SocdMode, b: I.Boundary, a: Axis, side: Side,
                  posDone: bool, negDone: bool)
    requires InPass(w, r0, mode, b, a, posDone, negDone) && (w.r.Key(side).logical ==> Desired(r0, side))
    ensures InPass(w, r0, mode, b, a, posDone || side == Pos, negDone || side == Neg)
  {
    hide Desired, T.Live;
  }

  lemma SettleKeyTurns(w: Work, r0: AxisRecord, mode: SocdMode, b: I.Boundary, a: Axis, side: Side, down: bool,
                       posDone: bool, negDone: bool)
    requires InPass(w, r0, mode, b, a, posDone, negDone) && TimersOk(w.t) && (down ==> posDone && negDone)
    ensures var w' := SettleKey(w, a, side, down, Desired(r0, side));
            && InPass(w', r0, mode, b, a, posDone || side == Pos, negDone || side == Neg)
            && TimersOk(w'.t) && Frame(w, w', b, OtherAxis(a))
  {
    hide InPass, Desired, Emit, DisarmAndForget, TimersOk;
    var desired, logical := Desired(r0, side), w.r.Key(side).logical;
    if down && desired && !logical { PressTurns(w, r0, mode, b, a, side, posDone, negDone); }
    if !down && !desired && logical { ReleaseTurns(w, r0, mode, b, a, side, posDone, negDone); }
    if !down && (logical ==> desired) { TurnComes(w, r0, mode, b, a, side, posDone, negDone); }
  }

  lemma FramePass(w: Work, w': Work, r: AxisRecord, r0: AxisRecord, mode: SocdMode, b: I.Boundary, o: Axis,
                  posDone: bool, negDone: bool)
    requires Frame(w, w', b, o) && InPass(w.(r := r), r0, mode, b, o, posDone, negDone)
    ensures InPass(w'.(r := r), r0, mode, b, o, posDone, negDone)
  {
    hide Desired, Asked, Touches;
  }

  /** Both axes once the first n keys have had their turn among the releases. */
  ghost predicate InPasses(w: WorkAll, s: State, mode: SocdMode, b: I.Boundary, n: nat) {
    && TimersOk(w.t)
    && InPass(w.At(Y), s.y, mode, b, Y, n > 0, n > 1) && InPass(w.At(X), s.x, mode, b, X, n > 3, n > 2)
  }

  lemma SettleOnePasses(w: WorkAll, s: State, mode: SocdMode, b: I.Boundary, down: bool, n: nat)
    requires n < 4 && InPasses(w, s, mode, b, if down then 4 else n)
    ensures var a, side := KeyAxis(n), SideOf(n);
            var w' := w.With(a, SettleKey(w.At(a), a, side, down, Desired(s.At(a), side)));
            InPasses(w', s, mode, b, if down then 4 else n + 1)
  {
    hide InPass, TimersOk, Desired, SettleKey, Frame;
    var a, side, m := KeyAxis(n), SideOf(n), if down then 4 else n;
    var w' := SettleKey(w.At(a), a, side, down, Desired(s.At(a), side));
    if a == Y {
      SettleKeyTurns(w.At(Y), s.y, mode, b, Y, side, down, m > 0, m > 1);
      FramePass(w.At(Y), w', w.s.x, s.x, mode, b, X, m > 3, m > 2);
    } else {
      SettleKeyTurns(w.At(X), s.x, mode, b, X, side, down, m > 3, m > 2);
      FramePass(w.At(X), w', w.s.y, s.y, mode, b, Y, m > 0, m > 1);
    }
  }

  lemma {:induction false} SettleKeysPass(w: WorkAll, s: State, mode: SocdMode, b: I.Boundary, down: bool, n: nat)
    requires n <= 4 && InPasses(w, s, mode, b, if down then 4 else 0)
    ensures InPasses(SettleKeys(w, s, down, n), s, mode, b, if down then 4 else n)
  {
    if n > 0 {
      SettleKeysPass(w, s, mode, b, down, n - 1);
      SettleOnePasses(SettleKeys(w, s, down, n - 1), s, mode, b, down, n - 1);
    }
  }

  lemma PassStarts(w: Work, mode: SocdMode, b: I.Boundary, a: Axis)
    requires Unsettled(w, mode, b, a)
    ensures InPass(w, w.r, mode, b, a, false, false)
  {
  }

  lemma PassSettles(w: Work, w0: Work, mode: SocdMode, b: I.Boundary, a: Axis)
    requires Unsettled(w0, mode, b, a) && InPass(w, w0.r, mode, b, a, true, true)
    requires w0.r.Resolved() == Conflict ==> WinnerOk(w0.r, mode, w0.t, a)
    requires w.t.queue == w0.t.queue && w.t.inFlight == w0.t.inFlight
    ensures Settled(w, mode, b, a)
    ensures WinnerFree(w0.r) ==> WinnerFree(w.r)
  {
    hide Asked, Touches, T.Live;
  }

  /** The work of both passes over axes that have taken their new keys over. */
  lemma SettleBothPass(w: WorkAll, mode: SocdMode, b: I.Boundary)
    requires TimersOk(w.t) && Unsettled(w.At(X), mode, b, X) && Unsettled(w.At(Y), mode, b, Y)
    ensures InPasses(SettleBoth(w), w.s, mode, b, 4)
  {
    PassStarts(w.At(X), mode, b, X);
    PassStarts(w.At(Y), mode, b, Y);
    SettleKeysPass(w, w.s, mode, b, false, 4);
    var w1 := SettleKeys(w, w.s, false, 4);
    SettleKeysPass(w1, w.s, mode, b, true, 4);
  }

  lemma {:induction false} SettleQueue(w: WorkAll, s: State, down: bool, n: nat)
    requires n <= 4
    ensures var w' := SettleKeys(w, s, down, n);
            w'.t.queue == w.t.queue && w'.t.inFlight == w.t.inFlight && w'.t.nextId == w.t.nextId
  {
    hide Desired;
    if n > 0 { SettleQueue(w, s, down, n - 1); }
  }

  lemma SettleBothQueue(w: WorkAll)
    ensures var w' := SettleBoth(w);
            w'.t.queue == w.t.queue && w'.t.inFlight == w.t.inFlight && w'.t.nextId == w.t.nextId
  {
    hide SettleKeys;
    SettleQueue(w, w.s, false, 4);
    SettleQueue(SettleKeys(w, w.s, false, 4), w.s, true, 4);
  }

  lemma SettleBothOk(w: WorkAll, mode: SocdMode, b: I.Boundary)
    requires TimersOk(w.t) && Unsettled(w.At(X), mode, b, X) && Unsettled(w.At(Y), mode, b, Y)
    requires w.s.x.Resolved() == Conflict ==> WinnerOk(w.s.x, mode, w.t, X)
    requires w.s.y.Resolved() == Conflict ==> WinnerOk(w.s.y, mode, w.t, Y)
    ensures var w' := SettleBoth(w);
            && Settled(w'.At(X), mode, b, X) && Settled(w'.At(Y), mode, b, Y)
            && InPasses(w', w.s, mode, b, 4)
            && (WinnerFree(w.s.x) ==> WinnerFree(w'.s.x)) && (WinnerFree(w.s.y) ==> WinnerFree(w'.s.y))
  {
    hide SettleKeys;
    SettleBothPass(w, mode, b);
    SettleBothQueue(w);
    var w2 := SettleBoth(w);
    PassSettles(w2.At(X), w.At(X), mode, b, X);
    PassSettles(w2.At(Y), w.At(Y), mode, b, Y);
  }

  /** Both axes after they have taken the shown keys over. */
  function TakenOver(w: World, physical: Bools4): WorkAll {
    var w0 := WorkAll(Observe(w.s, physical), w.t, Empty);
    var w1 := w0.With(X, ReconcileAxis(w0.At(X), X));
    w1.With(Y, ReconcileAxis(w1.At(Y), Y))
  }

  lemma OtherTimersLive(r: AxisRecord, mode: SocdMode, t: T.Timers, t': T.Timers, b: I.Boundary, a: Axis)
    requires Unsettled(Work(r, t, Empty), mode, b, a) && SameTimers(t, t', a)
    ensures Unsettled(Work(r, t', Empty), mode, b, a)
  {
  }

  lemma TakenOverOk(w: World, physical: Bools4)
    requires Inv(w) && w.mode != OFF
    ensures var w' := TakenOver(w, physical);
            && TimersOk(w'.t) && Unsettled(w'.At(X), w.mode, w.b, X) && Unsettled(w'.At(Y), w.mode, w.b, Y)
            && (Survives(w, physical) && w'.s.x.Resolved() == Conflict ==> WinnerOk(w'.s.x, w.mode, w'.t, X))
            && (Survives(w, physical) && w'.s.y.Resolved() == Conflict ==> WinnerOk(w'.s.y, w.mode, w'.t, Y))
            && (Fits(w, physical) && WinnerFree(w.s.x) ==> WinnerFree(w'.s.x))
            && (Fits(w, physical) && WinnerFree(w.s.y) ==> WinnerFree(w'.s.y))
            && w'.t.queue == w.t.queue && w'.t.inFlight == w.t.inFlight
  {
    hide FitsAxis, Unsettled, TimersOk, ReconcileAxis, AxisOk, WinnerFree;
    var w0 := WorkAll(Observe(w.s, physical), w.t, Empty);
    ReconcileAxisOk(w.s.x, w.mode, w.t, w.b, X, physical[D], physical[A]);
    var w1 := w0.With(X, ReconcileAxis(w0.At(X), X));
    OtherTimersOk(w.s.y, w.mode, w.t, w1.t, w.b, Y);
    ReconcileAxisOk(w.s.y, w.mode, w1.t, w.b, Y, physical[W], physical[S]);
    OtherTimersLive(w1.s.x, w.mode, w1.t, ReconcileAxis(w1.At(Y), Y).t, w.b, X);
    assert w1.batch == Empty && ReconcileAxis(w1.At(Y), Y).batch == Empty by { ReconcileAxisQuiet(w, physical); }
  }

  lemma ReconcileAxisQuiet(w: World, physical: Bools4)
    ensures var w0 := WorkAll(Observe(w.s, physical), w.t, Empty);
            var w1 := w0.With(X, ReconcileAxis(w0.At(X), X));
            w1.batch == Empty && ReconcileAxis(w1.At(Y), Y).batch == Empty
  {
  }

  lemma RebuildIs(w: World, physical: Bools4, target: TargetIdentity, env: Env)
    requires w.mode != OFF
    ensures var wk := SettleBoth(TakenOver(w, physical));
            RebuildState(w, physical, target, env) == FlushAndCommit(w, wk.s, wk.t, wk.batch, target, env)
  {
    hide SettleKeys, ReconcileAxis, FlushAndCommit;
  }

  lemma CleanedRebuildKeeps(w: World, physical: Bools4, target: TargetIdentity, env: Env)
    requires Inv(w) && w.mode != OFF && Survives(w, physical)
    ensures Inv(RebuildState(w, physical, target, env))
  {
    hide Settled, Unsettled, InPasses, TimersOk, FlushAndCommit, ReconcileAxis, SettleKeys, WinnerOk, WinnerFree,
      SurvivesAxis;
    TakenOverOk(w, physical);
    var w0 := TakenOver(w, physical);
    SettleBothOk(w0, w.mode, w.b);
    var w1 := SettleBoth(w0);
    assert TimersOk(w1.t) by { PassedTimers(w1, w0.s, w.mode, w.b); }
    SettledFinish(w, w1, target, env);
  }

  lemma PassedTimers(w: WorkAll, s: State, mode: SocdMode, b: I.Boundary)
    requires InPasses(w, s, mode, b, 4)
    ensures TimersOk(w.t)
  {
  }

  // ---- Rebuild with the SOCD cleaner off ----

  /** Both axes with the cleaner off, before they are resolved. */
  function OffStart(w: World, physical: Bools4, target: TargetIdentity, env: Env): WorkAll {
    var s := TrackNative(Observe(w.s, physical), w.b, target, env.nativeFocus);
    WorkAll(s.(x := s.x.(axisState := None), y := s.y.(axisState := None)), w.t, Empty)
  }

  /** An axis of which only a held key that is not physically down may be left uncovered. */
  ghost predicate Loose(w: Work, b: I.Boundary, a: Axis) {
    && Tracked(w, b, a, Pos) && Kept(w, a, Pos) && TimerLive(w.r.pos, w.t, KeyOf(a, Pos))
    && Tracked(w, b, a, Neg) && Kept(w, a, Neg) && TimerLive(w.r.neg, w.t, KeyOf(a, Neg))
    && (w.r.Resolved() == None ==> Covered(w, b, a, Pos) && Covered(w, b, a, Neg))
  }

  lemma OffStaysOk(w: Work, b: I.Boundary, a: Axis)
    requires Loose(w, b, a) && NativeOk(w.r, OFF) && w.r.socdReleaseTimerId == 0 && w.r.axisState == None
    requires w.r.Resolved() == None
    ensures Settled(w, OFF, b, a)
  {
    hide T.Live, Asked, Touches;
  }

  lemma OffConflictOk(w: Work, b: I.Boundary, a: Axis, target: TargetIdentity, env: Env)
    requires Loose(w, b, a) && NativeOk(w.r, OFF) && w.r.socdReleaseTimerId == 0 && TimersOk(w.t)
    requires w.r.Resolved() == Conflict && w.r.axisState == None
    ensures var w' := ResolveAxis(w, OFF, a, false, target, env);
            Settled(w', OFF, b, a) && TimersOk(w'.t) && Frame(w, w', b, OtherAxis(a))
  {
    hide Asked, Touches, T.OnItsWay;
  }

  lemma OffSingleOk(w: Work, b: I.Boundary, a: Axis, target: TargetIdentity, env: Env)
    requires Loose(w, b, a) && NativeOk(w.r, OFF) && w.r.socdReleaseTimerId == 0 && TimersOk(w.t)
    requires (w.r.Resolved() == Positive || w.r.Resolved() == Negative) && w.r.axisState == None
    ensures var w' := ResolveAxis(w, OFF, a, false, target, env);
            Settled(w', OFF, b, a) && TimersOk(w'.t) && Frame(w, w', b, OtherAxis(a))
  {
  }

  lemma OffResolveOk(w: Work, b: I.Boundary, a: Axis, target: TargetIdentity, env: Env)
    requires Loose(w, b, a) && NativeOk(w.r, OFF) && w.r.socdReleaseTimerId == 0 && w.r.axisState == None
             && TimersOk(w.t)
    ensures var w' := ResolveAxis(w, OFF, a, false, target, env);
            Settled(w', OFF, b, a) && TimersOk(w'.t) && Frame(w, w', b, OtherAxis(a))
  {
    hide Loose, Settled, TimersOk, TurnAxis, EnterConflict, CancelStaleCounterStrafe, Hold, Asked, Touches;
    match w.r.Resolved()
    case None => OffStaysOk(w, b, a);
    case Conflict => OffConflictOk(w, b, a, target, env);
    case _ => OffSingleOk(w, b, a, target, env);
  }

  lemma OffTrackedOk(w: World, r: AxisRecord, a: Axis, pos: bool, neg: bool, target: TargetIdentity, env: Env)
    requires w.mode == OFF && AxisOk(r, OFF, w.t, w.b, a) && FitsAxis(r, OFF, w.b, a, pos, neg)
    ensures var r' := TrackedRecord(w, Shown(r, pos, neg), a, w.s.suspended, target, env).(axisState := None);
            Loose(Work(r', w.t, Empty), w.b, a) && NativeOk(r', OFF) && r'.socdReleaseTimerId == 0
  {
  }

  lemma FrameLoose(w: Work, w': Work, r: AxisRecord, b: I.Boundary, o: Axis)
    requires Frame(w, w', b, o) && Loose(w.(r := r), b, o)
    ensures Loose(w'.(r := r), b, o)
  {
  }

  // ---- Rebuild ----

  lemma OffRebuildKeeps(w: World, physical: Bools4, target: TargetIdentity, env: Env)
    requires Inv(w) && w.mode == OFF && Survives(w, physical)
    ensures Inv(RebuildState(w, physical, target, env))
  {
    hide ResolveAxis, Settled, Loose, FitsAxis, AxisOk, Frame;
    var s0, w0 := Observe(w.s, physical), OffStart(w, physical, target, env);
    assert w0.s.x == TrackedRecord(w, s0.x, X, w.s.suspended, target, env).(axisState := None);
    assert w0.s.y == TrackedRecord(w, s0.y, Y, w.s.suspended, target, env).(axisState := None);
    OffTrackedOk(w, w.s.x, X, physical[D], physical[A], target, env);
    OffTrackedOk(w, w.s.y, Y, physical[W], physical[S], target, env);
    OffResolveOk(w0.At(X), w.b, X, target, env);
    var w1 := w0.With(X, ResolveAxis(w0.At(X), OFF, X, false, target, env));
    FrameLoose(w0.At(X), w1.At(X), w0.s.y, w.b, Y);
    OffResolveOk(w1.At(Y), w.b, Y, target, env);
    var w2 := w1.With(Y, ResolveAxis(w1.At(Y), OFF, Y, false, target, env));
    FrameSettled(w1.At(Y), w2.At(Y), w1.s.x, w.b, X);
    SettledFinish(w, w2, target, env);
  }

  lemma FrameSettled(w: Work, w': Work, r: AxisRecord, b: I.Boundary, o: Axis)
    requires Frame(w, w', b, o) && Settled(w.(r := r), OFF, b, o)
    ensures Settled(w'.(r := r), OFF, b, o)
  {
    FrameKeeps(w, w', r, b, o);
  }

  lemma RebuildKeeps(w: World, physical: Bools4, target: TargetIdentity, env: Env)
    requires Inv(w) && Survives(w, physical)
    ensures Inv(RebuildState(w, physical, target, env))
  {
    if w.mode == OFF {
      OffRebuildKeeps(w, physical, target, env);
    } else {
      CleanedRebuildKeeps(w, physical, target, env);
    }
  }

  // ---- Cleanup ----

  /** A cleaned-up key: nothing armed, and nothing it asks for. */
  ghost predicate Cleaned(w: Work, b: I.Boundary, a: Axis, side: Side) {
    var s, k := w.r.Key(side), KeyOf(a, side);
    !s.logical && s.expectedTimerId == 0 && !Asked(b.held[k], w.batch, k)
  }

  ghost predicate Cleaning(w: Work, b: I.Boundary, a: Axis) {
    && Tracked(w, b, a, Pos) && Tracked(w, b, a, Neg)
    && !w.r.pos.nativeLogical && !w.r.neg.nativeLogical && w.r.socdReleaseTimerId == 0 && w.r.axisState == None
  }

  lemma ReleaseKeyOk(w: Work, b: I.Boundary, a: Axis, side: Side)
    requires Cleaning(w, b, a)
    ensures var w' := Release(DisarmAndForget(w, a, side), a, side);
            && Cleaning(w', b, a) && Cleaned(w', b, a, side) && Frame(w, w', b, OtherAxis(a))
            && (Cleaned(w, b, a, Flip(side)) ==> Cleaned(w', b, a, Flip(side)))
            && (TimersOk(w.t) ==> TimersOk(w'.t))
            && w'.r.pos.phys == w.r.pos.phys && w'.r.neg.phys == w.r.neg.phys
  {
  }

  ghost predicate CleanedUpTo(w: WorkAll, b: I.Boundary, n: nat) {
    && Cleaning(w.At(X), b, X) && Cleaning(w.At(Y), b, Y) && TimersOk(w.t)
    && (n > 0 ==> Cleaned(w.At(Y), b, Y, Pos)) && (n > 1 ==> Cleaned(w.At(Y), b, Y, Neg))
    && (n > 2 ==> Cleaned(w.At(X), b, X, Neg)) && (n > 3 ==> Cleaned(w.At(X), b, X, Pos))
  }

  lemma FrameCleans(w: Work, w': Work, r: AxisRecord, b: I.Boundary, o: Axis)
    requires Frame(w, w', b, o) && Cleaning(w.(r := r), b, o)
    ensures Cleaning(w'.(r := r), b, o)
    ensures forall side :: Cleaned(w.(r := r), b, o, side) ==> Cleaned(w'.(r := r), b, o, side)
  {
  }

  ghost predicate SamePhys(s: State, s': State) {
    && s'.suspended == s.suspended
    && s'.x.pos.phys == s.x.pos.phys && s'.x.neg.phys == s.x.neg.phys
    && s'.y.pos.phys == s.y.pos.phys && s'.y.neg.phys == s.y.neg.phys
  }

  lemma ReleaseOneOk(w: WorkAll, b: I.Boundary, a: Axis, side: Side)
    requires Cleaning(w.At(X), b, X) && Cleaning(w.At(Y), b, Y) && TimersOk(w.t)
    ensures var w' := w.With(a, Release(DisarmAndForget(w.At(a), a, side), a, side));
            && Cleaning(w'.At(X), b, X) && Cleaning(w'.At(Y), b, Y) && TimersOk(w'.t) && Cleaned(w'.At(a), b, a, side)
            && (Cleaned(w.At(a), b, a, Flip(side)) ==> Cleaned(w'.At(a), b, a, Flip(side)))
            && (forall side' :: Cleaned(w.At(OtherAxis(a)), b, OtherAxis(a), side') ==>
                                  Cleaned(w'.At(OtherAxis(a)), b, OtherAxis(a), side'))
            && SamePhys(w.s, w'.s)
  {
    hide Cleaned, Cleaning, Frame, TimersOk, Release, DisarmAndForget;
    ReleaseKeyOk(w.At(a), b, a, side);
    FrameCleans(w.At(a), Release(DisarmAndForget(w.At(a), a, side), a, side), w.s.At(OtherAxis(a)), b, OtherAxis(a));
  }

  lemma {:induction false} ReleaseKeysOk(w: WorkAll, b: I.Boundary, n: nat)
    requires n <= 4 && CleanedUpTo(w, b, 0)
    ensures var w' := ReleaseKeys(w, n); CleanedUpTo(w', b, n) && SamePhys(w.s, w'.s)
  {
    if n > 0 {
      ReleaseKeysOk(w, b, n - 1);
      ReleaseStepOk(ReleaseKeys(w, n - 1), b, n - 1);
    }
  }

  lemma ReleaseStepOk(w: WorkAll, b: I.Boundary, n: nat)
    requires n < 4 && CleanedUpTo(w, b, n)
    ensures var a, side := KeyAxis(n), SideOf(n);
            var w' := w.With(a, Release(DisarmAndForget(w.At(a), a, side), a, side));
            CleanedUpTo(w', b, n + 1) && SamePhys(w.s, w'.s)
  {
    ReleaseOneOk(w, b, KeyAxis(n), SideOf(n));
  }

  lemma IdledOk(w: World, a: Axis, r: AxisRecord, t: T.Timers)
    requires AxisOk(r, w.mode, w.t, w.b, a)
    ensures Cleaning(Work(Idled(CancelSocdTransition(Work(r, w.t, Empty), a).r), t, Empty), w.b, a)
  {
  }

  lemma CancelSocdOk(r: AxisRecord, t: T.Timers, t': T.Timers, a: Axis)
    ensures var w := CancelSocdTransition(Work(r, t, Empty), a);
            && w.batch == Empty && (TimersOk(t) ==> TimersOk(w.t))
            && w.r == CancelSocdTransition(Work(r, t', Empty), a).r
            && w.r.pos.phys == r.pos.phys && w.r.neg.phys == r.neg.phys
  {
  }

  lemma IdledBothOk(w: World)
    requires Inv(w)
    ensures var w1 := CancelSocdTransition(Work(w.s.x, w.t, Empty), X);
            var w2 := CancelSocdTransition(Work(w.s.y, w1.t, Empty), Y);
            && w1.batch == w2.batch == Empty && TimersOk(w2.t)
            && Cleaning(Work(Idled(w1.r), w2.t, Empty), w.b, X) && Cleaning(Work(Idled(w2.r), w2.t, Empty), w.b, Y)
            && SamePhys(w.s, w.s.(x := Idled(w1.r), y := Idled(w2.r)))
  {
    var w1 := CancelSocdTransition(Work(w.s.x, w.t, Empty), X);
    var w2 := CancelSocdTransition(Work(w.s.y, w1.t, Empty), Y);
    CancelSocdOk(w.s.x, w.t, w.t, X);
    CancelSocdOk(w.s.y, w1.t, w.t, Y);
    IdledOk(w, X, w.s.x, w2.t);
    IdledOk(w, Y, w.s.y, w2.t);
  }

  /** The four keys, timers cancelled and released, both axes without state. */
  lemma ReconcileInternalOk(w: World)
    requires Inv(w)
    ensures var w' := ReconcileInternal(WorkAll(w.s, w.t, Empty)); CleanedUpTo(w', w.b, 4) && SamePhys(w.s, w'.s)
  {
    IdledBothOk(w);
    var w1 := CancelSocdTransition(Work(w.s.x, w.t, Empty), X);
    var w2 := CancelSocdTransition(Work(w.s.y, w1.t, Empty), Y);
    var wk := WorkAll(w.s.(x := Idled(w1.r), y := Idled(w2.r)), w2.t, Empty);
    ReleaseKeysOk(wk, w.b, 4);
    assert ReconcileInternal(WorkAll(w.s, w.t, Empty)) == ReleaseKeys(wk, 4);
  }

  lemma CleanedFinish(w: Work, mode: SocdMode, b: I.Boundary, target: TargetIdentity, sends: nat -> I.Dispatch, a: Axis)
    requires Safety.Reachable(b) && Cleaning(w, b, a) && Cleaned(w, b, a, Pos) && Cleaned(w, b, a, Neg)
    ensures var b' := Flush(b, w.batch, target, sends);
            var r := CommitAxis(w.r, b', a);
            AxisOk(r, mode, w.t, b', a) && QuietAxis(r)
            && r.pos.phys == w.r.pos.phys && r.neg.phys == w.r.neg.phys
  {
    FinishAxisOk(w.r, mode, w.t, w.batch, b, target, sends, a);
  }

  /** Cleanup keeps the invariant and stops arbitrating both axes. */
  lemma ClearKeeps(w: World, target: TargetIdentity, env: Env)
    requires Inv(w)
    ensures var w' := ClearHeldKeys(w, target, env);
            && Inv(w') && QuietAxis(w'.s.x) && QuietAxis(w'.s.y) && w'.mode == w.mode && SamePhys(w.s, w'.s)
  {
    ReconcileInternalOk(w);
    var wk := ReconcileInternal(WorkAll(w.s, w.t, Empty));
    FlushReachable(w.b, wk.batch, target, env.sends);
    CleanedFinish(wk.At(X), w.mode, w.b, target, env.sends, X);
    CleanedFinish(wk.At(Y), w.mode, w.b, target, env.sends, Y);
  }

  lemma SuspendKeeps(w: World, target: TargetIdentity, env: Env)
    requires Inv(w)
    ensures Inv(ToggleSuspend(w, target, env))
    ensures !w.s.suspended ==>
              QuietAxis(ToggleSuspend(w, target, env).s.x) && QuietAxis(ToggleSuspend(w, target, env).s.y)
  {
    var w1 := w.(s := w.s.(suspended := !w.s.suspended));
    if w1.s.suspended { ClearKeeps(w1, target, env); } else { CommitOk(w1, w1.s, w1.t, target, env); }
  }

  // ---- Mode changes ----

  lemma NothingHeldOk(r: AxisRecord, mode: SocdMode, mode': SocdMode, t: T.Timers, b: I.Boundary, a: Axis)
    requires AxisOk(r, mode, t, b, a) && QuietAxis(r) && !r.pos.phys && !r.neg.phys
    requires !b.held[KeyOf(a, Pos)] && !b.held[KeyOf(a, Neg)]
    ensures AxisOk(r, mode', t, b, a)
  {
  }

  lemma NotHeld(held: I.Bools6)
    requires true !in held[..4]
    ensures !held[W] && !held[S] && !held[A] && !held[D]
  {
    assert held[..4][W] == held[W] && held[..4][S] == held[S] && held[..4][A] == held[A] && held[..4][D] == held[D];
  }

  lemma ModeKeeps(w: World, mode: SocdMode, ledgerIdle: bool, target: TargetIdentity, env: Env)
    requires Inv(w)
    ensures Inv(ChangeMode(w, mode, ledgerIdle, target, env))
  {
    if ledgerIdle && NoPhysicalKey(w.s) {
      ClearKeeps(w, target, env);
      var w1 := ClearHeldKeys(w, target, env);
      if true !in w1.b.held[..4] {
        NotHeld(w1.b.held);
        NothingHeldOk(w1.s.x, w1.mode, mode, w1.t, w1.b, X);
        NothingHeldOk(w1.s.y, w1.mode, mode, w1.t, w1.b, Y);
      }
    }
  }

  // ---- Output that is not the engine's own ----

  /** Slots are only released, and a pending release that fails stays pending. */
  ghost predicate OnlyReleases(b: I.Boundary, b': I.Boundary, k: Key) {
    b'.held[k] ==> b.held[k] && (b.pending[k] ==> b'.pending[k])
  }

  lemma {:induction false} ReleasePendingOnly(b: I.Boundary, slot: nat, target: TargetIdentity, d: I.Dispatch, k: Key)
    requires slot <= I.SLOT_COUNT
    ensures OnlyReleases(b, I.ReleasePendingFrom(b, slot, target, d).0, k)
    decreases I.SLOT_COUNT - slot
  {
    if slot < I.SLOT_COUNT {
      if b.pending[slot] && b.pendingTarget[slot] == target {
        ReleasePendingOnly(I.ReleaseSlot(b, slot, d).0, slot + 1, target, d, k);
      } else {
        ReleasePendingOnly(b, slot + 1, target, d, k);
      }
    }
  }

  lemma RecommittedOk(r: AxisRecord, mode: SocdMode, t: T.Timers, b: I.Boundary, b': I.Boundary, a: Axis)
    requires AxisOk(r, mode, t, b, a)
    requires OnlyReleases(b, b', KeyOf(a, Pos)) && OnlyReleases(b, b', KeyOf(a, Neg))
    ensures AxisOk(CommitAxis(r, b', a), mode, t, b', a)
  {
  }

  lemma ReconcileOutputKeeps(w: World, target: TargetIdentity, d: I.Dispatch)
    requires Inv(w)
    ensures Inv(ReconcilePendingOutput(w, target, d))
  {
    var b := I.ReconcilePending(w.b, target, d).0;
    assert b == I.Apply(w.b, I.Reconcile, target, d);
    Safety.StaysReachable(w.b, I.Reconcile, target, d);
    forall k: Key ensures OnlyReleases(w.b, b, k) { ReleasePendingOnly(w.b, 0, target, d, k); }
    RecommittedOk(w.s.x, w.mode, w.t, w.b, b, X);
    RecommittedOk(w.s.y, w.mode, w.t, w.b, b, Y);
  }

  lemma SameSlotsOk(r: AxisRecord, mode: SocdMode, t: T.Timers, b: I.Boundary, b': I.Boundary, a: Axis)
    requires AxisOk(r, mode, t, b, a)
    requires Safety.SameSlot(b, b', KeyOf(a, Pos)) && Safety.SameSlot(b, b', KeyOf(a, Neg))
    ensures AxisOk(r, mode, t, b', a)
  {
  }

  lemma SpaceFrame(b: I.Boundary, c: I.Call, target: TargetIdentity, d: I.Dispatch, k: Key)
    requires c.SpaceDown? || c.SpaceUp?
    ensures Safety.SameSlot(b, I.Apply(b, c, target, d), k)
  {
  }

  lemma SpaceKeeps(w: World, c: I.Call, target: TargetIdentity, d: I.Dispatch)
    requires Inv(w) && (c.SpaceDown? || c.SpaceUp?)
    ensures Inv(w.(b := I.Apply(w.b, c, target, d)))
  {
    var b := I.Apply(w.b, c, target, d);
    Safety.StaysReachable(w.b, c, target, d);
    assert Safety.Reachable(b);
    SpaceFrame(w.b, c, target, d, W);
    SpaceFrame(w.b, c, target, d, S);
    SpaceFrame(w.b, c, target, d, A);
    SpaceFrame(w.b, c, target, d, D);
    SameSlotsOk(w.s.x, w.mode, w.t, w.b, b, X);
    SameSlotsOk(w.s.y, w.mode, w.t, w.b, b, Y);
  }
}
