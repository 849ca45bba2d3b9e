/** Shown keys and the refinement: a rebuild keeps the specified pair exactly when its keys fit. And a run in which
    they do not. */
module EngineMaskRuns {
  import opened Keys
  import opened TargetPlatform
  import opened Engine
  import opened EngineInvariant
  import opened EngineReconcile
  import opened EngineStale
  import opened EngineRefinement
  import opened EngineIdealRuns
  import opened EngineMasks
  import Safety = InjectionSafety

  // ---- The refinement ----

  /** Both axes have their specified logical pair. */
  predicate Specifies(w: World) {
    SpecifiedPair(w.s.x, w.mode) && SpecifiedPair(w.s.y, w.mode)
  }

  /** In an obliging world the rebuild, and then the release of key k, leave the axes with their specified pair. */
  ghost predicate RefinesThrough(w: World, physical: Bools4, target: TargetIdentity, env: Env, env': Env, k: Key) {
    var w' := RebuildState(w, physical, target, env);
    Specifies(w') && (w'.s.Key(k).phys ==> Specifies(HandleKeyUp(w', k, true, target, env')))
  }

  lemma ArbitratedSpecifies(w: World, target: TargetIdentity)
    requires Arbitrated(w, target)
    ensures Specifies(w)
  {
  }

  lemma FitRefines(w: World, physical: Bools4, target: TargetIdentity, env: Env, env': Env, k: Key)
    requires Ideal(w, target) && Fits(w, physical) && ObligingEnv(env, target) && ObligingEnv(env', target)
    ensures RefinesThrough(w, physical, target, env, env', k)
  {
    hide RebuildState, HandleKeyUp, FitsAxis, Inv, Arbitrated, Rebuildable, Specifies, Survives;
    var w' := RebuildState(w, physical, target, env);
    IdealRebuildable(w, target);
    RebuildIdeal(w, physical, target, env);
    FitsSurvives(w, physical);
    RebuildKeeps(w, physical, target, env);
    ArbitratedBase(w', target);
    ArbitratedSpecifies(w', target);
    if w'.s.Key(k).phys {
      ReleaseIdeal(w', k, target, env');
      ArbitratedSpecifies(HandleKeyUp(w', k, true, target, env'), target);
    }
  }

  lemma OffPairArmed(w: World, a: Axis, k: Key)
    requires Specifies(w) && KeyAxis(k) == a && w.s.Key(k).logical && w.s.Key(k).expectedTimerId == 0
    ensures w.s.Key(k).phys || w.s.Key(Opposite(k)).phys
  {
    assert SpecifiedPair(w.s.At(a), w.mode);
  }

  /** A lingering conflict with its specified pair: the winner is held, the other key is not. */
  lemma LingeringPair(w: World, a: Axis, k: Key, id: nat)
    requires Specifies(w) && Lingers(w, a, k, id)
    ensures w.b.held[k] && w.s.Key(k).logical && !w.s.Key(Opposite(k)).logical
  {
    assert SpecifiedPair(w.s.At(a), w.mode) && RestingAxis(w.s.At(a), w.b, a);
  }

  /** Releasing the winner leaves it held beside the other key, which is not the specified pair. */
  lemma LingeringReleased(w: World, a: Axis, k: Key, id: nat, target: TargetIdentity, env: Env)
    requires Specifies(w) && Lingers(w, a, k, id)
    ensures !Specifies(HandleKeyUp(w, k, true, target, env))
  {
    hide Flush, Safety.Reachable, Specifies;
    LingeringPair(w, a, k, id);
    WinnerWanted(w, a, k, id);
    var side := SideOf(k);
    var tracked := TrackRelease(w.s.At(a), w.t, a, side);
    assert tracked == Work(SetPhys(w.s.At(a), side, false), w.t, Empty);
    var wk := RouteRelease(tracked, w.mode, a, side, w.s.suspended, target, env);
    assert wk.batch == More(Empty, Event(Opposite(k), true));
    FlushFrame(w.b, wk.batch, target, env.sends, k);
    var w' := HandleKeyUp(w, k, true, target, env);
    assert w'.s.Key(k).logical && !w'.s.Key(k).phys && w'.s.Key(Opposite(k)).phys;
    if Specifies(w') { SinglePair(w', a, k); }
  }

  lemma SinglePair(w: World, a: Axis, k: Key)
    requires Specifies(w) && KeyAxis(k) == a
    ensures w.s.Key(k).logical && !w.s.Key(k).phys ==> !w.s.Key(Opposite(k)).phys
  {
    assert SpecifiedPair(w.s.At(a), w.mode);
  }

  lemma MisfitUnrefined(w: World, physical: Bools4, a: Axis, target: TargetIdentity) returns (k: Key)
    requires Ideal(w, target) && Misfits(w, physical, a)
    ensures !RefinesThrough(w, physical, target, Obliging(target), Obliging(target), k)
  {
    hide RebuildState, HandleKeyUp, Misfits, Specifies, Arbitrated;
    var env := Obliging(target);
    var w' := RebuildState(w, physical, target, env);
    if w.mode == OFF {
      k := OffMisfitSticks(w, physical, a, target, env);
      if Specifies(w') { OffPairArmed(w', a, k); }
    } else {
      k := Winner(w, a);
      RebuiltLingers(w, physical, a, target, env);
      if Specifies(w') {
        WinnerWanted(w', a, k, w.s.Key(k).expectedTimerId);
        LingeringReleased(w', a, k, w.s.Key(k).expectedTimerId, target, env);
      }
    }
  }

  /** Main result: in an obliging world and in every mode, a rebuild and any release after it keep the specified pair
      exactly when the shown keys fit. */
  lemma RebuildRefinesIff(w: World, physical: Bools4, target: TargetIdentity)
    requires Ideal(w, target) && target.IsValid()
    ensures (forall env, env', k: Key :: ObligingEnv(env, target) && ObligingEnv(env', target) ==>
                RefinesThrough(w, physical, target, env, env', k)) <==> Fits(w, physical)
  {
    hide RefinesThrough, FitsAxis;
    if Fits(w, physical) {
      forall env, env', k: Key | ObligingEnv(env, target) && ObligingEnv(env', target)
        ensures RefinesThrough(w, physical, target, env, env', k)
      {
        FitRefines(w, physical, target, env, env', k);
      }
    } else {
      var a := if FitsAxis(w.s.x, w.mode, w.b, X, physical[D], physical[A]) then Y else X;
      assert Misfits(w, physical, a);
      var k := MisfitUnrefined(w, physical, a, target);
      assert ObligingEnv(Obliging(target), target);
    }
  }

  // ---- A run that gets there ----

  /** A tapped against the residual motion, so that a brake keeps it; then a rebuild that shows A and D down, and the
      release of A. */
  const MASK_RUN: seq<Action> :=
    [Do(KeyDown(A, true)),
     Action(KeyUp(A, true), SOME_TARGET, Obliging(SOME_TARGET).(reversed := true, brakeUs := 100000)),
     Do(Rebuild([false, false, true, true])),
     Do(KeyUp(A, true))]

  /** Only A is held, logically; nothing is physically down on either axis but A if `down`. */
  ghost predicate OnlyA(w: World, down: bool) {
    && w.mode == FULL && Holds(w.b, A) && Resting(w) && w.s.x.socdLastKey == Neg && w.s.y == RESET.y
    && SeenAxis(w.s.x, false, down) && !w.s.suspended && w.s.x.socdReleaseTimerId == 0
    && (w.s.x.neg.expectedTimerId == 0 <==> down)
  }

  lemma TapPresses()
    ensures OnlyA(Apply(START, MASK_RUN[0]), true)
  {
    var env := Obliging(SOME_TARGET);
    Safety.IdleReachable();
    var tracked := TrackPress(START.s.x, START.t, X, Neg);
    assert RoutePress(tracked, FULL, X, Neg, SOME_TARGET, env).batch == More(Empty, Event(A, true));
    FlushOne(START.b, Event(A, true), SOME_TARGET, env.sends);
    FlushReachable(START.b, More(Empty, Event(A, true)), SOME_TARGET, env.sends);
  }

  lemma TapBrakes(w: World)
    requires OnlyA(w, true)
    ensures OnlyA(Apply(w, MASK_RUN[1]), false)
  {
    hide Safety.Reachable;
    var env := MASK_RUN[1].env;
    var tracked := TrackRelease(w.s.x, w.t, X, Neg);
    assert tracked == Work(SetPhys(w.s.x, Neg, false), w.t, Empty);
    assert AutoCounterStrafe(tracked, X, Neg, false, SOME_TARGET, env).1.batch == Empty;
    assert RouteRelease(tracked, FULL, X, Neg, false, SOME_TARGET, env).batch == Empty;
  }

  lemma MaskPrimes(w: World)
    requires OnlyA(w, false)
    ensures Primed(Apply(w, MASK_RUN[2]), X, A, w.s.x.neg.expectedTimerId) && Apply(w, MASK_RUN[2]).mode == FULL
  {
    hide SettleKeys, RebuildState, Safety.Reachable;
    var mask, env := [false, false, true, true], Obliging(SOME_TARGET);
    var w0 := TakenOver(w, mask);
    assert w0.batch == Empty && w0.t == w.t;
    assert w0.s.x == w.s.x.(pos := w.s.x.pos.(phys := true), neg := w.s.x.neg.(phys := true), axisState := Conflict);
    assert w0.s.y == w.s.y;
    NoReleases(w0, 4);
    PressPass(w0, 4);
    var wk := SettleBoth(w0);
    assert forall k: Key :: !Touches(wk.batch, k);
    FlushPresses(w.b, wk.batch);
    FlushReachable(w.b, wk.batch, SOME_TARGET, env.sends);
    RebuildIs(w, mask, SOME_TARGET, env);
    CommitSameButLogical(w0.s, wk.s, Flush(w.b, wk.batch, SOME_TARGET, env.sends));
  }

  /** A disciplined run of routed edges, in which everything succeeds, but for one rebuild that shows keys that do not
      fit, ends with A and D both held. */
  lemma MaskRunHoldsBoth()
    ensures var w := Run(START, MASK_RUN); w.b.held[A] && w.b.held[D]
  {
    hide Apply, HandleKeyUp;
    var w1 := Apply(START, MASK_RUN[0]);
    TapPresses();
    var w2 := Apply(w1, MASK_RUN[1]);
    TapBrakes(w1);
    var w3 := Apply(w2, MASK_RUN[2]);
    MaskPrimes(w2);
    PrimedIsBraked(w3, X, A, w2.s.x.neg.expectedTimerId);
    MaskRunEnds(w3, w2.s.x.neg.expectedTimerId);
    var s := MASK_RUN;
    assert Run(START, s[..0]) == START;
    RunTake(s, 0);
    RunTake(s, 1);
    RunTake(s, 2);
    RunTake(s, 3);
    assert s[..4] == s;
  }

  lemma MaskRunEnds(w: World, id: nat)
    requires Primed(w, X, A, id) && w.mode == FULL
    ensures var w' := Apply(w, MASK_RUN[3]); w'.b.held[A] && w'.b.held[D]
  {
    hide HandleKeyUp;
    WinnerWanted(w, X, A, id);
    PrimedIsBraked(w, X, A, id);
    BrakedReleaseBatch(w, A, SOME_TARGET, Obliging(SOME_TARGET));
  }
}
