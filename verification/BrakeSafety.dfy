/** An armed brake cannot be cut short: taps of its own key, rebuilds that do not show the opposite key down, edges of
    the other axis and other timers leave its key held and its timer as it was, in every SOCD mode. */
module BrakeSafety {
  import opened Keys
  import opened TargetPlatform
  import opened Engine
  import opened EngineInvariant
  import opened EngineSafety
  import opened EngineUnrouted
  import opened EngineReconcile
  import opened EngineRuns
  import I = Injection
  import T = Timers
  import Safety = InjectionSafety

  /** Timer `id` brakes with key k: the game holds k, nothing is owed, the opposite key is up. */
  ghost predicate Braking(w: World, k: Key, id: nat) {
    && id != 0 && w.s.Key(k).expectedTimerId == id && !w.s.Key(Opposite(k)).phys
    && w.b.held[k] && !w.b.pending[k] && T.Live(w.t, k, id)
  }

  /** Everything the brake consists of is as it was: the held key, the expected timer and its slot. */
  ghost predicate Spared(w: World, w': World, k: Key) {
    && Safety.SameSlot(w.b, w'.b, k)
    && w'.s.Key(k).expectedTimerId == w.s.Key(k).expectedTimerId
    && w'.s.Key(Opposite(k)).phys == w.s.Key(Opposite(k)).phys
    && w'.t.slots[k] == w.t.slots[k]
  }

  // ---- Work that spares a key of its own axis ----

  ghost predicate Spares(w: Work, w': Work, a: Axis, side: Side) {
    && w'.r.Key(side).expectedTimerId == w.r.Key(side).expectedTimerId
    && w'.r.Key(side).logical == w.r.Key(side).logical
    && w'.r.Key(Flip(side)).phys == w.r.Key(Flip(side)).phys
    && w'.t.slots[KeyOf(a, side)] == w.t.slots[KeyOf(a, side)]
    && Touches(w'.batch, KeyOf(a, side)) == Touches(w.batch, KeyOf(a, side))
  }

  lemma FinishSpares(w: World, s: State, t: T.Timers, a: Axis, side: Side, r0: AxisRecord, wk: Work,
        target: TargetIdentity, env: Env)
    requires Spares(Work(r0, w.t, Empty), wk, a, side)
    requires r0.Key(side).expectedTimerId == w.s.At(a).Key(side).expectedTimerId
    requires r0.Key(Flip(side)).phys == w.s.At(a).Key(Flip(side)).phys
    ensures Spared(w, FinishAxis(w.(t := t), s, a, wk, target, env), KeyOf(a, side))
  {
    FlushFrame(w.b, wk.batch, target, env.sends, KeyOf(a, side));
  }

  // ---- Taps of the brake's own key ----

  lemma TapDownSpares(r: AxisRecord, t: T.Timers, mode: SocdMode, a: Axis, side: Side, target: TargetIdentity, env: Env)
    requires r.Key(side).phys && !r.Key(Flip(side)).phys && r.Key(side).logical
    requires r.axisState == None && r.socdReleaseTimerId == 0
    ensures Spares(Work(r, t, Empty), RoutePress(Work(r, t, Empty), mode, a, side, target, env), a, side)
  {
  }

  lemma TapUpSpares(r: AxisRecord, t: T.Timers, mode: SocdMode, a: Axis, side: Side, suspended: bool,
        target: TargetIdentity, env: Env)
    requires !r.Key(side).phys && !r.Key(Flip(side)).phys && BrakePending(r, side) && r.socdReleaseTimerId == 0
    ensures Spares(Work(r, t, Empty), RouteRelease(Work(r, t, Empty), mode, a, side, suspended, target, env), a, side)
  {
  }

  lemma TapDown(w: World, k: Key, id: nat, target: TargetIdentity, env: Env)
    requires Inv(w) && Braking(w, k, id)
    ensures Spared(w, HandleKeyDown(w, k, true, target, env), k)
  {
    hide RoutePress, FinishAxis, T.Live;
    var a, side := KeyAxis(k), SideOf(k);
    if !w.s.Key(k).phys {
      var tracked := TrackPress(w.s.At(a), w.t, a, side);
      assert tracked.t == w.t;
      var s := PressState(w, k, target, env);
      TrackIfOffAt(w, w.s.With(a, tracked.r), a, target, env);
      TapDownSpares(s.At(a), w.t, w.mode, a, side, target, env);
      PressInOrder(w, k, target, env);
      FinishSpares(w, s, w.t, a, side, s.At(a), PressWork(w, k, target, env), target, env);
    }
  }

  lemma TapUp(w: World, k: Key, id: nat, target: TargetIdentity, env: Env)
    requires Inv(w) && Braking(w, k, id)
    ensures Spared(w, HandleKeyUp(w, k, true, target, env), k)
  {
    hide RouteRelease, FinishAxis, T.Live;
    var a, side := KeyAxis(k), SideOf(k);
    if w.s.Key(k).phys {
      var tracked := TrackRelease(w.s.At(a), w.t, a, side);
      assert tracked.t == w.t;
      var s := ReleaseState(w, k, target, env);
      TrackIfOffAt(w, w.s.With(a, tracked.r), a, target, env);
      TapUpSpares(s.At(a), w.t, w.mode, a, side, s.suspended, target, env);
      ReleaseInOrder(w, k, target, env);
      FinishSpares(w, s, w.t, a, side, s.At(a), ReleaseWork(w, k, target, env), target, env);
    } else {
      var wk := Work(w.s.At(a), w.t, Empty);
      assert ResolveAxis(wk, w.mode, a, false, target, env) == wk;
      FinishSpares(w, w.s, w.t, a, side, w.s.At(a), wk, target, env);
    }
  }

  // ---- Edges and timers of the other axis, the opposite key's own timer ----

  lemma OtherAxisSpares(w: World, s: State, t: T.Timers, a: Axis, wk: Work, k: Key, target: TargetIdentity, env: Env)
    requires InOrder(w.(t := t), s, a, wk) && KeyAxis(k) == OtherAxis(a) && t.slots == w.t.slots
    ensures Spared(w, FinishAxis(w.(t := t), s, a, wk, target, env), k)
  {
    FlushFrame(w.b, wk.batch, target, env.sends, k);
  }

  lemma OtherPress(w: World, j: Key, k: Key, target: TargetIdentity, env: Env)
    requires Inv(w) && KeyAxis(j) != KeyAxis(k)
    ensures Spared(w, HandleKeyDown(w, j, true, target, env), k)
  {
    if !w.s.Key(j).phys {
      PressInOrder(w, j, target, env);
      OtherAxisSpares(w, PressState(w, j, target, env), w.t, KeyAxis(j), PressWork(w, j, target, env), k, target, env);
    }
  }

  lemma OtherRelease(w: World, j: Key, k: Key, target: TargetIdentity, env: Env)
    requires Inv(w) && KeyAxis(j) != KeyAxis(k)
    ensures Spared(w, HandleKeyUp(w, j, true, target, env), k)
  {
    var a := KeyAxis(j);
    if w.s.Key(j).phys {
      ReleaseInOrder(w, j, target, env);
      OtherAxisSpares(w, ReleaseState(w, j, target, env), w.t, a, ReleaseWork(w, j, target, env), k, target, env);
    } else {
      SpuriousInOrder(w, j, target, env);
      OtherAxisSpares(w, w.s, w.t, a, ResolveAxis(Work(w.s.At(a), w.t, Empty), w.mode, a, false, target, env), k,
          target, env);
    }
  }

  lemma OtherUnrouted(w: World, j: Key, down: bool, k: Key, target: TargetIdentity, env: Env)
    requires Inv(w) && QuietAxis(w.s.At(KeyAxis(j))) && KeyAxis(j) != KeyAxis(k)
    ensures Spared(w, if down then HandleKeyDown(w, j, false, target, env)
            else HandleKeyUp(w, j, false, target, env), k)
  {
    hide HandleKeyDown, HandleKeyUp, T.Live;
    EdgeFrame(w, j, down, false, target, env);
    UnroutedSpares(w, j, down, k, target, env);
  }

  lemma UnroutedSpares(w: World, j: Key, down: bool, k: Key, target: TargetIdentity, env: Env)
    requires Inv(w) && QuietAxis(w.s.At(KeyAxis(j))) && KeyAxis(j) != KeyAxis(k)
    ensures var w' := if down then HandleKeyDown(w, j, false, target, env) else HandleKeyUp(w, j, false, target, env);
            w'.b == w.b && w'.t.slots[k] == w.t.slots[k]
  {
  }

  lemma OtherEdge(w: World, step: Step, k: Key, target: TargetIdentity, env: Env)
    requires Inv(w) && Disciplined(w, step) && (step.KeyDown? || step.KeyUp?) && KeyAxis(step.k) != KeyAxis(k)
    ensures Spared(w, Apply(w, Action(step, target, env)), k)
  {
    if !step.routed {
      OtherUnrouted(w, step.k, step.KeyDown?, k, target, env);
    } else if step.KeyDown? {
      OtherPress(w, step.k, k, target, env);
    } else {
      OtherRelease(w, step.k, k, target, env);
    }
  }

  /** `before` are the timers before the expiry was popped. */
  lemma OppositeExpirySpares(r: AxisRecord, before: T.Timers, t: T.Timers, mode: SocdMode, a: Axis, side: Side,
                             suspended: bool)
    requires RecordOk(r, mode, before, a) && r.Key(Flip(side)).expectedTimerId != 0
    requires !r.Key(Flip(side)).phys && r.Key(side).logical
    ensures Spares(Work(r, t, Empty), ExpireTimer(Work(r, t, Empty), mode, a, Flip(side), suspended), a, side)
  {
  }

  lemma OtherExpiry(w: World, k: Key, id: nat, env: Env)
    requires Inv(w) && Braking(w, k, id) && w.t.queue != [] && w.t.queue[0] != T.Expired(k, id)
    ensures Spared(w, DrainExpired(w, env), k)
  {
    var e, t := w.t.queue[0], T.Pop(w.t);
    if e.key < 4 && e.id != 0 && w.s.Key(e.key).expectedTimerId == e.id {
      var a := KeyAxis(e.key);
      OwnExpiryInOrder(w, e.key);
      if a != KeyAxis(k) {
        OtherAxisSpares(w, w.s, t, a, ExpiryWork(w, e.key), k, w.s.Key(e.key).expectedTimerTarget, env);
      } else {
        assert e.key == Opposite(k) && SideOf(e.key) == Flip(SideOf(k));
        OppositeExpirySpares(w.s.At(a), w.t, t, w.mode, a, SideOf(k), w.s.suspended);
        assert Spares(Work(w.s.At(a), w.t, Empty), ExpiryWork(w, e.key), a, SideOf(k));
        FinishSpares(w, w.s, t, a, SideOf(k), w.s.At(a), ExpiryWork(w, e.key), w.s.Key(e.key).expectedTimerTarget, env);
      }
    }
  }

  // ---- Rebuilds ----

  lemma {:induction false} SettleSpares(w: WorkAll, s: State, down: bool, n: nat, k: Key)
    requires n <= 4 && Desired(s.At(KeyAxis(k)), SideOf(k)) && w.s.Key(k).logical
    ensures var w' := SettleKeys(w, s, down, n);
            && w'.s.Key(k) == w.s.Key(k) && w'.s.Key(Opposite(k)).phys == w.s.Key(Opposite(k)).phys
            && w'.t.slots[k] == w.t.slots[k] && Touches(w'.batch, k) == Touches(w.batch, k)
  {
    if n > 0 {
      SettleSpares(w, s, down, n - 1, k);
      SettleKeySpares(SettleKeys(w, s, down, n - 1), s, down, n - 1, k);
    }
  }

  lemma SettleKeySpares(w: WorkAll, s: State, down: bool, n: Key, k: Key)
    requires Desired(s.At(KeyAxis(k)), SideOf(k)) && w.s.Key(k).logical
    ensures var a, side := KeyAxis(n), SideOf(n);
            var w' := w.With(a, SettleKey(w.At(a), a, side, down, Desired(s.At(a), side)));
            && w'.s.Key(k) == w.s.Key(k) && w'.s.Key(Opposite(k)).phys == w.s.Key(Opposite(k)).phys
            && w'.t.slots[k] == w.t.slots[k] && Touches(w'.batch, k) == Touches(w.batch, k)
  {
  }

  lemma FlushSpares(w: World, wk: WorkAll, k: Key, target: TargetIdentity, env: Env)
    requires !Touches(wk.batch, k) && wk.t.slots[k] == w.t.slots[k]
    ensures var w' := FlushAndCommit(w, wk.s, wk.t, wk.batch, target, env);
            && Safety.SameSlot(w.b, w'.b, k) && w'.t.slots[k] == w.t.slots[k]
            && w'.s.Key(k).expectedTimerId == wk.s.Key(k).expectedTimerId
            && w'.s.Key(Opposite(k)).phys == wk.s.Key(Opposite(k)).phys
  {
    FlushFrame(w.b, wk.batch, target, env.sends, k);
  }

  /** The cleaner does not want the brake's key up: the opposite key is shown up, or the brake's key is shown down
      and was pressed last. */
  predicate Wanted(w: World, physical: Bools4, k: Key) {
    !physical[Opposite(k)] || (physical[k] && w.s.At(KeyAxis(k)).socdLastKey == SideOf(k))
  }

  lemma TakenOverSpares(w: World, physical: Bools4, k: Key, id: nat)
    requires Inv(w) && Braking(w, k, id) && w.mode != OFF
    ensures var w0 := TakenOver(w, physical);
            && w0.s.Key(k).expectedTimerId == id && w0.s.Key(k).logical && w0.t.slots[k] == w.t.slots[k]
            && w0.s.Key(Opposite(k)).phys == physical[Opposite(k)] && w0.batch == Empty
            && (Desired(w0.s.At(KeyAxis(k)), SideOf(k)) <==> Wanted(w, physical, k))
  {
    hide T.Live, TimersOk, AxisOk, Shown, CancelSocdTransition;
    var a := KeyAxis(k);
    BrakingRecord(w, k, id);
    var pos, neg := if a == X then physical[D] else physical[W], if a == X then physical[A] else physical[S];
    ShownIs(w.s.At(a), pos, neg);
    assert Observe(w.s, physical).At(a) == Shown(w.s.At(a), pos, neg);
    ReconcileFrame(Work(Observe(w.s, physical).x, w.t, Empty), X, k);
    var w1 := ReconcileAxis(Work(Observe(w.s, physical).x, w.t, Empty), X);
    ReconcileFrame(Work(Observe(w.s, physical).y, w1.t, Empty), Y, k);
  }

  lemma BrakingRecord(w: World, k: Key, id: nat)
    requires Inv(w) && Braking(w, k, id) && w.mode != OFF
    ensures w.s.Key(k).logical && w.s.At(KeyAxis(k)).socdReleaseTimerId == 0
  {
  }

  lemma ShownIs(r: AxisRecord, pos: bool, neg: bool)
    ensures var r' := Shown(r, pos, neg);
            r' == r.(pos := r.pos.(phys := pos), neg := r.neg.(phys := neg))
  {
  }

  lemma ReconcileFrame(w: Work, a: Axis, k: Key)
    requires w.batch == Empty
    ensures var w' := ReconcileAxis(w, a);
            && w'.batch == Empty
            && (KeyAxis(k) != a || w.r.socdReleaseTimerId == 0 ==> w'.t.slots[k] == w.t.slots[k])
            && (w.r.socdReleaseTimerId == 0 ==> w'.r == w.r.(axisState := w.r.Resolved()))
  {
  }

  lemma CleanedRebuildSpares(w: World, physical: Bools4, k: Key, id: nat, target: TargetIdentity, env: Env)
    requires Inv(w) && Braking(w, k, id) && w.mode != OFF && Wanted(w, physical, k)
    ensures var w' := RebuildState(w, physical, target, env);
            && Safety.SameSlot(w.b, w'.b, k) && w'.t.slots[k] == w.t.slots[k]
            && w'.s.Key(k).expectedTimerId == id && w'.s.Key(Opposite(k)).phys == physical[Opposite(k)]
  {
    hide SettleKeys, FlushAndCommit, TakenOver, Desired, T.Live, TimersOk, AxisOk;
    TakenOverSpares(w, physical, k, id);
    var w0 := TakenOver(w, physical);
    SettleSpares(w0, w0.s, false, 4, k);
    SettleSpares(SettleKeys(w0, w0.s, false, 4), w0.s, true, 4, k);
    FlushSpares(w, SettleBoth(w0), k, target, env);
    RebuildIs(w, physical, target, env);
  }

  /** A key that is not wanted loses its timer when its turn among the releases comes. */
  lemma {:induction false} SettleCuts(w: WorkAll, s: State, n: nat, k: Key)
    requires n <= 4 && !Desired(s.At(KeyAxis(k)), SideOf(k)) && w.s.Key(k).logical
    ensures var w' := SettleKeys(w, s, false, n);
            if n > k then w'.s.Key(k).expectedTimerId == 0 else w'.s.Key(k) == w.s.Key(k)
  {
    hide Desired;
    if n > 0 { SettleCuts(w, s, n - 1, k); }
  }

  lemma {:induction false} PressesKeepTimers(w: WorkAll, s: State, n: nat, k: Key)
    requires n <= 4
    ensures SettleKeys(w, s, true, n).s.Key(k).expectedTimerId == w.s.Key(k).expectedTimerId
  {
    hide Desired;
    if n > 0 { PressesKeepTimers(w, s, n - 1, k); }
  }

  lemma CleanedRebuildCuts(w: World, physical: Bools4, k: Key, id: nat, target: TargetIdentity, env: Env)
    requires Inv(w) && Braking(w, k, id) && w.mode != OFF && !Wanted(w, physical, k)
    ensures RebuildState(w, physical, target, env).s.Key(k).expectedTimerId == 0
  {
    hide SettleKeys, TakenOver, Desired, T.Live, TimersOk, AxisOk, Flush;
    TakenOverSpares(w, physical, k, id);
    var w0 := TakenOver(w, physical);
    SettleCuts(w0, w0.s, 4, k);
    PressesKeepTimers(SettleKeys(w0, w0.s, false, 4), w0.s, 4, k);
    RebuildIs(w, physical, target, env);
  }

  lemma OffResolveSpares(w: Work, a: Axis, side: Side, target: TargetIdentity, env: Env)
    requires !w.r.Key(Flip(side)).phys && w.r.axisState == None && w.r.socdReleaseTimerId == 0
    ensures Spares(w, ResolveAxis(w, OFF, a, false, target, env), a, side)
  {
  }

  lemma OffResolveFrame(w: Work, a: Axis, target: TargetIdentity, env: Env, k: Key)
    requires KeyAxis(k) == OtherAxis(a) && w.r.axisState == None && w.r.socdReleaseTimerId == 0
    ensures var w' := ResolveAxis(w, OFF, a, false, target, env);
            w'.t.slots[k] == w.t.slots[k] && Touches(w'.batch, k) == Touches(w.batch, k)
  {
  }

  lemma OffBothSpare(w: WorkAll, k: Key, target: TargetIdentity, env: Env)
    requires !w.s.Key(Opposite(k)).phys
    requires w.s.x.axisState == None && w.s.x.socdReleaseTimerId == 0 && w.s.y.axisState == None
             && w.s.y.socdReleaseTimerId == 0
    ensures var w1 := w.With(X, ResolveAxis(w.At(X), OFF, X, false, target, env));
            var w2 := w1.With(Y, ResolveAxis(w1.At(Y), OFF, Y, false, target, env));
            && w2.s.Key(k).expectedTimerId == w.s.Key(k).expectedTimerId
                 && w2.s.Key(Opposite(k)).phys == w.s.Key(Opposite(k)).phys
            && w2.t.slots[k] == w.t.slots[k] && Touches(w2.batch, k) == Touches(w.batch, k)
  {
    var w1 := w.With(X, ResolveAxis(w.At(X), OFF, X, false, target, env));
    if KeyAxis(k) == X {
      OffResolveSpares(w.At(X), X, SideOf(k), target, env);
      OffResolveFrame(w1.At(Y), Y, target, env, k);
    } else {
      OffResolveFrame(w.At(X), X, target, env, k);
      OffResolveSpares(w1.At(Y), Y, SideOf(k), target, env);
    }
  }

  lemma OffRebuildSpares(w: World, physical: Bools4, k: Key, id: nat, target: TargetIdentity, env: Env)
    requires Inv(w) && Braking(w, k, id) && w.mode == OFF && !physical[Opposite(k)]
    ensures var w' := RebuildState(w, physical, target, env);
            && Safety.SameSlot(w.b, w'.b, k) && w'.t.slots[k] == w.t.slots[k]
            && w'.s.Key(k).expectedTimerId == id && !w'.s.Key(Opposite(k)).phys
  {
    hide ResolveAxis, T.Live, TimersOk;
    assert w.s.x.socdReleaseTimerId == 0 && w.s.y.socdReleaseTimerId == 0;
    OffBothSpare(OffStart(w, physical, target, env), k, target, env);
    FlushSpares(w, ReconcileLogical(WorkAll(Observe(w.s, physical), w.t, Empty), OFF, w.b, target, env), k, target,
                env);
  }

  lemma OffResolveCuts(w: Work, a: Axis, side: Side, target: TargetIdentity, env: Env)
    requires w.r.Key(Flip(side)).phys && w.r.axisState == None && w.r.socdReleaseTimerId == 0
    ensures ResolveAxis(w, OFF, a, false, target, env).r.Key(side).expectedTimerId == 0
  {
  }

  lemma OffRebuildCuts(w: World, physical: Bools4, k: Key, id: nat, target: TargetIdentity, env: Env)
    requires Inv(w) && w.mode == OFF && physical[Opposite(k)]
    ensures RebuildState(w, physical, target, env).s.Key(k).expectedTimerId == 0
  {
    hide ResolveAxis, T.Live, TimersOk, Flush;
    assert w.s.x.socdReleaseTimerId == 0 && w.s.y.socdReleaseTimerId == 0;
    var w0 := OffStart(w, physical, target, env);
    OffResolveCuts(w0.At(KeyAxis(k)), KeyAxis(k), SideOf(k), target, env);
    var w1 := w0.With(X, ResolveAxis(w0.At(X), OFF, X, false, target, env));
    if KeyAxis(k) == Y { OffResolveCuts(w1.At(Y), Y, SideOf(k), target, env); }
  }

  /** Main result: a rebuild leaves an armed brake as it is exactly when the keys it is shown do not call for its
      end: the opposite key is up or, with the cleaner on, the brake's key is down as well and was pressed last. */
  lemma RebuildSparesIff(w: World, physical: Bools4, k: Key, id: nat, target: TargetIdentity, env: Env)
    requires Inv(w) && Braking(w, k, id)
    ensures var w' := RebuildState(w, physical, target, env);
            (w'.s.Key(k).expectedTimerId == id && Safety.SameSlot(w.b, w'.b, k) && w'.t.slots[k] == w.t.slots[k]) <==>
            !physical[Opposite(k)] || (w.mode != OFF && Wanted(w, physical, k))
  {
    hide RebuildState, T.Live, TimersOk, AxisOk;
    if w.mode == OFF {
      if physical[Opposite(k)] {
        OffRebuildCuts(w, physical, k, id, target, env);
      } else {
        OffRebuildSpares(w, physical, k, id, target, env);
      }
    } else if Wanted(w, physical, k) {
      CleanedRebuildSpares(w, physical, k, id, target, env);
    } else {
      CleanedRebuildCuts(w, physical, k, id, target, env);
    }
  }

  // ---- Output that is not the engine's own ----

  lemma {:induction false} NotPendingSpared(b: I.Boundary, slot: nat, target: TargetIdentity, d: I.Dispatch, k: Key)
    requires slot <= I.SLOT_COUNT && !b.pending[k]
    ensures Safety.SameSlot(b, I.ReleasePendingFrom(b, slot, target, d).0, k)
    decreases I.SLOT_COUNT - slot
  {
    if slot < I.SLOT_COUNT {
      if b.pending[slot] && b.pendingTarget[slot] == target {
        NotPendingSpared(I.ReleaseSlot(b, slot, d).0, slot + 1, target, d, k);
      } else {
        NotPendingSpared(b, slot + 1, target, d, k);
      }
    }
  }

  // ---- Runs ----

  /** The steps a brake outlives: routed taps of its key, any edge of the other axis, rebuilds that do not show the
      opposite key down, other timers, other output. */
  ghost predicate Outlived(w: World, step: Step, k: Key, id: nat) {
    match step
    case KeyDown(j, routed) => if j == k then routed else j != Opposite(k)
    case KeyUp(j, routed) => if j == k then routed else j != Opposite(k)
    case Expire => w.t.queue != [] && w.t.queue[0] != T.Expired(k, id)
    case Rebuild(physical) => !physical[Opposite(k)]
    case ReconcileOutput => true
    case Space(_) => true
    case PickTimer => true
    case FireTimer => true
    case EnqueueTimer => true
    case _ => false
  }

  lemma StepSpares(w: World, action: Action, k: Key, id: nat)
    requires Inv(w) && Disciplined(w, action.step) && Braking(w, k, id) && Outlived(w, action.step, k, id)
    requires !action.step.PickTimer? && !action.step.FireTimer? && !action.step.EnqueueTimer?
    ensures Spared(w, Apply(w, action), k)
  {
    hide HandleKeyDown, HandleKeyUp, DrainExpired, RebuildState, T.Live, TimersOk, AxisOk;
    var Action(step, target, env) := action;
    match step
    case KeyDown(j, _) => if j == k { TapDown(w, k, id, target, env); } else { OtherEdge(w, step, k, target, env); }
    case KeyUp(j, _) => if j == k { TapUp(w, k, id, target, env); } else { OtherEdge(w, step, k, target, env); }
    case Expire => OtherExpiry(w, k, id, env);
    case Rebuild(physical) =>
      if w.mode == OFF { OffRebuildSpares(w, physical, k, id, target, env); }
      else { CleanedRebuildSpares(w, physical, k, id, target, env); }
    case ReconcileOutput => NotPendingSpared(w.b, 0, target, env.sends(0), k);
    case Space(down) => SpaceFrame(w.b, if down then I.SpaceDown else I.SpaceUp, target, env.sends(0), k);
  }

  predicate ThreadStep(step: Step) {
    step.PickTimer? || step.FireTimer? || step.EnqueueTimer?
  }

  lemma ThreadSlot(t: T.Timers, t': T.Timers, now: int, k: Key)
    requires TimersOk(t) && (t' == T.Pick(t) || t' == T.Fire(t, now) || t' == T.Enqueue(t))
    ensures t'.slots[k] == t.slots[k] || t'.slots[k] == t.slots[k].(active := false)
  {
  }

  lemma StepBrakes(w: World, action: Action, k: Key, id: nat)
    requires Inv(w) && Disciplined(w, action.step) && Braking(w, k, id) && Outlived(w, action.step, k, id)
    ensures var w' := Apply(w, action);
            && Inv(w') && Braking(w', k, id) && Safety.SameSlot(w.b, w'.b, k)
            && (w'.t.slots[k] == w.t.slots[k]
                || (action.step.FireTimer? && w'.t.slots[k] == w.t.slots[k].(active := false)))
  {
    StepKeeps(w, action);
    if ThreadStep(action.step) {
      ThreadSlot(w.t, Apply(w, action).t, action.env.now, k);
    } else {
      StepSpares(w, action, k, id);
    }
    assert KeyOk(Apply(w, action).s.At(KeyAxis(k)), Apply(w, action).t, Apply(w, action).b, KeyAxis(k), SideOf(k));
  }

  ghost predicate OutlivedRun(w: World, actions: seq<Action>, k: Key, id: nat) {
    actions == [] ||
    var before, last := actions[..|actions| - 1], actions[|actions| - 1];
    OutlivedRun(w, before, k, id) && Disciplined(Run(w, before), last.step)
      && Outlived(Run(w, before), last.step, k, id)
  }

  /** Main result: through any sequence of such steps the brake's key stays held for the same owner with no
      release owed, its timer is still awaited and will arrive, and its slot, with the deadline in it, is
      exactly as it was armed until the timer thread fires it. */
  lemma {:induction false} BrakeOutlives(w: World, actions: seq<Action>, k: Key, id: nat)
    requires Inv(w) && Braking(w, k, id) && OutlivedRun(w, actions, k, id)
    ensures var w' := Run(w, actions);
            && Inv(w') && Braking(w', k, id) && Safety.SameSlot(w.b, w'.b, k)
            && (w'.t.slots[k] == w.t.slots[k] || w'.t.slots[k] == w.t.slots[k].(active := false))
            && ((forall i :: 0 <= i < |actions| ==> !actions[i].step.FireTimer?) ==> w'.t.slots[k] == w.t.slots[k])
  {
    if actions != [] {
      var before, last := actions[..|actions| - 1], actions[|actions| - 1];
      BrakeOutlives(w, before, k, id);
      StepBrakes(Run(w, before), last, k, id);
    }
  }
}
