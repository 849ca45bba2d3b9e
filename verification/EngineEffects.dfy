/** What a cleanup and a mode change achieve, and that no step leaves a timer armed that nothing awaits. */
module EngineEffects {
  import opened Keys
  import opened TargetPlatform
  import opened Engine
  import opened EngineInvariant
  import opened EngineSafety
  import opened EngineReconcile
  import opened EngineRuns
  import opened EngineRefinement
  import opened SocdRefinement
  import opened StaleTimers
  import opened TimerArming
  import I = Injection
  import T = Timers
  import Safety = InjectionSafety

  // ---- Cleanup, suspension, unrouted edges ----

  /** The first n keys await nothing and their slots are free. */
  ghost predicate Disarmed(w: WorkAll, n: nat) {
    forall k: Key :: k < n ==> w.s.Key(k).expectedTimerId == 0 && !w.t.slots[k].active
  }

  lemma {:induction false} ReleaseKeysDisarm(w: WorkAll, n: nat)
    requires n <= 4
    ensures Disarmed(ReleaseKeys(w, n), n)
  {
    if n > 0 {
      ReleaseKeysDisarm(w, n - 1);
      var w1 := ReleaseKeys(w, n - 1);
      var a, side := KeyAxis(n - 1), SideOf(n - 1);
      ReleaseForgets(w1.At(a), a, side);
      ForgetsAt(w1, a, Release(DisarmAndForget(w1.At(a), a, side), a, side));
      LastDisarmed(w1.At(a), a, side);
      forall k: Key | k < n
        ensures ReleaseKeys(w, n).s.Key(k).expectedTimerId == 0 && !ReleaseKeys(w, n).t.slots[k].active
      {
        ForgetsKey(w1.s, w1.t, ReleaseKeys(w, n).s, ReleaseKeys(w, n).t, k);
      }
    }
  }

  lemma LastDisarmed(w: Work, a: Axis, side: Side)
    ensures var w' := Release(DisarmAndForget(w, a, side), a, side);
            w'.r.Key(side).expectedTimerId == 0 && !w'.t.slots[KeyOf(a, side)].active
  {
  }

  /** Main result: after a cleanup no key awaits a timer, the slots of the keys are free, physical keys are as they
      were, and a key still held has its release pending; none is while every send is accepted. */
  lemma ClearReleases(w: World, target: TargetIdentity, env: Env, k: Key)
    requires Inv(w)
    ensures var w' := ClearHeldKeys(w, target, env);
            && w'.s.Key(k).expectedTimerId == 0 && !w'.t.slots[k].active && w'.s.Key(k).phys == w.s.Key(k).phys
            && (w'.b.held[k] ==> w'.b.pending[k]) && w'.s.suspended == w.s.suspended
            && (Calm(w.b, target) && ObligingEnv(env, target) ==> !w'.b.held[k])
  {
    hide Inv, Calm, Obliges, ReleaseKeys, CancelSocdTransition, Flush, AxisOk;
    var w' := ClearHeldKeys(w, target, env);
    ClearKeeps(w, target, env);
    ClearSlots(w, target, env, k);
    assert KeyOk(w'.s.At(KeyAxis(k)), w'.t, w'.b, KeyAxis(k), SideOf(k)) by { InvKey(w', k); }
    if Calm(w.b, target) && ObligingEnv(env, target) { ClearCalm(w, target, env); }
  }

  lemma InvKey(w: World, k: Key)
    requires Inv(w)
    ensures KeyOk(w.s.At(KeyAxis(k)), w.t, w.b, KeyAxis(k), SideOf(k))
  {
  }

  lemma ClearSlots(w: World, target: TargetIdentity, env: Env, k: Key)
    ensures var w' := ClearHeldKeys(w, target, env);
            w'.s.Key(k).expectedTimerId == 0 && !w'.t.slots[k].active && w'.s.suspended == w.s.suspended
  {
    hide ReleaseKeys, CancelSocdTransition, Flush;
    var w0 := WorkAll(w.s, w.t, Empty);
    var w1 := w0.With(X, CancelSocdTransition(w0.At(X), X));
    var w2 := w1.With(Y, CancelSocdTransition(w1.At(Y), Y));
    var w3 := w2.(s := w2.s.(x := Idled(w2.s.x), y := Idled(w2.s.y)));
    ReleaseKeysDisarm(w3, 4);
    var w4 := ReleaseKeys(w3, 4);
    assert w4.s.Key(k).expectedTimerId == 0 && !w4.t.slots[k].active;
    SameSuspended(w3, 4);
    CommitSameAt(w4.s, Flush(w.b, w4.batch, target, env.sends), KeyAxis(k));
  }

  lemma {:induction false} SameSuspended(w: WorkAll, n: nat)
    requires n <= 4
    ensures ReleaseKeys(w, n).s.suspended == w.s.suspended
  {
    if n > 0 { SameSuspended(w, n - 1); }
  }

  /** Main result: suspending is a cleanup, resuming by itself sends nothing and touches no timer; each turns the flag
      and no physical key. */
  lemma SuspendIs(w: World, target: TargetIdentity, env: Env, k: Key)
    ensures var w' := ToggleSuspend(w, target, env);
            && w'.s.suspended == !w.s.suspended && w'.mode == w.mode
            && (w.s.suspended ==>
                  w'.b == w.b && w'.t == w.t && w'.s.Key(k).expectedTimerId == w.s.Key(k).expectedTimerId
                  && w'.s.Key(k).phys == w.s.Key(k).phys)
            && (!w.s.suspended ==> w'.s.Key(k).expectedTimerId == 0 && !w'.t.slots[k].active)
  {
    hide ClearHeldKeys;
    var w1 := w.(s := w.s.(suspended := true));
    if !w.s.suspended {
      ClearSlots(w1, target, env, k);
      ClearKeepsMode(w1, target, env);
    }
  }

  /** Main result: an unrouted edge is only noted: nothing reaches the boundary and no timer is armed. */
  lemma UnroutedIsNoted(w: World, k: Key, down: bool, target: TargetIdentity, env: Env, j: Key)
    ensures var w' := if down then HandleKeyDown(w, k, false, target, env) else HandleKeyUp(w, k, false, target, env);
            && w'.b == w.b && w'.mode == w.mode && w'.s.suspended == w.s.suspended
            && ForgotKey(w.s.Key(j), w.t, w'.s.Key(j), w'.t, j)
  {
    hide TrackRelease, TrackPress, TrackIfOff, Forgot, SameExceptNative;
    var a, side := KeyAxis(k), SideOf(k);
    var r := if down then TrackPress(w.s.At(a), w.t, a, side) else TrackRelease(w.s.At(a), w.t, a, side);
    var s := TrackIfOff(w, w.s.With(a, r.r), target, env);
    var w' := if down then HandleKeyDown(w, k, false, target, env) else HandleKeyUp(w, k, false, target, env);
    UnroutedForgets(w.s.At(a), w.t, a, side);
    TrackIfOffAt(w, w.s.With(a, r.r), a, target, env);
    TrackIfOffSame(w, w.s.With(a, r.r), a, target, env);
    TrackIfOffSame(w, w.s.With(a, r.r), OtherAxis(a), target, env);
    if !down {
      var wk := Work(w.s.At(a), w.t, Empty);
      FinishAt(w, w.s, a, wk, target, env);
      FinishAt(w, s, a, r.(r := s.At(a)), target, env);
    }
    if w.s.Key(k).phys != down { NotedKeys(w, w', a, r, s, j); } else if !down { RepeatNoted(w, w', a, j); }
  }

  lemma NotedKeys(w: World, w': World, a: Axis, r: Work, s: State, j: Key)
    requires Forgot(w.s.At(a), w.t, r.r, r.t, a) && SameTimers(w.t, r.t, OtherAxis(a)) && w'.t == r.t
    requires SameExceptNative(r.r, s.At(a)) && SameExceptNative(w.s.At(OtherAxis(a)), s.At(OtherAxis(a)))
    requires SameExceptNative(s.At(a), w'.s.At(a)) && SameExceptNative(s.At(OtherAxis(a)), w'.s.At(OtherAxis(a)))
    ensures ForgotKey(w.s.Key(j), w.t, w'.s.Key(j), w'.t, j)
  {
  }

  lemma RepeatNoted(w: World, w': World, a: Axis, j: Key)
    requires SameExceptNative(w.s.At(a), w'.s.At(a)) && SameExceptNative(w.s.At(OtherAxis(a)), w'.s.At(OtherAxis(a)))
    requires w'.t == w.t
    ensures ForgotKey(w.s.Key(j), w.t, w'.s.Key(j), w'.t, j)
  {
  }

  lemma UnroutedForgets(r: AxisRecord, t: T.Timers, a: Axis, side: Side)
    ensures var w := TrackPress(r, t, a, side);
            w.batch == Empty && Forgot(r, t, w.r, w.t, a) && SameTimers(t, w.t, OtherAxis(a))
    ensures var w := TrackRelease(r, t, a, side);
            w.batch == Empty && Forgot(r, t, w.r, w.t, a) && SameTimers(t, w.t, OtherAxis(a))
  {
    hide CancelSocdTransition;
    CancelForgets(Work(r, t, Empty), a);
    CancelSendsNothing(Work(r, t, Empty), a);
  }

  // ---- Mode changes ----

  lemma NothingHeld(b: I.Boundary)
    ensures true !in b.held[..4] <==> forall k: Key :: !b.held[k]
    ensures true !in b.pending <==> forall s: I.Slot :: !b.pending[s]
  {
    if true in b.held[..4] {
      var k :| 0 <= k < 4 && b.held[..4][k] == true;
      assert b.held[k];
    }
    if k: Key :| b.held[k] { assert b.held[..4][k]; }
    if true in b.pending {
      var s :| 0 <= s < 6 && b.pending[s] == true;
      assert b.pending[s];
    }
  }

  /** Main result: a mode change takes place exactly if neither the hook nor the engine sees a movement key down and
      the cleanup leaves no movement key held and no release owed; it changes nothing but the mode beyond the
      cleanup, and nothing at all while a key is down. */
  lemma ModeChangesIff(w: World, mode: SocdMode, ledgerIdle: bool, target: TargetIdentity, env: Env)
    ensures var w', idle := Apply(w, Action(SetMode(mode, ledgerIdle), target, env)),
                            ledgerIdle && forall k: Key :: !w.s.Key(k).phys;
            && w' == (if idle then ClearHeldKeys(w, target, env).(mode := w'.mode) else w)
            && w'.mode == (if idle && (forall k: Key :: !w'.b.held[k]) && (forall s: I.Slot :: !w'.b.pending[s])
                           then mode else w.mode)
  {
    hide ClearHeldKeys;
    assert NoPhysicalKey(w.s) <==> forall k: Key :: !w.s.Key(k).phys by {
      assert w.s.x.pos == w.s.Key(D) && w.s.x.neg == w.s.Key(A) && w.s.y.pos == w.s.Key(W) && w.s.y.neg == w.s.Key(S);
    }
    ClearKeepsMode(w, target, env);
    NothingHeld(ClearHeldKeys(w, target, env).b);
  }

  lemma ClearKeepsMode(w: World, target: TargetIdentity, env: Env)
    ensures ClearHeldKeys(w, target, env).mode == w.mode
  {
  }

  /** Main result: with every send accepted and no release owed, a change of mode between keystrokes always takes
      place. */
  lemma IdleModeChanges(w: World, mode: SocdMode, target: TargetIdentity, env: Env)
    requires Inv(w) && Calm(w.b, target) && ObligingEnv(env, target) && forall k: Key :: !w.s.Key(k).phys
    ensures Apply(w, Action(SetMode(mode, true), target, env)).mode == mode
  {
    hide ClearHeldKeys, Inv;
    ModeChangesIff(w, mode, true, target, env);
    ClearCalm(w, target, env);
    forall s: I.Slot ensures !ClearHeldKeys(w, target, env).b.pending[s] {
      Safety.ReachableSlot(ClearHeldKeys(w, target, env).b, s);
    }
  }

  // ---- With the cleaner off ----

  predicate OnlyUps(batch: Batch) {
    match batch
    case Empty => true
    case More(rest, e) => !e.down && OnlyUps(rest)
  }

  /** Only releases have been accepted since. */
  ghost predicate ReleasedSince(log: seq<I.Accepted>, log': seq<I.Accepted>) {
    log <= log' && forall i :: |log| <= i < |log'| ==> !log'[i].down
  }

  lemma {:induction false} FlushReleases(b: I.Boundary, batch: Batch, target: TargetIdentity,
        sends: nat -> I.Dispatch)
    requires OnlyUps(batch)
    ensures ReleasedSince(b.log, Flush(b, batch, target, sends).log)
  {
    match batch
    case Empty =>
    case More(rest, e) => FlushReleases(b, rest, target, sends);
  }

  lemma OffResolveUps(w: Work, a: Axis, onPress: bool, target: TargetIdentity, env: Env)
    requires OnlyUps(w.batch)
    ensures OnlyUps(ResolveAxis(w, OFF, a, onPress, target, env).batch)
  {
    hide CancelSocdTransition;
    CancelSendsNothing(w, a);
  }

  lemma CancelSendsNothing(w: Work, a: Axis)
    ensures CancelSocdTransition(w, a).batch == w.batch
  {
  }

  lemma OffPressUps(w: Work, a: Axis, side: Side, target: TargetIdentity, env: Env)
    requires OnlyUps(w.batch)
    ensures OnlyUps(RoutePress(w, OFF, a, side, target, env).batch)
  {
    hide ResolveAxis;
    OffResolveUps(w, a, true, target, env);
  }

  /** Main result: with the cleaner off the game sees the player's own presses, and the engine adds none: a press,
      routed or not, and a rebuild send releases at most. */
  lemma OffNeverPresses(w: World, k: Key, routed: bool, physical: Bools4, target: TargetIdentity, env: Env)
    requires w.mode == OFF
    ensures ReleasedSince(w.b.log, HandleKeyDown(w, k, routed, target, env).b.log)
    ensures ReleasedSince(w.b.log, RebuildState(w, physical, target, env).b.log)
  {
    hide RoutePress, ResolveAxis, TrackIfOff, TrackNative;
    var a, side := KeyAxis(k), SideOf(k);
    var tracked := TrackPress(w.s.At(a), w.t, a, side);
    var wk := tracked.(r := TrackIfOff(w, w.s.With(a, tracked.r), target, env).At(a));
    OffPressUps(wk, a, side, target, env);
    FlushReleases(w.b, RoutePress(wk, OFF, a, side, target, env).batch, target, env.sends);
    OffRebuildUps(WorkAll(Observe(w.s, physical), w.t, Empty), w.b, target, env);
    FlushReleases(w.b, ReconcileLogical(WorkAll(Observe(w.s, physical), w.t, Empty), OFF, w.b, target, env).batch,
                  target, env.sends);
  }

  lemma OffRebuildUps(w: WorkAll, b: I.Boundary, target: TargetIdentity, env: Env)
    requires w.batch == Empty
    ensures OnlyUps(ReconcileLogical(w, OFF, b, target, env).batch)
  {
    hide ResolveAxis;
    var s := TrackNative(w.s, b, target, env.nativeFocus);
    var w0 := w.(s := s.(x := s.x.(axisState := None), y := s.y.(axisState := None)));
    OffResolveUps(w0.At(X), X, false, target, env);
    var w1 := w0.With(X, ResolveAxis(w0.At(X), OFF, X, false, target, env));
    OffResolveUps(w1.At(Y), Y, false, target, env);
  }
}
