/** Stale timers are inert: over any run, disciplined or not, an id that the engine has cleared or replaced
    is never awaited again, so its expiry changes nothing however late it arrives. */
module StaleTimers {
  import opened Keys
  import opened TargetPlatform
  import opened Engine
  import opened EngineInvariant
  import opened EngineSafety
  import opened EngineRuns
  import I = Injection
  import T = Timers

  /** What one key awaits: nothing, what it awaited before, or an id issued since `first`. */
  predicate Renewed(before: nat, first: nat, now: nat, next: nat) {
    now == 0 || now == before || first <= now < next
  }

  /** Work on one axis that started from record r0 when `first` was the next id. */
  ghost predicate IdsOk(r0: AxisRecord, first: nat, w: Work) {
    && 0 < first <= w.t.nextId && r0.pos.expectedTimerId < first && r0.neg.expectedTimerId < first
    && Renewed(r0.pos.expectedTimerId, first, w.r.pos.expectedTimerId, w.t.nextId)
    && Renewed(r0.neg.expectedTimerId, first, w.r.neg.expectedTimerId, w.t.nextId)
    && (w.r.pos.expectedTimerId != 0 ==> w.r.pos.expectedTimerId != w.r.neg.expectedTimerId)
  }

  lemma OverlapIds(r0: AxisRecord, first: nat, w: Work, mode: SocdMode, a: Axis, onPress: bool,
        target: TargetIdentity, env: Env)
    requires IdsOk(r0, first, w)
    ensures IdsOk(r0, first, EnterOverlap(w, mode, a, onPress, target, env))
  {
    var w1 := DisarmAndForget(DisarmAndForget(w, a, Pos), a, Neg);
    assert IdsOk(r0, first, w1);
  }

  lemma ConflictIds(r0: AxisRecord, first: nat, w: Work, mode: SocdMode, a: Axis, onPress: bool,
        target: TargetIdentity, env: Env)
    requires IdsOk(r0, first, w)
    ensures IdsOk(r0, first, EnterConflict(w, mode, a, onPress, target, env))
  {
    OverlapIds(r0, first, w, mode, a, onPress, target, env);
    var w1 := EnterOverlap(w, mode, a, onPress, target, env);
    assert IdsOk(r0, first, Release(w1, a, Flip(w.r.socdLastKey)));
  }

  lemma CancelSocdIds(r0: AxisRecord, first: nat, w: Work, a: Axis)
    requires IdsOk(r0, first, w)
    ensures IdsOk(r0, first, CancelSocdTransition(w, a))
  {
  }

  lemma ResolveIds(r0: AxisRecord, first: nat, w: Work, mode: SocdMode, a: Axis, onPress: bool,
        target: TargetIdentity, env: Env)
    requires IdsOk(r0, first, w)
    ensures IdsOk(r0, first, ResolveAxis(w, mode, a, onPress, target, env))
  {
    hide EnterConflict, CancelSocdTransition;
    CancelSocdIds(r0, first, w, a);
    var next := w.r.Resolved();
    var w1 := TurnAxis(w, a, next);
    assert IdsOk(r0, first, w1);
    if next == Conflict {
      ConflictIds(r0, first, w1, mode, a, onPress, target, env);
    } else if next != None {
      var down := if next == Positive then Pos else Neg;
      assert IdsOk(r0, first, Hold(w1, mode, a, down));
      assert IdsOk(r0, first, Disarm(w1, a, Flip(down)));
    }
  }

  lemma RoutePressIds(r0: AxisRecord, first: nat, w: Work, mode: SocdMode, a: Axis, side: Side,
        target: TargetIdentity, env: Env)
    requires IdsOk(r0, first, w)
    ensures IdsOk(r0, first, RoutePress(w, mode, a, side, target, env))
  {
    ResolveIds(r0, first, w, mode, a, true, target, env);
    assert IdsOk(r0, first, Hold(ResolveAxis(w, mode, a, true, target, env), mode, a, side));
  }

  lemma StrafeIds(r0: AxisRecord, first: nat, w: Work, a: Axis, side: Side, suspended: bool, target: TargetIdentity,
        env: Env)
    requires IdsOk(r0, first, w)
    ensures IdsOk(r0, first, AutoCounterStrafe(w, a, side, suspended, target, env).1)
  {
    var rel := if env.reversed then Flip(side) else side;
    match AdmitBrake(w, a, rel, env)
    case Refused(t) => assert IdsOk(r0, first, w.(t := t));
    case Admitted(t, overlapId, counterId) =>
      var w1 := if overlapId == 0 then SetTimer(w.(t := t), rel, 0)
          else SetTimerFor(w.(t := t), rel, overlapId, target);
      var w2 := SetTimerFor(w1, Flip(rel), counterId, target);
      assert IdsOk(r0, first, w2);
  }

  lemma RouteReleaseIds(r0: AxisRecord, first: nat, w: Work, mode: SocdMode, a: Axis, side: Side, suspended: bool,
        target: TargetIdentity, env: Env)
    requires IdsOk(r0, first, w)
    ensures IdsOk(r0, first, RouteRelease(w, mode, a, side, suspended, target, env))
  {
    hide AutoCounterStrafe, ResolveAxis;
    StrafeIds(r0, first, w, a, side, suspended, target, env);
    var (strafed, w1) :=
      if !BrakePending(w.r, side) && !w.r.Key(Flip(side)).phys
      then AutoCounterStrafe(w, a, side, suspended, target, env)
                         else (BrakePending(w.r, side), w);
    var w2 := if strafed then w1 else Release(w1, a, side);
    assert IdsOk(r0, first, w2);
    ResolveIds(r0, first, w2, mode, a, false, target, env);
  }

  lemma ExpireIds(r0: AxisRecord, first: nat, w: Work, mode: SocdMode, a: Axis, side: Side, suspended: bool)
    requires IdsOk(r0, first, w)
    ensures IdsOk(r0, first, ExpireTimer(w, mode, a, side, suspended))
  {
    assert IdsOk(r0, first, SetTimerFor(w, side, 0, NO_TARGET));
  }

  // ---- Handlers of both axes only forget ----

  /** The key awaits what it awaited before and its slot is as it was, or it has been disarmed. */
  ghost predicate ForgotKey(k: KeyState, t: T.Timers, k': KeyState, t': T.Timers, key: Key) {
    || (k'.expectedTimerId == k.expectedTimerId && t'.slots[key] == t.slots[key])
    || (k'.expectedTimerId == 0 && !t'.slots[key].active)
  }

  ghost predicate Forgot(r: AxisRecord, t: T.Timers, r': AxisRecord, t': T.Timers, a: Axis) {
    && ForgotKey(r.pos, t, r'.pos, t', KeyOf(a, Pos)) && ForgotKey(r.neg, t, r'.neg, t', KeyOf(a, Neg))
    && t'.nextId == t.nextId
  }

  ghost predicate Forgets(s: State, t: T.Timers, s': State, t': T.Timers) {
    Forgot(s.x, t, s'.x, t', X) && Forgot(s.y, t, s'.y, t', Y)
  }

  lemma CancelForgets(w: Work, a: Axis)
    ensures var w' := CancelSocdTransition(w, a);
            Forgot(w.r, w.t, w'.r, w'.t, a) && SameTimers(w.t, w'.t, OtherAxis(a))
  {
  }

  /** Emitting an edge changes neither timers nor physical keys. */
  ghost predicate SameWatch(w: Work, w': Work) {
    && w'.t == w.t && w'.r.pos.expectedTimerId == w.r.pos.expectedTimerId
    && w'.r.neg.expectedTimerId == w.r.neg.expectedTimerId
    && w'.r.pos.phys == w.r.pos.phys && w'.r.neg.phys == w.r.neg.phys
  }

  lemma HoldSame(w: Work, mode: SocdMode, a: Axis, side: Side)
    ensures SameWatch(w, Hold(w, mode, a, side)) && SameWatch(w, Release(w, a, side))
  {
  }

  lemma StaleForgets(r: AxisRecord, t: T.Timers, w: Work, a: Axis, opp: Side)
    requires Forgot(r, t, w.r, w.t, a) && SameTimers(t, w.t, OtherAxis(a))
    ensures var w' := CancelStaleCounterStrafe(w, a, opp);
            Forgot(r, t, w'.r, w'.t, a) && SameTimers(t, w'.t, OtherAxis(a))
  {
    var w1 := Disarm(w, a, opp);
    assert Forgot(r, t, w1.r, w1.t, a) && SameTimers(t, w1.t, OtherAxis(a));
    HoldSame(w1, FULL, a, opp);
  }

  lemma SameForgot(w: Work, a: Axis)
    ensures Forgot(w.r, w.t, w.r, w.t, a) && SameTimers(w.t, w.t, OtherAxis(a))
  {
  }

  lemma TurnForgets(w: Work, a: Axis, next: AxisState)
    ensures var w' := TurnAxis(w, a, next);
            && Forgot(w.r, w.t, w'.r, w'.t, a) && SameTimers(w.t, w'.t, OtherAxis(a))
            && w'.r.socdLastKey == w.r.socdLastKey && w'.r.socdReleaseTimerId == 0 && w'.r.Resolved() == w.r.Resolved()
  {
    hide CancelSocdTransition;
    CancelForgets(w, a);
    CancelKeeps(w, a);
  }

  lemma CancelKeeps(w: Work, a: Axis)
    ensures var w' := CancelSocdTransition(w, a);
            w'.r.socdLastKey == w.r.socdLastKey && w'.r.socdReleaseTimerId == 0 && w'.r.Resolved() == w.r.Resolved()
  {
  }

  lemma SameItself(w: Work)
    ensures SameWatch(w, w)
  {
  }

  /** Resolving the axis without a press arms nothing. */
  lemma ResolveForgets(w: Work, mode: SocdMode, a: Axis, target: TargetIdentity, env: Env)
    ensures var w' := ResolveAxis(w, mode, a, false, target, env);
            Forgot(w.r, w.t, w'.r, w'.t, a) && SameTimers(w.t, w'.t, OtherAxis(a))
  {
    hide TurnAxis, EnterConflict, Hold, CancelStaleCounterStrafe, Forgot, SameTimers;
    var next := w.r.Resolved();
    var w1 := TurnAxis(w, a, next);
    TurnForgets(w, a, next);
    SameForgot(w, a);
    if next == Conflict {
      QuietConflict(w.r, w.t, w1, mode, a, target, env);
    } else if next != None {
      var down := if next == Positive then Pos else Neg;
      HoldSame(w1, mode, a, down);
      WatchForgets(w.r, w.t, w1, Hold(w1, mode, a, down), a);
      StaleForgets(w.r, w.t, w1, a, Flip(down));
    }
  }

  lemma WatchForgets(r: AxisRecord, t: T.Timers, w: Work, w': Work, a: Axis)
    requires Forgot(r, t, w.r, w.t, a) && SameTimers(t, w.t, OtherAxis(a)) && SameWatch(w, w')
    ensures Forgot(r, t, w'.r, w'.t, a) && SameTimers(t, w'.t, OtherAxis(a))
  {
  }

  lemma QuietConflict(r: AxisRecord, t: T.Timers, w: Work, mode: SocdMode, a: Axis, target: TargetIdentity, env: Env)
    requires Forgot(r, t, w.r, w.t, a) && SameTimers(t, w.t, OtherAxis(a))
    ensures var w' := EnterConflict(w, mode, a, false, target, env);
            Forgot(r, t, w'.r, w'.t, a) && SameTimers(t, w'.t, OtherAxis(a))
  {
    hide Press, Release, Forgot, SameTimers;
    var w1 := DisarmAndForget(DisarmAndForget(w, a, Pos), a, Neg);
    BothForgets(r, t, w, a);
    var winner := w1.r.socdLastKey;
    HoldSame(w1, FULL, a, Flip(winner));
    var w2 := if w1.r.socdReleaseTimerId != 0 then w1 else Release(w1, a, Flip(winner));
    SameItself(w1);
    WatchForgets(r, t, w1, w2, a);
    HoldSame(w2, FULL, a, winner);
    WatchForgets(r, t, w2, Press(w2, a, winner), a);
  }

  lemma BothForgets(r: AxisRecord, t: T.Timers, w: Work, a: Axis)
    requires Forgot(r, t, w.r, w.t, a) && SameTimers(t, w.t, OtherAxis(a))
    ensures var w' := DisarmAndForget(DisarmAndForget(w, a, Pos), a, Neg);
            Forgot(r, t, w'.r, w'.t, a) && SameTimers(t, w'.t, OtherAxis(a))
  {
  }

  /** What one axis forgets leaves the other alone. */
  lemma ForgetsAt(w: WorkAll, a: Axis, wk: Work)
    requires Forgot(w.s.At(a), w.t, wk.r, wk.t, a) && SameTimers(w.t, wk.t, OtherAxis(a))
    ensures var w' := w.With(a, wk); Forgets(w.s, w.t, w'.s, w'.t)
  {
  }

  lemma ForgetsOn(s: State, t: T.Timers, s1: State, t1: T.Timers, s2: State, t2: T.Timers)
    requires Forgets(s, t, s1, t1) && Forgets(s1, t1, s2, t2)
    ensures Forgets(s, t, s2, t2)
  {
  }

  lemma {:induction false} SettleForgets(w: WorkAll, s: State, down: bool, n: nat)
    requires n <= 4
    ensures var w' := SettleKeys(w, s, down, n); Forgets(w.s, w.t, w'.s, w'.t)
  {
    hide Forgets, Forgot, Desired, SettleKey, SameTimers;
    if n == 0 {
      SameForgets(w.s, w.t, w.s);
    } else {
      SettleForgets(w, s, down, n - 1);
      var w1 := SettleKeys(w, s, down, n - 1);
      var a, side := KeyAxis(n - 1), SideOf(n - 1);
      SettleKeyForgets(w1.At(a), a, side, down, Desired(s.At(a), side));
      ForgetsAt(w1, a, SettleKey(w1.At(a), a, side, down, Desired(s.At(a), side)));
      ForgetsOn(w.s, w.t, w1.s, w1.t, SettleKeys(w, s, down, n).s, SettleKeys(w, s, down, n).t);
    }
  }

  lemma ReleaseForgets(w: Work, a: Axis, side: Side)
    ensures var w' := Release(DisarmAndForget(w, a, side), a, side);
            Forgot(w.r, w.t, w'.r, w'.t, a) && SameTimers(w.t, w'.t, OtherAxis(a))
  {
  }

  lemma SettleKeyForgets(w: Work, a: Axis, side: Side, down: bool, desired: bool)
    ensures var w' := SettleKey(w, a, side, down, desired);
            Forgot(w.r, w.t, w'.r, w'.t, a) && SameTimers(w.t, w'.t, OtherAxis(a))
  {
  }

  lemma {:induction false} ReleaseKeysForgets(w: WorkAll, n: nat)
    requires n <= 4
    ensures var w' := ReleaseKeys(w, n); Forgets(w.s, w.t, w'.s, w'.t)
  {
    hide Forgets, Forgot, Release, DisarmAndForget, SameTimers;
    if n == 0 {
      SameForgets(w.s, w.t, w.s);
    } else {
      ReleaseKeysForgets(w, n - 1);
      var w1 := ReleaseKeys(w, n - 1);
      var a, side := KeyAxis(n - 1), SideOf(n - 1);
      ReleaseForgets(w1.At(a), a, side);
      ForgetsAt(w1, a, Release(DisarmAndForget(w1.At(a), a, side), a, side));
      ForgetsOn(w.s, w.t, w1.s, w1.t, ReleaseKeys(w, n).s, ReleaseKeys(w, n).t);
    }
  }

  lemma ClearForgets(w: World, target: TargetIdentity, env: Env)
    ensures var w' := ClearHeldKeys(w, target, env); Forgets(w.s, w.t, w'.s, w'.t)
  {
    hide Forgets, CancelSocdTransition, ReleaseKeys, Flush;
    var w0 := WorkAll(w.s, w.t, Empty);
    CancelForgets(w0.At(X), X);
    ForgetsAt(w0, X, CancelSocdTransition(w0.At(X), X));
    var w1 := w0.With(X, CancelSocdTransition(w0.At(X), X));
    CancelForgets(w1.At(Y), Y);
    ForgetsAt(w1, Y, CancelSocdTransition(w1.At(Y), Y));
    var w2 := w1.With(Y, CancelSocdTransition(w1.At(Y), Y));
    var w3 := w2.(s := w2.s.(x := Idled(w2.s.x), y := Idled(w2.s.y)));
    ReleaseKeysForgets(w3, 4);
    var w4 := ReleaseKeys(w3, 4);
    SameForgets(w2.s, w2.t, w3.s);
    ForgetsOn(w0.s, w0.t, w1.s, w1.t, w2.s, w2.t);
    ForgetsOn(w0.s, w0.t, w2.s, w2.t, w3.s, w3.t);
    ForgetsOn(w0.s, w0.t, w3.s, w3.t, w4.s, w4.t);
    CommitForgets(w0.s, w0.t, w4.s, w4.t, Flush(w.b, w4.batch, target, env.sends));
  }

  lemma SameForgets(s: State, t: T.Timers, s': State)
    requires s'.x.pos.expectedTimerId == s.x.pos.expectedTimerId && s'.x.neg.expectedTimerId == s.x.neg.expectedTimerId
    requires s'.y.pos.expectedTimerId == s.y.pos.expectedTimerId && s'.y.neg.expectedTimerId == s.y.neg.expectedTimerId
    ensures Forgets(s, t, s', t)
  {
  }

  lemma CommitForgets(s: State, t: T.Timers, s': State, t': T.Timers, b: I.Boundary)
    requires Forgets(s, t, s', t')
    ensures Forgets(s, t, Commit(s', b), t')
  {
  }

  lemma ReconcileForgets(w: WorkAll, mode: SocdMode, b: I.Boundary, target: TargetIdentity, env: Env)
    ensures var w' := ReconcileLogical(w, mode, b, target, env); Forgets(w.s, w.t, w'.s, w'.t)
  {
    hide Forgets, ResolveAxis, CancelSocdTransition, SettleKeys, TrackNative;
    if mode == OFF {
      var s := TrackNative(w.s, b, target, env.nativeFocus);
      var w0 := w.(s := s.(x := s.x.(axisState := None), y := s.y.(axisState := None)));
      TrackedForgets(w.s, w.t, b, target, env);
      SameForgets(s, w.t, w0.s);
      ForgetsOn(w.s, w.t, s, w.t, w0.s, w.t);
      ResolveForgets(w0.At(X), OFF, X, target, env);
      ForgetsAt(w0, X, ResolveAxis(w0.At(X), OFF, X, false, target, env));
      var w1 := w0.With(X, ResolveAxis(w0.At(X), OFF, X, false, target, env));
      ResolveForgets(w1.At(Y), OFF, Y, target, env);
      ForgetsAt(w1, Y, ResolveAxis(w1.At(Y), OFF, Y, false, target, env));
      var w2 := w1.With(Y, ResolveAxis(w1.At(Y), OFF, Y, false, target, env));
      ForgetsOn(w.s, w.t, w0.s, w0.t, w1.s, w1.t);
      ForgetsOn(w.s, w.t, w1.s, w1.t, w2.s, w2.t);
    } else {
      CancelForgets(w.At(X), X);
      ForgetsAt(w, X, ReconcileAxis(w.At(X), X));
      var w1 := w.With(X, ReconcileAxis(w.At(X), X));
      CancelForgets(w1.At(Y), Y);
      ForgetsAt(w1, Y, ReconcileAxis(w1.At(Y), Y));
      var w2 := w1.With(Y, ReconcileAxis(w1.At(Y), Y));
      ForgetsOn(w.s, w.t, w1.s, w1.t, w2.s, w2.t);
      SettleForgets(w2, w2.s, false, 4);
      var w3 := SettleKeys(w2, w2.s, false, 4);
      SettleForgets(w3, w2.s, true, 4);
      ForgetsOn(w.s, w.t, w2.s, w2.t, w3.s, w3.t);
      ForgetsOn(w.s, w.t, w3.s, w3.t, SettleBoth(w2).s, SettleBoth(w2).t);
    }
  }

  lemma TrackedForgets(s: State, t: T.Timers, b: I.Boundary, target: TargetIdentity, env: Env)
    ensures Forgets(s, t, TrackNative(s, b, target, env.nativeFocus), t)
  {
  }

  // ---- Worlds ----

  /** What the engine awaits was issued, and no two keys await the same id. */
  ghost predicate IdsFresh(w: World) {
    && w.t.nextId > 0
    && (forall k: Key :: w.s.Key(k).expectedTimerId < w.t.nextId)
    && (forall j: Key, k: Key :: j != k && w.s.Key(j).expectedTimerId != 0 ==>
          w.s.Key(j).expectedTimerId != w.s.Key(k).expectedTimerId)
  }

  ghost predicate Renews(w: World, w': World) {
    && w.t.nextId <= w'.t.nextId
    && forall k: Key :: Renewed(w.s.Key(k).expectedTimerId, w.t.nextId, w'.s.Key(k).expectedTimerId, w'.t.nextId)
  }

  lemma ForgettingRenews(w: World, w': World)
    requires IdsFresh(w) && Forgets(w.s, w.t, w'.s, w'.t)
    ensures IdsFresh(w') && Renews(w, w')
  {
    forall k: Key
      ensures w'.s.Key(k).expectedTimerId == 0 || w'.s.Key(k).expectedTimerId == w.s.Key(k).expectedTimerId
    {
    }
  }

  /** The timer thread concerns no key of the engine and issues no id. */
  lemma ThreadRenews(w: World, t: T.Timers)
    requires IdsFresh(w) && t.nextId == w.t.nextId
    ensures IdsFresh(w.(t := t)) && Renews(w, w.(t := t))
  {
  }

  lemma AxisRenews(w: World, w': World, a: Axis, wk: Work)
    requires IdsFresh(w) && IdsOk(w.s.At(a), w.t.nextId, wk) && w'.t.nextId == wk.t.nextId
    requires SameExceptNative(wk.r, w'.s.At(a)) && SameExceptNative(w.s.At(OtherAxis(a)), w'.s.At(OtherAxis(a)))
    ensures IdsFresh(w') && Renews(w, w')
  {
    forall k: Key ensures Renewed(w.s.Key(k).expectedTimerId, w.t.nextId, w'.s.Key(k).expectedTimerId, w'.t.nextId) {
      if KeyAxis(k) != a { assert w'.s.Key(k).expectedTimerId == w.s.Key(k).expectedTimerId; }
    }
  }

  lemma StartIds(w: World, a: Axis)
    requires IdsFresh(w)
    ensures IdsOk(w.s.At(a), w.t.nextId, Work(w.s.At(a), w.t, Empty))
  {
    assert w.s.Key(KeyOf(a, Pos)) == w.s.At(a).pos && w.s.Key(KeyOf(a, Neg)) == w.s.At(a).neg;
  }

  lemma DownRenews(w: World, k: Key, routed: bool, target: TargetIdentity, env: Env)
    requires IdsFresh(w)
    ensures var w' := HandleKeyDown(w, k, routed, target, env); IdsFresh(w') && Renews(w, w')
  {
    var a, side := KeyAxis(k), SideOf(k);
    if !w.s.Key(k).phys {
      StartIds(w, a);
      var tracked := TrackPress(w.s.At(a), w.t, a, side);
      assert IdsOk(w.s.At(a), w.t.nextId, tracked);
      var s := TrackIfOff(w, w.s.With(a, tracked.r), target, env);
      TrackIfOffSame(w, w.s.With(a, tracked.r), a, target, env);
      TrackIfOffSame(w, w.s.With(a, tracked.r), OtherAxis(a), target, env);
      var wk := tracked.(r := s.At(a));
      RoutePressIds(w.s.At(a), w.t.nextId, wk, w.mode, a, side, target, env);
      var wk' := if routed then RoutePress(wk, w.mode, a, side, target, env) else wk;
      FinishAt(w, s, a, wk', target, env);
      AxisRenews(w, HandleKeyDown(w, k, routed, target, env), a, wk');
    }
  }

  lemma UpRenews(w: World, k: Key, routed: bool, target: TargetIdentity, env: Env)
    requires IdsFresh(w)
    ensures var w' := HandleKeyUp(w, k, routed, target, env); IdsFresh(w') && Renews(w, w')
  {
    var a, side := KeyAxis(k), SideOf(k);
    StartIds(w, a);
    if w.s.Key(k).phys {
      CancelSocdIds(w.s.At(a), w.t.nextId, Work(w.s.At(a), w.t, Empty), a);
      var tracked := TrackRelease(w.s.At(a), w.t, a, side);
      var s := TrackIfOff(w, w.s.With(a, tracked.r), target, env);
      TrackIfOffSame(w, w.s.With(a, tracked.r), a, target, env);
      TrackIfOffSame(w, w.s.With(a, tracked.r), OtherAxis(a), target, env);
      var wk := tracked.(r := s.At(a));
      RouteReleaseIds(w.s.At(a), w.t.nextId, wk, w.mode, a, side, s.suspended, target, env);
      var wk' := if routed then RouteRelease(wk, w.mode, a, side, s.suspended, target, env) else wk;
      FinishAt(w, s, a, wk', target, env);
      AxisRenews(w, HandleKeyUp(w, k, routed, target, env), a, wk');
    } else {
      var wk := Work(w.s.At(a), w.t, Empty);
      ResolveIds(w.s.At(a), w.t.nextId, wk, w.mode, a, false, target, env);
      var wk' := if routed then ResolveAxis(wk, w.mode, a, false, target, env) else wk;
      FinishAt(w, w.s, a, wk', target, env);
      AxisRenews(w, HandleKeyUp(w, k, routed, target, env), a, wk');
    }
  }

  lemma ExpiryRenews(w: World, env: Env)
    requires IdsFresh(w)
    ensures var w' := DrainExpired(w, env); IdsFresh(w') && Renews(w, w')
  {
    if w.t.queue != [] {
      var e, w1 := w.t.queue[0], w.(t := T.Pop(w.t));
      if e.key < 4 && e.id != 0 && w.s.Key(e.key).expectedTimerId == e.id {
        var a := KeyAxis(e.key);
        StartIds(w1, a);
        var wk := Work(w.s.At(a), w1.t, Empty);
        ExpireIds(w.s.At(a), w.t.nextId, wk, w.mode, a, SideOf(e.key), w.s.suspended);
        var wk' := ExpireTimer(wk, w.mode, a, SideOf(e.key), w.s.suspended);
        FinishAt(w1, w.s, a, wk', w.s.Key(e.key).expectedTimerTarget, env);
        AxisRenews(w, DrainExpired(w, env), a, wk');
      } else {
        ForgettingRenews(w, w1);
      }
    }
  }

  lemma StepRenews(w: World, action: Action)
    requires IdsFresh(w)
    ensures IdsFresh(Apply(w, action)) && Renews(w, Apply(w, action))
  {
    hide HandleKeyDown, HandleKeyUp, DrainExpired, ClearHeldKeys, ReconcileLogical, Flush, IdsFresh, Renews;
    var Action(step, target, env) := action;
    match step
    case KeyDown(k, routed) => DownRenews(w, k, routed, target, env);
    case KeyUp(k, routed) => UpRenews(w, k, routed, target, env);
    case Expire => ExpiryRenews(w, env);
    case Rebuild(physical) =>
      var s := Observe(w.s, physical);
      ReconcileForgets(WorkAll(s, w.t, Empty), w.mode, w.b, target, env);
      ForgettingRenews(w, Apply(w, action));
    case Clear =>
      ClearForgets(w, target, env);
      ForgettingRenews(w, Apply(w, action));
    case Suspend =>
      ClearForgets(w.(s := w.s.(suspended := true)), target, env);
      ForgettingRenews(w, Apply(w, action));
    case SetMode(_, _) =>
      ClearForgets(w, target, env);
      ForgettingRenews(w, Apply(w, action));
    case PickTimer => ThreadRenews(w, T.Pick(w.t));
    case FireTimer => ThreadRenews(w, T.Fire(w.t, env.now));
    case EnqueueTimer => ThreadRenews(w, T.Enqueue(w.t));
    case _ => ForgettingRenews(w, Apply(w, action));
  }

  // ---- Runs ----

  /** The id was issued and no key awaits it. */
  ghost predicate Forgotten(w: World, id: nat) {
    0 < id < w.t.nextId && forall k: Key :: w.s.Key(k).expectedTimerId != id
  }

  lemma StaysForgotten(w: World, action: Action, id: nat)
    requires IdsFresh(w) && Forgotten(w, id)
    ensures IdsFresh(Apply(w, action)) && Forgotten(Apply(w, action), id)
  {
    StepRenews(w, action);
    forall k: Key ensures Apply(w, action).s.Key(k).expectedTimerId != id {
      assert Renewed(w.s.Key(k).expectedTimerId, w.t.nextId, Apply(w, action).s.Key(k).expectedTimerId,
          Apply(w, action).t.nextId);
    }
  }

  lemma {:induction false} ForgottenForever(w: World, actions: seq<Action>, id: nat)
    requires IdsFresh(w) && Forgotten(w, id)
    ensures IdsFresh(Run(w, actions)) && Forgotten(Run(w, actions), id)
  {
    if actions != [] {
      ForgottenForever(w, actions[..|actions| - 1], id);
      StaysForgotten(Run(w, actions[..|actions| - 1]), actions[|actions| - 1], id);
    }
  }

  lemma {:induction false} RunFresh(actions: seq<Action>)
    ensures IdsFresh(Run(START, actions))
  {
    if actions != [] {
      RunFresh(actions[..|actions| - 1]);
      StepRenews(Run(START, actions[..|actions| - 1]), actions[|actions| - 1]);
    }
  }

  /** Main result: once a step makes key k stop awaiting an id, then after any further run that id, expiring
      on any key, changes neither the engine nor what reaches the game. */
  lemma StaleIdsAreInert(before: seq<Action>, action: Action, after: seq<Action>, k: Key, j: Key, env: Env)
    requires var w := Run(START, before);
             && w.s.Key(k).expectedTimerId != 0
             && Apply(w, action).s.Key(k).expectedTimerId != w.s.Key(k).expectedTimerId
    ensures var id := Run(START, before).s.Key(k).expectedTimerId;
            var w' := Run(Apply(Run(START, before), action), after);
            && OnTimerExpired(w', j, id, env) == w'
            && (w'.t.queue != [] && w'.t.queue[0] == T.Expired(j, id) ==>
                 DrainExpired(w', env) == w'.(t := T.Pop(w'.t)))
  {
    var w := Run(START, before);
    var id := w.s.Key(k).expectedTimerId;
    RunFresh(before);
    StepRenews(w, action);
    var w1 := Apply(w, action);
    forall i: Key ensures w1.s.Key(i).expectedTimerId != id {
      assert Renewed(w.s.Key(i).expectedTimerId, w.t.nextId, w1.s.Key(i).expectedTimerId, w1.t.nextId);
    }
    ForgottenForever(w1, after, id);
  }
}
