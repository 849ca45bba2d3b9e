/** Why the router's discipline is needed: exactly which routed edges can leave both keys of an axis down, and
    undisciplined runs that get there. */
module EngineStale {
  import opened Keys
  import opened TargetPlatform
  import opened Engine
  import opened EngineExclusive
  import I = Injection
  import Safety = InjectionSafety

  /** An outside world where everything succeeds and `target` keeps the foreground. */
  const SOME_TARGET := TargetIdentity(1, 1, 1, 1, 1)

  function Obliging(target: TargetIdentity): Env {
    var f := Focus(target, target, target);
    Env(0, f, f, false, 0, 0, true, true, true, (i: nat) => I.Dispatch(f, (j: nat) => true))
  }

  function Toward(side: Side): AxisState {
    if side == Pos then Positive else Negative
  }

  /** The engine's record of an axis in FULL mode: no overlap running, logical is what is held. */
  ghost predicate Plain(w: World, a: Axis) {
    var r := w.s.At(a);
    && w.mode == FULL && r.socdReleaseTimerId == 0
    && r.pos.logical == w.b.held[KeyOf(a, Pos)] && r.neg.logical == w.b.held[KeyOf(a, Neg)]
    && !r.pos.nativeLogical && !r.neg.nativeLogical
  }

  /** The guard that fails: the axis still claims a conflict, or already the new state, while the
      opposite key is logically but not physically down. */
  predicate StaleOpposite(r: AxisRecord, side: Side) {
    r.Key(Flip(side)).logical && !r.Key(Flip(side)).phys && (r.axisState == Conflict || r.axisState == Toward(side))
  }

  lemma FreshPressNeat(w: Work, a: Axis, side: Side, target: TargetIdentity, env: Env, b: I.Boundary)
    requires Neat(w, b, a) && w.r.socdReleaseTimerId == 0 && w.r.Key(side).phys && !StaleOpposite(w.r, side)
    ensures Neat(RoutePress(w, FULL, a, side, target, env), b, a)
  {
    ResolveNeat(w, a, true, target, env, b);
    var w1 := ResolveAxis(w, FULL, a, true, target, env);
    if w1.r.axisState != Conflict { EmitNeat(w1, a, side, true, b); }
  }

  lemma FreshPressSafe(w: World, k: Key, target: TargetIdentity, env: Env)
    requires Safety.Reachable(w.b) && Exclusive(w.b.log) && Plain(w, KeyAxis(k))
    requires !w.s.Key(k).phys && !StaleOpposite(w.s.At(KeyAxis(k)), SideOf(k))
    ensures Exclusive(HandleKeyDown(w, k, true, target, env).b.log)
  {
    var a, side := KeyAxis(k), SideOf(k);
    var tracked := TrackPress(w.s.At(a), w.t, a, side);
    assert Apart(w.b.log) by { assert w.b.log[..|w.b.log|] == w.b.log; }
    ApartHeld(w.b);
    NeatStart(tracked.r, tracked.t, w.b, a);
    FreshPressNeat(tracked, a, side, target, env, w.b);
    FlushApart(w.b, RoutePress(tracked, FULL, a, side, target, env).batch, target, env.sends);
  }

  lemma FlushOne(b: I.Boundary, e: Event, target: TargetIdentity, sends: nat -> I.Dispatch)
    ensures Flush(b, More(Empty, e), target, sends) == Send(b, e, target, sends(0))
  {
    assert Flush(b, Empty, target, sends) == b && Size(Empty) == 0;
  }

  lemma FlushTwo(b: I.Boundary, e: Event, e': Event, target: TargetIdentity, sends: nat -> I.Dispatch)
    ensures Flush(b, More(More(Empty, e), e'), target, sends) ==
            Send(Send(b, e, target, sends(0)), e', target, sends(1))
  {
    FlushOne(b, e, target, sends);
    assert Size(More(Empty, e)) == 1;
  }

  /** Past the guard the press is sent while the opposite key stays down. */
  lemma StalePressBatch(w: World, k: Key, target: TargetIdentity, env: Env)
    requires Plain(w, KeyAxis(k)) && !w.s.Key(k).phys && !w.s.Key(k).logical
    requires StaleOpposite(w.s.At(KeyAxis(k)), SideOf(k))
    ensures HandleKeyDown(w, k, true, target, env).b == Send(w.b, Event(k, true), target, env.sends(0))
  {
    var a, side := KeyAxis(k), SideOf(k);
    var tracked := TrackPress(w.s.At(a), w.t, a, side);
    assert tracked.r.Resolved() == Toward(side);
    assert RoutePress(tracked, FULL, a, side, target, env).batch == More(Empty, Event(k, true));
    FlushOne(w.b, Event(k, true), target, env.sends);
  }

  /** A press beside a held opposite key breaks exclusivity as soon as it is let through. */
  lemma PressBeside(b: I.Boundary, k: Key)
    requires Safety.Reachable(b) && Exclusive(b.log) && b.held[Opposite(k)] && !b.releaseOnly
    ensures !Exclusive(Send(b, Event(k, true), SOME_TARGET, Obliging(SOME_TARGET).sends(0)).log)
  {
    var d := Obliging(SOME_TARGET).sends(0);
    assert Apart(b.log) by { assert b.log[..|b.log|] == b.log; }
    ApartHeld(b);
    var b' := Send(b, Event(k, true), SOME_TARGET, d);
    assert b'.held[k] && b'.held[Opposite(k)];
    assert b' == I.Apply(b, I.KeyDown(k), SOME_TARGET, d);
    Safety.StaysReachable(b, I.KeyDown(k), SOME_TARGET, d);
    ApartHeld(b');
    assert b'.log[..|b'.log|] == b'.log;
  }

  lemma AloneHeld(w: World, k: Key)
    requires Safety.Reachable(w.b) && Exclusive(w.b.log) && Plain(w, KeyAxis(k))
    ensures w.s.Key(k).logical == w.b.held[k] && (w.b.held[k] ==> !w.b.held[Opposite(k)])
  {
    assert Apart(w.b.log) by { assert w.b.log[..|w.b.log|] == w.b.log; }
    ApartHeld(w.b);
  }

  /** Main result: a routed press is safe against every foreground and backend behaviour exactly when it
      does not find such a stale opposite key while presses are allowed. */
  lemma RoutedPressSafeIff(w: World, k: Key)
    requires Safety.Reachable(w.b) && Exclusive(w.b.log) && Plain(w, KeyAxis(k)) && !w.s.Key(k).phys
    ensures (forall target, env :: Exclusive(HandleKeyDown(w, k, true, target, env).b.log)) <==>
            !(StaleOpposite(w.s.At(KeyAxis(k)), SideOf(k)) && !w.b.releaseOnly)
  {
    hide HandleKeyDown, Exclusive;
    if StaleOpposite(w.s.At(KeyAxis(k)), SideOf(k)) {
      AloneHeld(w, Opposite(k));
      forall target, env ensures HandleKeyDown(w, k, true, target, env).b ==
                                 Send(w.b, Event(k, true), target, env.sends(0)) {
        StalePressBatch(w, k, target, env);
      }
      if !w.b.releaseOnly {
        PressBeside(w.b, k);
        assert !Exclusive(HandleKeyDown(w, k, true, SOME_TARGET, Obliging(SOME_TARGET)).b.log);
      }
    } else {
      forall target, env ensures Exclusive(HandleKeyDown(w, k, true, target, env).b.log) {
        FreshPressSafe(w, k, target, env);
      }
    }
  }

  // ---- Releases ----

  /** The guard of a release that fails: the key ends a conflict while a brake still holds it. */
  predicate BrakedConflict(r: AxisRecord, side: Side) {
    r.axisState == Conflict && r.Key(Flip(side)).phys && BrakePending(r, side)
  }

  /** The guard of a repeated release that fails: one key survives a conflict whose other key is still
      logically down. */
  predicate StaleSurvivor(r: AxisRecord) {
    r.axisState == Conflict
    && ((r.Resolved() == Positive && r.neg.logical) || (r.Resolved() == Negative && r.pos.logical))
  }

  lemma FreshReleaseSafe(w: World, k: Key, target: TargetIdentity, env: Env)
    requires Safety.Reachable(w.b) && Exclusive(w.b.log) && Plain(w, KeyAxis(k)) && env.overlapUs <= 0
    requires w.s.Key(k).phys && !BrakedConflict(w.s.At(KeyAxis(k)), SideOf(k))
    ensures Exclusive(HandleKeyUp(w, k, true, target, env).b.log)
  {
    hide RouteRelease, Flush;
    var a, side := KeyAxis(k), SideOf(k);
    var tracked := TrackRelease(w.s.At(a), w.t, a, side);
    AloneHeld(w, k);
    NeatStart(tracked.r, tracked.t, w.b, a);
    RouteReleaseNeat(tracked, a, side, w.s.suspended, target, env, w.b);
    FlushApart(w.b, RouteRelease(tracked, FULL, a, side, w.s.suspended, target, env).batch, target, env.sends);
  }

  lemma FreshRepeatSafe(w: World, k: Key, target: TargetIdentity, env: Env)
    requires Safety.Reachable(w.b) && Exclusive(w.b.log) && Plain(w, KeyAxis(k))
    requires !w.s.Key(k).phys && !StaleSurvivor(w.s.At(KeyAxis(k)))
    ensures Exclusive(HandleKeyUp(w, k, true, target, env).b.log)
  {
    hide ResolveAxis, Flush;
    var a := KeyAxis(k);
    var wk := Work(w.s.At(a), w.t, Empty);
    AloneHeld(w, k);
    NeatStart(wk.r, wk.t, w.b, a);
    ResolveNeat(wk, a, false, target, env, w.b);
    FlushApart(w.b, ResolveAxis(wk, FULL, a, false, target, env).batch, target, env.sends);
  }

  /** Past the guard the opposite key is pressed while the brake keeps this one down. */
  lemma BrakedReleaseBatch(w: World, k: Key, target: TargetIdentity, env: Env)
    requires Plain(w, KeyAxis(k)) && w.s.Key(k).phys && !w.s.Key(Opposite(k)).logical
    requires BrakedConflict(w.s.At(KeyAxis(k)), SideOf(k))
    ensures HandleKeyUp(w, k, true, target, env).b == Send(w.b, Event(Opposite(k), true), target, env.sends(0))
  {
    hide Flush, Send;
    var a, side := KeyAxis(k), SideOf(k);
    var tracked := TrackRelease(w.s.At(a), w.t, a, side);
    assert tracked == Work(SetPhys(w.s.At(a), side, false), w.t, Empty);
    assert RouteRelease(tracked, FULL, a, side, w.s.suspended, target, env).batch ==
           More(Empty, Event(Opposite(k), true));
    FlushOne(w.b, Event(Opposite(k), true), target, env.sends);
  }

  /** The key of the axis that is physically down alone. */
  function Survivor(r: AxisRecord, a: Axis): Key {
    KeyOf(a, if r.Resolved() == Positive then Pos else Neg)
  }

  lemma StaleRepeatBatch(w: World, k: Key, target: TargetIdentity, env: Env)
    requires Plain(w, KeyAxis(k)) && !w.s.Key(k).phys && StaleSurvivor(w.s.At(KeyAxis(k)))
    requires !w.s.Key(Survivor(w.s.At(KeyAxis(k)), KeyAxis(k))).logical
    ensures var j := Survivor(w.s.At(KeyAxis(k)), KeyAxis(k));
            HandleKeyUp(w, k, true, target, env).b == Send(w.b, Event(j, true), target, env.sends(0))
  {
    hide Flush, Send;
    var a := KeyAxis(k);
    var j := Survivor(w.s.At(a), a);
    assert ResolveAxis(Work(w.s.At(a), w.t, Empty), FULL, a, false, target, env).batch == More(Empty, Event(j, true));
    FlushOne(w.b, Event(j, true), target, env.sends);
  }

  /** Main result: a routed release is safe against every foreground and backend behaviour exactly when it neither
      ends a conflict under a brake of its own key nor, repeated, finds a survivor beside a key that is still down,
      while presses are allowed. */
  lemma RoutedReleaseSafeIff(w: World, k: Key)
    requires Safety.Reachable(w.b) && Exclusive(w.b.log) && Plain(w, KeyAxis(k))
    ensures (forall target, env: Env :: env.overlapUs <= 0 ==>
                Exclusive(HandleKeyUp(w, k, true, target, env).b.log)) <==>
            !((if w.s.Key(k).phys then BrakedConflict(w.s.At(KeyAxis(k)), SideOf(k))
               else StaleSurvivor(w.s.At(KeyAxis(k)))) && !w.b.releaseOnly)
  {
    hide HandleKeyUp, Exclusive, BrakedConflict, StaleSurvivor, Send;
    if w.s.Key(k).phys {
      if BrakedConflict(w.s.At(KeyAxis(k)), SideOf(k)) {
        BrakedReleaseUnsafe(w, k);
      } else {
        forall target, env: Env | env.overlapUs <= 0 ensures Exclusive(HandleKeyUp(w, k, true, target, env).b.log) {
          FreshReleaseSafe(w, k, target, env);
        }
      }
    } else if StaleSurvivor(w.s.At(KeyAxis(k))) {
      StaleRepeatUnsafe(w, k);
    } else {
      forall target, env: Env | env.overlapUs <= 0 ensures Exclusive(HandleKeyUp(w, k, true, target, env).b.log) {
        FreshRepeatSafe(w, k, target, env);
      }
    }
  }

  lemma BrakedReleaseUnsafe(w: World, k: Key)
    requires Safety.Reachable(w.b) && Exclusive(w.b.log) && Plain(w, KeyAxis(k)) && w.s.Key(k).phys
    requires BrakedConflict(w.s.At(KeyAxis(k)), SideOf(k))
    ensures if w.b.releaseOnly then forall target, env :: HandleKeyUp(w, k, true, target, env).b == w.b
            else !Exclusive(HandleKeyUp(w, k, true, SOME_TARGET, Obliging(SOME_TARGET)).b.log)
  {
    hide HandleKeyUp, Exclusive;
    AloneHeld(w, k);
    AloneHeld(w, Opposite(k));
    assert w.b.held[k];
    forall target, env ensures HandleKeyUp(w, k, true, target, env).b ==
                               Send(w.b, Event(Opposite(k), true), target, env.sends(0)) {
      BrakedReleaseBatch(w, k, target, env);
    }
    if !w.b.releaseOnly { PressBeside(w.b, Opposite(k)); }
  }

  lemma StaleRepeatUnsafe(w: World, k: Key)
    requires Safety.Reachable(w.b) && Exclusive(w.b.log) && Plain(w, KeyAxis(k)) && !w.s.Key(k).phys
    requires StaleSurvivor(w.s.At(KeyAxis(k)))
    ensures if w.b.releaseOnly then forall target, env :: HandleKeyUp(w, k, true, target, env).b == w.b
            else !Exclusive(HandleKeyUp(w, k, true, SOME_TARGET, Obliging(SOME_TARGET)).b.log)
  {
    hide HandleKeyUp, Exclusive;
    var j := Survivor(w.s.At(KeyAxis(k)), KeyAxis(k));
    AloneHeld(w, j);
    AloneHeld(w, Opposite(j));
    assert w.b.held[Opposite(j)];
    forall target, env ensures HandleKeyUp(w, k, true, target, env).b ==
                               Send(w.b, Event(j, true), target, env.sends(0)) {
      StaleRepeatBatch(w, k, target, env);
    }
    if !w.b.releaseOnly { PressBeside(w.b, j); }
  }

  /** The guard of either kind of edge. */
  predicate Unsafe(w: World, k: Key, down: bool) {
    var r, side := w.s.At(KeyAxis(k)), SideOf(k);
    if down then !r.Key(side).phys && StaleOpposite(r, side)
    else if r.Key(side).phys then BrakedConflict(r, side)
    else StaleSurvivor(r)
  }

  function RoutedEdge(w: World, k: Key, down: bool, target: TargetIdentity, env: Env): World {
    if down then HandleKeyDown(w, k, true, target, env) else HandleKeyUp(w, k, true, target, env)
  }

  /** Main result: the same of one routed edge of either kind, repeated edges included. */
  lemma RoutedEdgeSafeIff(w: World, k: Key, down: bool)
    requires Safety.Reachable(w.b) && Exclusive(w.b.log) && Plain(w, KeyAxis(k))
    ensures (forall target, env: Env :: env.overlapUs <= 0 ==>
                Exclusive(RoutedEdge(w, k, down, target, env).b.log)) <==>
            !(Unsafe(w, k, down) && !w.b.releaseOnly)
  {
    hide HandleKeyUp, HandleKeyDown, Exclusive, BrakedConflict, StaleSurvivor, StaleOpposite;
    if !down {
      RoutedReleaseSafeIff(w, k);
      assert forall target, env :: RoutedEdge(w, k, down, target, env) == HandleKeyUp(w, k, true, target, env);
    } else {
      assert forall target, env :: RoutedEdge(w, k, down, target, env) == HandleKeyDown(w, k, true, target, env);
      if w.s.Key(k).phys {
        forall target, env ensures HandleKeyDown(w, k, true, target, env) == w { RepeatedPress(w, k, target, env); }
      } else {
        PressIffStrict(w, k);
      }
    }
  }

  lemma PressIffStrict(w: World, k: Key)
    requires Safety.Reachable(w.b) && Exclusive(w.b.log) && Plain(w, KeyAxis(k)) && !w.s.Key(k).phys
    ensures (forall target, env: Env :: env.overlapUs <= 0 ==>
                Exclusive(HandleKeyDown(w, k, true, target, env).b.log)) <==>
            !(StaleOpposite(w.s.At(KeyAxis(k)), SideOf(k)) && !w.b.releaseOnly)
  {
    hide HandleKeyDown, Exclusive;
    if StaleOpposite(w.s.At(KeyAxis(k)), SideOf(k)) && !w.b.releaseOnly {
      AloneHeld(w, Opposite(k));
      AloneHeld(w, k);
      StalePressBatch(w, k, SOME_TARGET, Obliging(SOME_TARGET));
      PressBeside(w.b, k);
    } else {
      RoutedPressSafeIff(w, k);
    }
  }

  function Do(step: Step): Action {
    Action(step, SOME_TARGET, Obliging(SOME_TARGET))
  }

  /** D and A pressed, both released without routing, D pressed again. */
  const STALE_RUN: seq<Action> :=
    [Do(KeyDown(D, true)), Do(KeyDown(A, true)), Do(KeyUp(A, false)), Do(KeyUp(D, false)), Do(KeyDown(D, true))]

  lemma RunTake(actions: seq<Action>, n: nat)
    requires n < |actions|
    ensures Run(START, actions[..n + 1]) == Apply(Run(START, actions[..n]), actions[n])
  {
    assert actions[..n + 1][..n] == actions[..n];
  }

  /** A boundary that holds only key k, for that one target, and owes no release. */
  ghost predicate Holds(b: I.Boundary, k: Key) {
    b.held == I.IDLE.held[k := true] && b.owner == I.IDLE.owner[k := SOME_TARGET] && b.pending == I.IDLE.pending
      && !b.releaseOnly
  }

  /** The axis record of X after D has been pressed: D or a conflict, and only `last` logical. */
  ghost predicate Pressed(w: World, state: AxisState, last: Side, other: bool) {
    var r := w.s.x;
    && Plain(w, X) && r.axisState == state && r.socdLastKey == last && r.Key(last).logical && !r.Key(Flip(last)).logical
    && r.Key(last).phys && r.Key(Flip(last)).phys == other
  }

  lemma FirstPress()
    ensures var w := HandleKeyDown(START, D, true, SOME_TARGET, Obliging(SOME_TARGET));
            Holds(w.b, D) && Pressed(w, Positive, Pos, false)
  {
    var env := Obliging(SOME_TARGET);
    var tracked := TrackPress(START.s.x, START.t, X, Pos);
    assert RoutePress(tracked, FULL, X, Pos, SOME_TARGET, env).batch == More(Empty, Event(D, true));
    FlushOne(START.b, Event(D, true), SOME_TARGET, env.sends);
  }

  lemma SecondPress(w: World)
    requires Holds(w.b, D) && Pressed(w, Positive, Pos, false)
    ensures var w' := HandleKeyDown(w, A, true, SOME_TARGET, Obliging(SOME_TARGET));
            Holds(w'.b, A) && Pressed(w', Conflict, Neg, true)
  {
    hide Flush, Send;
    var env := Obliging(SOME_TARGET);
    var tracked := TrackPress(w.s.x, w.t, X, Neg);
    assert RoutePress(tracked, FULL, X, Neg, SOME_TARGET, env).batch ==
        More(More(Empty, Event(D, false)), Event(A, true));
    FlushTwo(w.b, Event(D, false), Event(A, true), SOME_TARGET, env.sends);
    SwapHolds(w.b);
    assert HandleKeyDown(w, A, true, SOME_TARGET, env).b ==
           Send(Send(w.b, Event(D, false), SOME_TARGET, env.sends(0)), Event(A, true), SOME_TARGET, env.sends(1));
  }

  lemma SwapHolds(b: I.Boundary)
    requires Holds(b, D)
    ensures var d := Obliging(SOME_TARGET).sends(0);
            Holds(Send(Send(b, Event(D, false), SOME_TARGET, d), Event(A, true), SOME_TARGET, d), A)
  {
    var mid := Send(b, Event(D, false), SOME_TARGET, Obliging(SOME_TARGET).sends(0));
    assert mid.held == I.IDLE.held && mid.pending == I.IDLE.pending && mid.owner == I.IDLE.owner && !mid.releaseOnly;
  }

  lemma StaleRelease(w: World, k: Key)
    requires (k == A || k == D) && Plain(w, X) && w.s.Key(k).phys
    ensures var w' := HandleKeyUp(w, k, false, SOME_TARGET, Obliging(SOME_TARGET));
            && w'.b == w.b && Plain(w', X) && !w'.s.Key(k).phys
                 && w'.s.Key(Opposite(k)).phys == w.s.Key(Opposite(k)).phys
            && w'.s.x.axisState == w.s.x.axisState
            && w'.s.x.pos.logical == w.s.x.pos.logical && w'.s.x.neg.logical == w.s.x.neg.logical
  {
  }

  /** Unrouted releases in the middle of a conflict leave D and A held together. */
  lemma UndisciplinedRunHoldsBoth()
    ensures var w := Run(START, STALE_RUN); w.b.held[D] && w.b.held[A] && !w.b.releaseOnly
  {
    var env := Obliging(SOME_TARGET);
    var w1 := HandleKeyDown(START, D, true, SOME_TARGET, env);
    FirstPress();
    var w2 := HandleKeyDown(w1, A, true, SOME_TARGET, env);
    SecondPress(w1);
    var w3 := HandleKeyUp(w2, A, false, SOME_TARGET, env);
    StaleRelease(w2, A);
    var w4 := HandleKeyUp(w3, D, false, SOME_TARGET, env);
    StaleRelease(w3, D);
    StalePressBatch(w4, D, SOME_TARGET, env);
    StaleRunIs(w1, w2, w3, w4);
  }

  /** D and A pressed, A released without routing and then, repeated, with routing. */
  const REPEAT_RUN: seq<Action> :=
    [Do(KeyDown(D, true)), Do(KeyDown(A, true)), Do(KeyUp(A, false)), Do(KeyUp(A, true))]

  /** A repeated release after an unrouted one in the middle of a conflict gets there too. */
  lemma RepeatedReleaseHoldsBoth()
    ensures var w := Run(START, REPEAT_RUN); w.b.held[D] && w.b.held[A] && !w.b.releaseOnly
  {
    hide HandleKeyDown, HandleKeyUp;
    var env := Obliging(SOME_TARGET);
    var w1 := HandleKeyDown(START, D, true, SOME_TARGET, env);
    FirstPress();
    var w2 := HandleKeyDown(w1, A, true, SOME_TARGET, env);
    SecondPress(w1);
    var w3 := HandleKeyUp(w2, A, false, SOME_TARGET, env);
    StaleRelease(w2, A);
    StaleRepeatBatch(w3, A, SOME_TARGET, env);
    RepeatRunIs(w1, w2, w3);
  }

  lemma RepeatRunIs(w1: World, w2: World, w3: World)
    requires w1 == Apply(START, Do(KeyDown(D, true))) && w2 == Apply(w1, Do(KeyDown(A, true)))
    requires w3 == Apply(w2, Do(KeyUp(A, false)))
    ensures Run(START, REPEAT_RUN) == Apply(w3, Do(KeyUp(A, true)))
  {
    hide Apply;
    var s := REPEAT_RUN;
    assert Run(START, s[..0]) == START;
    RunTake(s, 0);
    RunTake(s, 1);
    RunTake(s, 2);
    RunTake(s, 3);
    assert s[..4] == s;
  }

  lemma StaleRunIs(w1: World, w2: World, w3: World, w4: World)
    requires w1 == Apply(START, Do(KeyDown(D, true))) && w2 == Apply(w1, Do(KeyDown(A, true)))
    requires w3 == Apply(w2, Do(KeyUp(A, false))) && w4 == Apply(w3, Do(KeyUp(D, false)))
    ensures Run(START, STALE_RUN) == Apply(w4, Do(KeyDown(D, true)))
  {
    hide Apply;
    var s := STALE_RUN;
    assert Run(START, s[..0]) == START;
    RunTake(s, 0);
    RunTake(s, 1);
    RunTake(s, 2);
    RunTake(s, 3);
    RunTake(s, 4);
    assert s[..5] == s;
  }
}
