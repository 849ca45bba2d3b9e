/** Opposing keys are never both held: in FULL mode without a configured overlap, at every prefix of the
    accepted input stream of every disciplined run. */
module EngineExclusive {
  import opened Keys
  import opened TargetPlatform
  import opened Engine
  import opened EngineInvariant
  import opened EngineSafety
  import opened EngineReconcile
  import opened EngineRuns
  import P = EnginePhysical
  import I = Injection
  import T = Timers
  import Safety = InjectionSafety

  // ---- The accepted stream ----

  ghost predicate Open(log: seq<I.Accepted>, k: Key) {
    Safety.OpenDown(log, k).Some?
  }

  ghost predicate Apart(log: seq<I.Accepted>) {
    !(Open(log, D) && Open(log, A)) && !(Open(log, W) && Open(log, S))
  }

  /** No prefix of the stream has both keys of an axis down. */
  ghost predicate Exclusive(log: seq<I.Accepted>) {
    forall n :: 0 <= n <= |log| ==> Apart(log[..n])
  }

  lemma ExclusiveExtends(log: seq<I.Accepted>, log': seq<I.Accepted>)
    requires Exclusive(log) && |log| <= |log'| <= |log| + 1 && log'[..|log|] == log && Apart(log')
    ensures Exclusive(log')
  {
    forall n | 0 <= n <= |log'| ensures Apart(log'[..n]) {
      if n <= |log| { assert log'[..n] == log[..n]; } else { assert log'[..n] == log'; }
    }
  }

  lemma ApartHeld(b: I.Boundary)
    requires Safety.Reachable(b)
    ensures Apart(b.log) <==> !(b.held[D] && b.held[A]) && !(b.held[W] && b.held[S])
  {
    Safety.ReachableSlot(b, D);
    Safety.ReachableSlot(b, A);
    Safety.ReachableSlot(b, W);
    Safety.ReachableSlot(b, S);
  }

  lemma SendLog(b: I.Boundary, e: Event, target: TargetIdentity, d: I.Dispatch)
    ensures var b' := Send(b, e, target, d);
            && |b.log| <= |b'.log| <= |b.log| + 1 && b'.log[..|b.log|] == b.log
            && (e.down && !b.held[e.k] && b.releaseOnly ==> !b'.held[e.k])
            && (!e.down && b'.held[e.k] ==> b.held[e.k])
  {
  }

  // ---- Batches that press a key only after releasing its opposite ----

  /** Every press in the batch comes when the batch no longer asks for the opposite key. */
  ghost predicate SafeBatch(b: I.Boundary, batch: Batch) {
    match batch
    case Empty => true
    case More(rest, e) => SafeBatch(b, rest) && (e.down ==> !Asked(b.held[Opposite(e.k)], rest, Opposite(e.k)))
  }

  lemma SendApart(b: I.Boundary, e: Event, target: TargetIdentity, d: I.Dispatch)
    requires Safety.Reachable(b) && Exclusive(b.log)
    requires e.down ==> !b.held[Opposite(e.k)] || b.pending[Opposite(e.k)]
    ensures Exclusive(Send(b, e, target, d).log)
  {
    var b', o := Send(b, e, target, d), Opposite(e.k);
    Safety.StaysReachable(b, if e.down then I.KeyDown(e.k) else I.KeyUp(e.k), target, d);
    SendLog(b, e, target, d);
    assert Apart(b.log) by { assert b.log[..|b.log|] == b.log; }
    ApartHeld(b);
    Safety.ReachableSlot(b, o);
    forall k: Key | k != e.k ensures b'.held[k] == b.held[k] { SendFrame(b, e, target, d, k); }
    ApartHeld(b');
    ExclusiveExtends(b.log, b'.log);
  }

  lemma {:induction false} FlushApart(b: I.Boundary, batch: Batch, target: TargetIdentity, sends: nat -> I.Dispatch)
    requires Safety.Reachable(b) && Exclusive(b.log) && SafeBatch(b, batch)
    ensures Exclusive(Flush(b, batch, target, sends).log)
  {
    match batch
    case Empty =>
    case More(rest, e) =>
      FlushApart(b, rest, target, sends);
      FlushReachable(b, rest, target, sends);
      FlushFollows(b, rest, target, sends, Opposite(e.k));
      SendApart(Flush(b, rest, target, sends), e, target, sends(Size(rest)));
  }

  // ---- Handlers build such batches ----

  /** The work so far keeps at most one key of the axis logically down, and its batch is safe. */
  ghost predicate Neat(w: Work, b: I.Boundary, a: Axis) {
    SafeBatch(b, w.batch) && Tracked(w, b, a, Pos) && Tracked(w, b, a, Neg) && !(w.r.pos.logical && w.r.neg.logical)
  }

  lemma NeatStart(r: AxisRecord, t: T.Timers, b: I.Boundary, a: Axis)
    requires r.pos.logical == b.held[KeyOf(a, Pos)] && r.neg.logical == b.held[KeyOf(a, Neg)]
    requires !(b.held[KeyOf(a, Pos)] && b.held[KeyOf(a, Neg)])
    ensures Neat(Work(r, t, Empty), b, a)
  {
  }

  lemma EmitNeat(w: Work, a: Axis, side: Side, down: bool, b: I.Boundary)
    requires Neat(w, b, a) && (down ==> !w.r.Key(Flip(side)).logical)
    ensures Neat(Emit(w, a, side, down), b, a)
  {
  }

  lemma ConflictNeat(w: Work, a: Axis, onPress: bool, target: TargetIdentity, env: Env, b: I.Boundary)
    requires Neat(w, b, a) && w.r.socdReleaseTimerId == 0
    ensures Neat(EnterConflict(w, FULL, a, onPress, target, env), b, a)
  {
    var winner := w.r.socdLastKey;
    var w1 := EnterOverlap(w, FULL, a, onPress, target, env);
    EmitNeat(w1, a, Flip(winner), false, b);
    EmitNeat(Release(w1, a, Flip(winner)), a, winner, true, b);
  }

  /** Only a survivor of a conflict is pressed without looking at its opposite. */
  lemma ResolveNeat(w: Work, a: Axis, onPress: bool, target: TargetIdentity, env: Env, b: I.Boundary)
    requires Neat(w, b, a) && w.r.socdReleaseTimerId == 0
    requires w.r.axisState == Conflict && w.r.Resolved() == Positive ==> !w.r.neg.logical
    requires w.r.axisState == Conflict && w.r.Resolved() == Negative ==> !w.r.pos.logical
    ensures var w' := ResolveAxis(w, FULL, a, onPress, target, env);
            && Neat(w', b, a)
            && (w.r.axisState != w.r.Resolved() == Positive ==> !w'.r.neg.logical)
            && (w.r.axisState != w.r.Resolved() == Negative ==> !w'.r.pos.logical)
            && (w.r.axisState != w.r.Resolved() ==> w'.r.axisState == w.r.Resolved())
  {
    var prev, next := w.r.axisState, w.r.Resolved();
    var w1 := TurnAxis(w, a, next);
    if next == Conflict {
      ConflictNeat(w1, a, onPress, target, env, b);
    } else if next != None {
      var down := if next == Positive then Pos else Neg;
      if prev == Conflict {
        EmitNeat(w1, a, down, true, b);
      } else {
        EmitNeat(Disarm(w1, a, Flip(down)), a, Flip(down), false, b);
      }
    }
  }

  lemma RoutePressNeat(w: Work, a: Axis, side: Side, target: TargetIdentity, env: Env, b: I.Boundary)
    requires Neat(w, b, a) && w.r.socdReleaseTimerId == 0 && w.r.Key(side).phys
    requires w.r.axisState != w.r.Resolved() && w.r.axisState != Conflict
    ensures Neat(RoutePress(w, FULL, a, side, target, env), b, a)
  {
    ResolveNeat(w, a, true, target, env, b);
    var w1 := ResolveAxis(w, FULL, a, true, target, env);
    if w1.r.axisState != Conflict { EmitNeat(w1, a, side, true, b); }
  }

  lemma StrafeNeat(w: Work, a: Axis, side: Side, suspended: bool, target: TargetIdentity, env: Env, b: I.Boundary)
    requires Neat(w, b, a) && env.overlapUs <= 0
    ensures var w' := AutoCounterStrafe(w, a, side, suspended, target, env).1;
            Neat(w', b, a) && w'.r.socdReleaseTimerId == w.r.socdReleaseTimerId && w'.r.axisState == w.r.axisState
            && w'.r.Resolved() == w.r.Resolved()
  {
    var rel := if env.reversed then Flip(side) else side;
    match AdmitBrake(w, a, rel, env)
    case Refused(t) =>
    case Admitted(t, overlapId, counterId) =>
      assert overlapId == 0;
      var w1 := SetTimer(w.(t := t), rel, 0);
      EmitNeat(w1, a, rel, false, b);
      EmitNeat(Release(w1, a, rel), a, Flip(rel), true, b);
  }

  lemma RouteReleaseNeat(w: Work, a: Axis, side: Side, suspended: bool, target: TargetIdentity, env: Env, b: I.Boundary)
    requires Neat(w, b, a) && env.overlapUs <= 0 && w.r.socdReleaseTimerId == 0 && !w.r.Key(side).phys
    requires w.r.axisState == Conflict && w.r.Key(Flip(side)).phys ==> !BrakePending(w.r, side)
    ensures Neat(RouteRelease(w, FULL, a, side, suspended, target, env), b, a)
  {
    var pending := BrakePending(w.r, side);
    StrafeNeat(w, a, side, suspended, target, env, b);
    var (strafed, w1) :=
      if !pending && !w.r.Key(Flip(side)).phys then AutoCounterStrafe(w, a, side, suspended, target, env)
                         else (pending, w);
    EmitNeat(w1, a, side, false, b);
    ResolveNeat(if strafed then w1 else Release(w1, a, side), a, false, target, env, b);
  }

  lemma ExpireNeat(w: Work, a: Axis, side: Side, suspended: bool, b: I.Boundary)
    requires Neat(w, b, a) && w.r.Key(side).expectedTimerId != 0
    ensures Neat(ExpireTimer(w, FULL, a, side, suspended), b, a)
  {
    var w1 := SetTimerFor(w, side, 0, NO_TARGET);
    EmitNeat(w1, a, side, false, b);
    EmitNeat(Release(w1, a, side), a, Flip(side), true, b);
  }

  // ---- Both axes ----

  ghost predicate NeatAll(w: WorkAll, b: I.Boundary) {
    Neat(w.At(X), b, X) && Neat(w.At(Y), b, Y)
  }

  /** Releases first, then presses of keys whose opposite is not wanted. */
  ghost predicate Passing(w: WorkAll, s: State, b: I.Boundary, down: bool) {
    NeatAll(w, b) && PassOk(w.s.x, s.x, down) && PassOk(w.s.y, s.y, down)
  }

  /** One of the two keys at most is to be pressed, and during the press pass no unwanted key is down. */
  ghost predicate PassOk(r: AxisRecord, r0: AxisRecord, down: bool) {
    && (r0.pos.phys || r0.neg.phys ==> !(Desired(r0, Pos) && Desired(r0, Neg)))
    && (forall side :: Desired(r0, side) && !r0.Key(side).phys ==> r.Key(side).logical)
    && (down ==> forall side :: r.Key(side).logical ==> Desired(r0, side))
  }

  lemma SettleNeat(w: Work, r0: AxisRecord, a: Axis, side: Side, down: bool, b: I.Boundary)
    requires Neat(w, b, a) && PassOk(w.r, r0, down)
    ensures var w' := SettleKey(w, a, side, down, Desired(r0, side));
            && Neat(w', b, a) && PassOk(w'.r, r0, down)
            && SameAsks(w.batch, w'.batch, b, KeyOf(OtherAxis(a), Pos))
                 && SameAsks(w.batch, w'.batch, b, KeyOf(OtherAxis(a), Neg))
            && (forall side' :: !down && !Desired(r0, side') && (side' == side || !w.r.Key(side').logical) ==>
                 !w'.r.Key(side').logical)
  {
  }

  /** During the release pass: unwanted keys among the first n are up. */
  ghost predicate ReleasedUpTo(w: WorkAll, s: State, n: nat) {
    && (n > 0 && !Desired(s.y, Pos) ==> !w.s.y.pos.logical) && (n > 1 && !Desired(s.y, Neg) ==> !w.s.y.neg.logical)
    && (n > 2 && !Desired(s.x, Neg) ==> !w.s.x.neg.logical) && (n > 3 && !Desired(s.x, Pos) ==> !w.s.x.pos.logical)
  }

  lemma SettleOneNeat(w: WorkAll, s: State, b: I.Boundary, down: bool, n: nat)
    requires n < 4 && Passing(w, s, b, down) && (!down ==> ReleasedUpTo(w, s, n))
    ensures var a, side := KeyAxis(n), SideOf(n);
            var w' := w.With(a, SettleKey(w.At(a), a, side, down, Desired(s.At(a), side)));
            Passing(w', s, b, down) && (!down ==> ReleasedUpTo(w', s, n + 1))
  {
    SettleNeat(w.At(KeyAxis(n)), s.At(KeyAxis(n)), KeyAxis(n), SideOf(n), down, b);
  }

  lemma {:induction false} SettleKeysNeat(w: WorkAll, s: State, b: I.Boundary, down: bool, n: nat)
    requires n <= 4 && Passing(w, s, b, down)
    ensures var w' := SettleKeys(w, s, down, n);
            Passing(w', s, b, down) && (!down ==> ReleasedUpTo(w', s, n))
  {
    if n > 0 {
      SettleKeysNeat(w, s, b, down, n - 1);
      SettleOneNeat(SettleKeys(w, s, down, n - 1), s, b, down, n - 1);
    }
  }

  lemma StartPass(r: AxisRecord)
    requires r.socdReleaseTimerId == 0
    ensures PassOk(r, r, false)
  {
  }

  // ---- Steps ----

  ghost predicate Excl(w: World) {
    Inv(w) && w.mode == FULL && Exclusive(w.b.log) && WinnerFree(w.s.x) && WinnerFree(w.s.y)
  }

  /** No key of an axis in conflict is under a brake. */
  lemma ConflictUnbraked(w: World, a: Axis, side: Side)
    requires Excl(w) && w.s.At(a).pos.phys && w.s.At(a).neg.phys
    ensures !BrakePending(w.s.At(a), side)
  {
    assert RecordOk(w.s.At(a), FULL, w.t, a);
  }

  lemma ExclAxis(w: World, a: Axis, t: T.Timers)
    requires Excl(w)
    ensures var r := w.s.At(a);
            && r.pos.logical == w.b.held[KeyOf(a, Pos)] && r.neg.logical == w.b.held[KeyOf(a, Neg)]
            && !(w.b.held[KeyOf(a, Pos)] && w.b.held[KeyOf(a, Neg)])
            && r.socdReleaseTimerId == 0 && RecordOk(r, FULL, w.t, a)
    ensures Neat(Work(w.s.At(a), t, Empty), w.b, a)
  {
    assert Apart(w.b.log) by { assert w.b.log[..|w.b.log|] == w.b.log; }
    ApartHeld(w.b);
  }

  lemma FinishApart(w: World, s: State, a: Axis, wk: Work, target: TargetIdentity, env: Env)
    requires Excl(w) && Neat(wk, w.b, a)
    ensures Exclusive(FinishAxis(w, s, a, wk, target, env).b.log)
  {
    FlushApart(w.b, wk.batch, target, env.sends);
  }

  lemma PressApart(w: World, k: Key, target: TargetIdentity, env: Env)
    requires Excl(w)
    ensures Exclusive(HandleKeyDown(w, k, true, target, env).b.log)
  {
    var a, side := KeyAxis(k), SideOf(k);
    if !w.s.Key(k).phys {
      var tracked := TrackPress(w.s.At(a), w.t, a, side);
      PressReady(w.s.At(a), FULL, w.t, w.b, a, side);
      ExclAxis(w, a, w.t);
      NeatStart(tracked.r, tracked.t, w.b, a);
      RoutePressNeat(tracked, a, side, target, env, w.b);
      FinishApart(w, w.s.With(a, tracked.r), a, RoutePress(tracked, FULL, a, side, target, env), target, env);
    }
  }

  lemma ReleaseApart(w: World, k: Key, target: TargetIdentity, env: Env)
    requires Excl(w) && w.s.Key(k).phys && env.overlapUs <= 0
    ensures Exclusive(HandleKeyUp(w, k, true, target, env).b.log)
  {
    var a, side := KeyAxis(k), SideOf(k);
    var tracked := TrackRelease(w.s.At(a), w.t, a, side);
    ReleaseReady(w.s.At(a), FULL, w.t, w.b, a, side);
    ExclAxis(w, a, w.t);
    NeatStart(tracked.r, tracked.t, w.b, a);
    if w.s.Key(Opposite(k)).phys { ConflictUnbraked(w, a, side); }
    RouteReleaseNeat(tracked, a, side, w.s.suspended, target, env, w.b);
    FinishApart(w, w.s.With(a, tracked.r), a, RouteRelease(tracked, FULL, a, side, w.s.suspended, target, env),
        target, env);
  }

  lemma SpuriousApart(w: World, k: Key, routed: bool, target: TargetIdentity, env: Env)
    requires Excl(w) && !w.s.Key(k).phys
    ensures Exclusive(HandleKeyUp(w, k, routed, target, env).b.log)
  {
    var a := KeyAxis(k);
    var wk := Work(w.s.At(a), w.t, Empty);
    ExclAxis(w, a, w.t);
    ResolveNeat(wk, a, false, target, env, w.b);
    FinishApart(w, w.s, a, if routed then ResolveAxis(wk, FULL, a, false, target, env) else wk, target, env);
  }

  lemma ExpireApart(w: World, env: Env)
    requires Excl(w)
    ensures Exclusive(DrainExpired(w, env).b.log)
  {
    if w.t.queue != [] {
      var e, w1 := w.t.queue[0], w.(t := T.Pop(w.t));
      if e.key < 4 && e.id != 0 && w.s.Key(e.key).expectedTimerId == e.id {
        var a, side := KeyAxis(e.key), SideOf(e.key);
        ExclAxis(w, a, w1.t);
        ExpireNeat(Work(w.s.At(a), w1.t, Empty), a, side, w.s.suspended, w.b);
        FlushApart(w.b, ExpireTimer(Work(w.s.At(a), w1.t, Empty), FULL, a, side, w.s.suspended).batch,
                   w.s.Key(e.key).expectedTimerTarget, env.sends);
      }
    }
  }

  /** The batch of a rebuild is safe whatever keys it is shown. */
  lemma RebuildApart(w: World, physical: Bools4, target: TargetIdentity, env: Env)
    requires Excl(w)
    ensures Exclusive(RebuildState(w, physical, target, env).b.log)
  {
    var w0 := TakenOver(w, physical);
    ExclAxis(w, X, w0.t);
    ExclAxis(w, Y, w0.t);
    assert w0.batch == Empty && NeatAll(w0, w.b) && w0.s.x.socdReleaseTimerId == 0 && w0.s.y.socdReleaseTimerId == 0;
    SettleBothNeat(w0, w.b);
    FlushApart(w.b, SettleBoth(w0).batch, target, env.sends);
  }

  lemma SettleBothNeat(w: WorkAll, b: I.Boundary)
    requires NeatAll(w, b) && w.s.x.socdReleaseTimerId == 0 && w.s.y.socdReleaseTimerId == 0
    ensures SafeBatch(b, SettleBoth(w).batch)
  {
    StartPass(w.s.x);
    StartPass(w.s.y);
    SettleKeysNeat(w, w.s, b, false, 4);
    var w1 := SettleKeys(w, w.s, false, 4);
    assert Passing(w1, w.s, b, true);
    SettleKeysNeat(w1, w.s, b, true, 4);
  }

  lemma {:induction false} ReleaseKeysSafe(w: WorkAll, b: I.Boundary, n: nat)
    requires n <= 4 && SafeBatch(b, w.batch)
    ensures SafeBatch(b, ReleaseKeys(w, n).batch)
  {
    if n > 0 { ReleaseKeysSafe(w, b, n - 1); }
  }

  lemma ClearApart(w: World, target: TargetIdentity, env: Env)
    requires Safety.Reachable(w.b) && Exclusive(w.b.log)
    ensures Exclusive(ClearHeldKeys(w, target, env).b.log)
  {
    var w1 := CancelSocdTransition(Work(w.s.x, w.t, Empty), X);
    var w2 := CancelSocdTransition(Work(w.s.y, w1.t, Empty), Y);
    CancelSocdOk(w.s.x, w.t, w.t, X);
    CancelSocdOk(w.s.y, w1.t, w.t, Y);
    ReleaseKeysSafe(WorkAll(w.s.(x := Idled(w1.r), y := Idled(w2.r)), w2.t, Empty), w.b, 4);
    FlushApart(w.b, ReconcileInternal(WorkAll(w.s, w.t, Empty)).batch, target, env.sends);
  }

  lemma AppendExclusive(log: seq<I.Accepted>, e: I.Accepted)
    requires Exclusive(log) && (e.down ==> e.slot >= 4)
    ensures Exclusive(log + [e])
  {
    assert Apart(log) by { assert log[..|log|] == log; }
    forall k: Key ensures Open(log + [e], k) ==> Open(log, k) { Safety.Appended(log, e, k); }
    assert Open(log + [e], D) ==> Open(log, D);
    assert Open(log + [e], A) ==> Open(log, A);
    assert Open(log + [e], W) ==> Open(log, W);
    assert Open(log + [e], S) ==> Open(log, S);
    assert (log + [e])[..|log|] == log;
    ExclusiveExtends(log, log + [e]);
  }

  lemma {:induction false} ReleasePendingApart(b: I.Boundary, slot: nat, target: TargetIdentity, d: I.Dispatch)
    requires slot <= I.SLOT_COUNT && Exclusive(b.log)
    ensures Exclusive(I.ReleasePendingFrom(b, slot, target, d).0.log)
    decreases I.SLOT_COUNT - slot
  {
    if slot < I.SLOT_COUNT {
      if b.pending[slot] && b.pendingTarget[slot] == target {
        AppendExclusive(b.log, I.Accepted(slot, false, d.focus.second));
        ReleasePendingApart(I.ReleaseSlot(b, slot, d).0, slot + 1, target, d);
      } else {
        ReleasePendingApart(b, slot + 1, target, d);
      }
    }
  }

  lemma SpaceApart(b: I.Boundary, c: I.Call, target: TargetIdentity, d: I.Dispatch)
    requires Exclusive(b.log) && (c.SpaceDown? || c.SpaceUp?)
    ensures Exclusive(I.Apply(b, c, target, d).log)
  {
    AppendExclusive(b.log, I.Accepted(I.SPACE_SLOT, c.SpaceDown?, d.focus.second));
  }

  // ---- The winner of a conflict awaits nothing ----

  lemma SameWinner(r: AxisRecord, r': AxisRecord)
    requires SameExceptNative(r, r')
    ensures WinnerFree(r') == WinnerFree(r)
  {
  }

  lemma PressWinner(w: World, k: Key, target: TargetIdentity, env: Env)
    requires Excl(w)
    ensures WinnerFree(HandleKeyDown(w, k, true, target, env).s.At(KeyAxis(k)))
  {
    hide HandleKeyDown, FinishAxis;
    if w.s.Key(k).phys {
      assert HandleKeyDown(w, k, true, target, env) == w by { RepeatedPress(w, k, target, env); }
    } else {
      var s, wk := PressState(w, k, target, env), PressWork(w, k, target, env);
      PressInOrder(w, k, target, env);
      FinishAt(w, s, KeyAxis(k), wk, target, env);
      SameWinner(wk.r, FinishAxis(w, s, KeyAxis(k), wk, target, env).s.At(KeyAxis(k)));
    }
  }

  lemma RepeatedPress(w: World, k: Key, target: TargetIdentity, env: Env)
    requires w.s.Key(k).phys
    ensures HandleKeyDown(w, k, true, target, env) == w
  {
  }

  lemma ReleaseWinner(w: World, k: Key, routed: bool, target: TargetIdentity, env: Env)
    ensures WinnerFree(HandleKeyUp(w, k, routed, target, env).s.At(KeyAxis(k)))
  {
    hide HandleKeyUp;
    P.UpPhys(w, k, routed, target, env);
    var s := HandleKeyUp(w, k, routed, target, env).s;
    assert s.Key(k).phys == P.PhysOf(s)[k] == false;
  }

  lemma EdgeWinner(w: World, step: Step, target: TargetIdentity, env: Env)
    requires Excl(w) && (step.KeyDown? || step.KeyUp?) && Disciplined(w, step)
    ensures var w' := Apply(w, Action(step, target, env)); WinnerFree(w'.s.x) && WinnerFree(w'.s.y)
  {
    hide HandleKeyDown, HandleKeyUp, WinnerFree;
    var k, a := step.k, KeyAxis(step.k);
    var w' := Apply(w, Action(step, target, env));
    EdgeFrame(w, k, step.KeyDown?, step.routed, target, env);
    SameWinner(w.s.At(OtherAxis(a)), w'.s.At(OtherAxis(a)));
    if step.KeyUp? {
      ReleaseWinner(w, k, step.routed, target, env);
    } else if step.routed {
      PressWinner(w, k, target, env);
    } else {
      QuietOnEdge(w, step, target, env, a);
      QuietWinner(w'.s.At(a));
    }
  }

  lemma QuietWinner(r: AxisRecord)
    requires QuietAxis(r)
    ensures WinnerFree(r)
  {
  }

  lemma ExpireTimerWinner(w: Work, a: Axis, side: Side, suspended: bool)
    requires WinnerFree(w.r)
    ensures WinnerFree(ExpireTimer(w, FULL, a, side, suspended).r)
  {
  }

  lemma ExpireWinner(w: World, env: Env, a: Axis)
    requires Excl(w)
    ensures WinnerFree(DrainExpired(w, env).s.At(a))
  {
    hide ExpireTimer, FinishAxis;
    if w.t.queue != [] && w.t.queue[0].key < 4 {
      var e, w1 := w.t.queue[0], w.(t := T.Pop(w.t));
      var o, target := KeyAxis(e.key), w.s.Key(e.key).expectedTimerTarget;
      var wk := ExpireTimer(Work(w.s.At(o), w1.t, Empty), FULL, o, SideOf(e.key), w.s.suspended);
      ExpireTimerWinner(Work(w.s.At(o), w1.t, Empty), o, SideOf(e.key), w.s.suspended);
      FinishAt(w1, w.s, o, wk, target, env);
      SameWinner(wk.r, FinishAxis(w1, w.s, o, wk, target, env).s.At(o));
      SameWinner(w.s.At(OtherAxis(o)), FinishAxis(w1, w.s, o, wk, target, env).s.At(OtherAxis(o)));
    }
  }

  lemma RebuildWinner(w: World, physical: Bools4, target: TargetIdentity, env: Env)
    requires Excl(w) && Fits(w, physical)
    ensures var w' := RebuildState(w, physical, target, env); WinnerFree(w'.s.x) && WinnerFree(w'.s.y)
  {
    hide TakenOver, SettleBoth, RebuildState, SurvivesAxis, FitsAxis, WinnerFree, WinnerOk, Unsettled, Settled,
      InPasses, Flush;
    TakenOverOk(w, physical);
    var w0 := TakenOver(w, physical);
    FitsSurvives(w, physical);
    SettleBothOk(w0, FULL, w.b);
    RebuildIs(w, physical, target, env);
    var s := SettleBoth(w0).s;
    CommitSameAt(s, RebuildState(w, physical, target, env).b, X);
    CommitSameAt(s, RebuildState(w, physical, target, env).b, Y);
    SameWinner(s.x, RebuildState(w, physical, target, env).s.x);
    SameWinner(s.y, RebuildState(w, physical, target, env).s.y);
  }

  lemma CommitWinner(s: State, b: I.Boundary)
    requires WinnerFree(s.x) && WinnerFree(s.y)
    ensures WinnerFree(Commit(s, b).x) && WinnerFree(Commit(s, b).y)
  {
  }

  /** Cleanup, suspension and resumption, and mode changes. */
  lemma CleanupWinner(w: World, step: Step, target: TargetIdentity, env: Env)
    requires Excl(w) && (step.Clear? || step.Suspend? || step.SetMode?)
    ensures var w' := Apply(w, Action(step, target, env)); WinnerFree(w'.s.x) && WinnerFree(w'.s.y)
  {
    hide ClearHeldKeys, WinnerFree, Inv;
    var w1 := w.(s := w.s.(suspended := !w.s.suspended));
    if step.Suspend? && w.s.suspended {
      CommitWinner(w1.s, w.b);
    } else {
      assert Inv(w1) by { SuspendedInv(w, w1); }
      var w0 := if step.Suspend? then w1 else w;
      ClearKeeps(w0, target, env);
      QuietWinner(ClearHeldKeys(w0, target, env).s.x);
      QuietWinner(ClearHeldKeys(w0, target, env).s.y);
    }
  }

  lemma SuspendedInv(w: World, w': World)
    requires Inv(w) && w' == w.(s := w.s.(suspended := w'.s.suspended))
    ensures Inv(w')
  {
  }

  lemma StepWinner(w: World, action: Action)
    requires Excl(w) && StrictStep(w, action)
    ensures var w' := Apply(w, action); WinnerFree(w'.s.x) && WinnerFree(w'.s.y)
  {
    hide HandleKeyDown, HandleKeyUp, DrainExpired, RebuildState, ClearHeldKeys, ToggleSuspend, ChangeMode, WinnerFree,
      Inv, FitsAxis;
    var Action(step, target, env) := action;
    match step
    case KeyDown(_, _) => EdgeWinner(w, step, target, env);
    case KeyUp(_, _) => EdgeWinner(w, step, target, env);
    case Expire =>
      ExpireWinner(w, env, X);
      ExpireWinner(w, env, Y);
    case Rebuild(physical) => RebuildWinner(w, physical, target, env);
    case Clear => CleanupWinner(w, step, target, env);
    case Suspend => CleanupWinner(w, step, target, env);
    case SetMode(_, _) => CleanupWinner(w, step, target, env);
    case ReconcileOutput => CommitWinner(w.s, I.ReconcilePending(w.b, target, env.sends(0)).0);
    case _ =>
  }

  /** A disciplined step in FULL mode without overlap, with keys that fit if it is a rebuild. */
  ghost predicate StrictStep(w: World, action: Action) {
    && Disciplined(w, action.step) && action.env.overlapUs <= 0
    && (action.step.SetMode? ==> action.step.mode == FULL)
    && (action.step.Rebuild? ==> Fits(w, action.step.physical))
  }

  lemma StepApart(w: World, action: Action)
    requires Excl(w) && StrictStep(w, action)
    ensures Excl(Apply(w, action))
  {
    hide WinnerFree, FitsAxis, SurvivesAxis;
    var Action(step, target, env) := action;
    StepKeeps(w, action);
    StepWinner(w, action);
    match step
    case KeyDown(k, routed) => if routed { PressApart(w, k, target, env); }
    case KeyUp(k, routed) =>
      if !w.s.Key(k).phys { SpuriousApart(w, k, routed, target, env); }
      else if routed { ReleaseApart(w, k, target, env); }
    case Expire => ExpireApart(w, env);
    case Rebuild(physical) => RebuildApart(w, physical, target, env);
    case Clear => ClearApart(w, target, env);
    case Suspend => ClearApart(w.(s := w.s.(suspended := !w.s.suspended)), target, env);
    case SetMode(_, _) => ClearApart(w, target, env);
    case ReconcileOutput => ReleasePendingApart(w.b, 0, target, env.sends(0));
    case Space(down) => SpaceApart(w.b, if down then I.SpaceDown else I.SpaceUp, target, env.sends(0));
    case _ =>
  }

  // ---- Runs ----

  ghost predicate StrictFrom(w: World, actions: seq<Action>) {
    actions == [] ||
    var before, last := actions[..|actions| - 1], actions[|actions| - 1];
    StrictFrom(w, before) && StrictStep(Run(w, before), last)
  }

  ghost predicate StrictRun(actions: seq<Action>) {
    StrictFrom(START, actions)
  }

  lemma {:induction false} StrictExcl(w: World, actions: seq<Action>)
    requires Excl(w) && StrictFrom(w, actions)
    ensures Excl(Run(w, actions))
  {
    if actions != [] {
      var before := actions[..|actions| - 1];
      StrictExcl(w, before);
      StepApart(Run(w, before), actions[|actions| - 1]);
    }
  }

  lemma StartExcl()
    ensures Excl(START)
  {
    StartInv();
    assert Exclusive(START.b.log) by { forall n | 0 <= n <= |START.b.log| ensures Apart(START.b.log[..n]) {} }
  }

  /** Main result: whatever fails and wherever the focus goes, no prefix of the accepted inputs of a
      strict run leaves both keys of an axis down. */
  lemma NeverBothDown(actions: seq<Action>, n: nat, k: Key)
    requires StrictRun(actions) && n <= |Run(START, actions).b.log|
    ensures var log := Run(START, actions).b.log;
            !(Safety.OpenDown(log[..n], k).Some? && Safety.OpenDown(log[..n], Opposite(k)).Some?)
  {
    StartExcl();
    StrictExcl(START, actions);
    assert Apart(Run(START, actions).b.log[..n]);
  }
}
