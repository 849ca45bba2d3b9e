/** Unrouted edges of a quiet axis, the timer thread's steps and timer expiry keep the invariant. */
module EngineUnrouted {
  import opened Keys
  import opened TargetPlatform
  import opened Engine
  import opened EngineInvariant
  import opened EngineSafety
  import I = Injection
  import T = Timers
  import Safety = InjectionSafety

  // ---- Unrouted edges ----

  lemma QuietPressOk(r: AxisRecord, mode: SocdMode, t: T.Timers, b: I.Boundary, a: Axis, side: Side)
    requires AxisOk(r, mode, t, b, a) && TimersOk(t) && QuietAxis(r)
    ensures var w := TrackPress(r, t, a, side);
            AxisOk(w.r, mode, w.t, b, a) && TimersOk(w.t) && SameTimers(t, w.t, OtherAxis(a))
  {
  }

  lemma TrackedOk(w: World, r: AxisRecord, t: T.Timers, a: Axis, suspended: bool, target: TargetIdentity, env: Env)
    requires AxisOk(r, w.mode, t, w.b, a)
    ensures AxisOk(TrackedRecord(w, r, a, suspended, target, env), w.mode, t, w.b, a)
  {
  }

  lemma OtherTimersOk(r: AxisRecord, mode: SocdMode, t: T.Timers, t': T.Timers, b: I.Boundary, a: Axis)
    requires AxisOk(r, mode, t, b, a) && SameTimers(t, t', a)
    ensures AxisOk(r, mode, t', b, a)
  {
  }

  lemma UnroutedPressKeeps(w: World, k: Key, target: TargetIdentity, env: Env)
    requires Inv(w) && QuietAxis(w.s.At(KeyAxis(k)))
    ensures Inv(HandleKeyDown(w, k, false, target, env))
  {
    var a, side, o := KeyAxis(k), SideOf(k), OtherAxis(KeyAxis(k));
    if !w.s.Key(k).phys {
      var tracked := TrackPress(w.s.At(a), w.t, a, side);
      QuietPressOk(w.s.At(a), w.mode, w.t, w.b, a, side);
      OtherTimersOk(w.s.At(o), w.mode, w.t, tracked.t, w.b, o);
      TrackIfOffAt(w, w.s.With(a, tracked.r), a, target, env);
      TrackIfOffAt(w, w.s.With(a, tracked.r), o, target, env);
      TrackedOk(w, tracked.r, tracked.t, a, w.s.suspended, target, env);
      TrackedOk(w, w.s.At(o), tracked.t, o, w.s.suspended, target, env);
    }
  }

  /** A commit without a batch. */
  lemma CommitOk(w: World, s: State, t: T.Timers, target: TargetIdentity, env: Env)
    requires Safety.Reachable(w.b) && TimersOk(t)
    requires AxisOk(s.x, w.mode, t, w.b, X) && AxisOk(s.y, w.mode, t, w.b, Y)
    ensures Inv(FlushAndCommit(w, s, t, Empty, target, env))
  {
    assert CommitAxis(s.x, w.b, X) == s.x && CommitAxis(s.y, w.b, Y) == s.y;
  }

  lemma QuietReleaseOk(w: World, r: AxisRecord, a: Axis, side: Side, suspended: bool, target: TargetIdentity, env: Env)
    requires AxisOk(r, w.mode, w.t, w.b, a) && TimersOk(w.t) && QuietAxis(r)
    ensures var w1 := TrackRelease(r, w.t, a, side);
            && w1.t == w.t
            && var r' := TrackedRecord(w, w1.r, a, suspended, target, env);
               AxisOk(CommitAxis(r', w.b, a), w.mode, w.t, w.b, a)
  {
  }

  lemma CommittedInv(w: World, s: State, a: Axis)
    requires Safety.Reachable(w.b) && TimersOk(w.t)
    requires AxisOk(CommitAxis(s.At(a), w.b, a), w.mode, w.t, w.b, a)
    requires var o := OtherAxis(a); AxisOk(CommitAxis(s.At(o), w.b, o), w.mode, w.t, w.b, o)
    ensures Inv(w.(s := Commit(s, w.b)))
  {
    if a == X { assert OtherAxis(a) == Y; } else { assert OtherAxis(a) == X; }
  }

  /** The state after the physical edge and the tracker, before the commit. */
  lemma UnroutedReleaseAt(w: World, a: Axis, r: AxisRecord, s: State, target: TargetIdentity, env: Env)
    requires Inv(w) && s == TrackIfOff(w, w.s.With(a, r), target, env)
    requires AxisOk(CommitAxis(TrackedRecord(w, r, a, w.s.suspended, target, env), w.b, a), w.mode, w.t, w.b, a)
    ensures Inv(w.(s := Commit(s, w.b)))
  {
    var o := OtherAxis(a);
    var rO := w.s.At(o);
    assert s.At(a) == TrackedRecord(w, r, a, w.s.suspended, target, env) by {
      TrackIfOffAt(w, w.s.With(a, r), a, target, env);
    }
    assert s.At(o) == TrackedRecord(w, rO, o, w.s.suspended, target, env) by {
      TrackIfOffAt(w, w.s.With(a, r), o, target, env);
    }
    var r' := TrackedRecord(w, rO, o, w.s.suspended, target, env);
    assert AxisOk(r', w.mode, w.t, w.b, o) by {
      assert AxisOk(rO, w.mode, w.t, w.b, o);
      TrackedOk(w, rO, w.t, o, w.s.suspended, target, env);
    }
    CommitSame(r', w.mode, w.t, w.b, o);
    CommittedInv(w, s, a);
  }

  lemma CommitSame(r: AxisRecord, mode: SocdMode, t: T.Timers, b: I.Boundary, a: Axis)
    requires AxisOk(r, mode, t, b, a)
    ensures CommitAxis(r, b, a) == r
  {
  }

  lemma UnroutedReleaseKeeps(w: World, k: Key, target: TargetIdentity, env: Env)
    requires Inv(w) && QuietAxis(w.s.At(KeyAxis(k)))
    ensures Inv(HandleKeyUp(w, k, false, target, env))
  {
    var a, side := KeyAxis(k), SideOf(k);
    if !w.s.Key(k).phys {
      assert w.s.With(a, w.s.At(a)) == w.s;
      CommitOk(w, w.s, w.t, target, env);
    } else {
      var tracked := TrackRelease(w.s.At(a), w.t, a, side);
      var s := TrackIfOff(w, w.s.With(a, tracked.r), target, env);
      QuietReleaseOk(w, w.s.At(a), a, side, w.s.suspended, target, env);
      UnroutedReleaseAt(w, a, tracked.r, s, target, env);
      assert s.With(a, s.At(a)) == s;
      assert HandleKeyUp(w, k, false, target, env) == w.(s := Commit(s, w.b));
    }
  }

  // ---- The timer thread ----

  lemma ThreadKeeps(t: T.Timers, t': T.Timers, now: int, r: AxisRecord, mode: SocdMode, b: I.Boundary, a: Axis)
    requires TimersOk(t) && (t' == T.Pick(t) || t' == T.Fire(t, now) || t' == T.Enqueue(t))
    requires AxisOk(r, mode, t, b, a)
    ensures TimersOk(t') && AxisOk(r, mode, t', b, a)
  {
    T.NearestIsLeast(t.slots, T.NUM_SLOTS);
    LiveStays(t, t', now, KeyOf(a, Pos), r.pos.expectedTimerId);
    LiveStays(t, t', now, KeyOf(a, Neg), r.neg.expectedTimerId);
  }

  lemma LiveStays(t: T.Timers, t': T.Timers, now: int, k: Key, id: nat)
    requires TimersOk(t) && (t' == T.Pick(t) || t' == T.Fire(t, now) || t' == T.Enqueue(t))
    ensures T.Live(t, k, id) ==> T.Live(t', k, id)
  {
  }

  // ---- Expiry ----

  /** Only the popped timer stops being live. */
  lemma PopLive(t: T.Timers, k: Key, id: nat)
    requires T.Live(t, k, id) && t.queue != [] && t.queue[0] != T.Expired(k, id)
    ensures T.Live(T.Pop(t), k, id)
  {
    assert t.queue == [t.queue[0]] + t.queue[1..];
  }

  lemma PopOnItsWay(t: T.Timers, k: Key, id: nat)
    requires t.queue != [] && t.queue[0] != T.Expired(k, id)
    ensures T.OnItsWay(t, k, id) ==> T.OnItsWay(T.Pop(t), k, id)
  {
    assert t.queue == [t.queue[0]] + t.queue[1..];
  }

  lemma ExpireReady(w: Work, a: Axis, side: Side, b: I.Boundary, t: T.Timers, mode: SocdMode)
    requires w.batch == Empty && StaysOn(t, w, a)
    requires w.r.Key(side).logical == (w.r.Key(side).nativeLogical || b.held[KeyOf(a, side)])
    requires KeyOk(w.r, w.t, b, a, Flip(side)) && NativeOk(w.r, mode)
    ensures GoingExcept(SetTimerFor(w, side, 0, NO_TARGET), b, a, t, side)
  {
  }

  lemma ExpireBrakeKeeps(w: Work, a: Axis, side: Side, b: I.Boundary, t: T.Timers)
    requires GoingExcept(w, b, a, t, side) && w.r.Key(side).expectedTimerId == 0
    ensures Going(ExpireBrake(w, a, side), b, a, t)
  {
    if w.r.Key(side).phys {
      assert Going(w, b, a, t);
    } else {
      ReleaseKeeps(w, a, side, b, t);
      if w.r.Key(Flip(side)).phys { EmitKeeps(Release(w, a, side), a, Flip(side), true, b, t); }
    }
  }

  lemma ExpireSocdKeeps(w: Work, mode: SocdMode, a: Axis, side: Side, suspended: bool, b: I.Boundary, t: T.Timers)
    requires GoingExcept(w, b, a, t, side) && w.r.Key(side).phys && w.r.Key(side).expectedTimerId == 0
    ensures Going(ExpireSocd(w, mode, a, side, suspended), b, a, t)
  {
    var w1 := w.(r := w.r.(socdReleaseTimerId := 0));
    assert Going(w1, b, a, t);
    ReleaseKeeps(w1, a, side, b, t);
  }

  /** `before` are the timers before the expiry was popped. */
  lemma ExpireTimerKeeps(w: Work, before: T.Timers, mode: SocdMode, a: Axis, side: Side, suspended: bool,
        b: I.Boundary, t: T.Timers)
    requires w.batch == Empty && StaysOn(t, w, a) && w.r.Key(side).expectedTimerId != 0
    requires RecordOk(w.r, mode, before, a)
    requires Expiring(w.r, mode, before, a, Flip(side)) ==> Expiring(w.r, mode, w.t, a, Flip(side))
    requires w.r.Key(side).logical == (w.r.Key(side).nativeLogical || b.held[KeyOf(a, side)])
    requires KeyOk(w.r, w.t, b, a, Flip(side))
    ensures var w' := ExpireTimer(w, mode, a, side, suspended);
            Going(w', b, a, t) && RecordOk(w'.r, mode, w'.t, a) && w'.r.axisState == w'.r.Resolved()
  {
    ExpireReady(w, a, side, b, t, mode);
    var w1 := SetTimerFor(w, side, 0, NO_TARGET);
    if w.r.socdReleaseTimerId == w.r.Key(side).expectedTimerId {
      ExpireSocdKeeps(w1, mode, a, side, suspended, b, t);
    } else {
      ExpireBrakeKeeps(w1, a, side, b, t);
    }
  }

  lemma PoppedKeyKeeps(w: World, a: Axis, side: Side)
    requires Inv(w) && w.t.queue != []
    requires w.s.At(a).Key(side).expectedTimerId != 0 ==>
               w.t.queue[0] != T.Expired(KeyOf(a, side), w.s.At(a).Key(side).expectedTimerId)
    ensures KeyOk(w.s.At(a), T.Pop(w.t), w.b, a, side)
  {
    var r := w.s.At(a);
    if r.Key(side).expectedTimerId != 0 { PopLive(w.t, KeyOf(a, side), r.Key(side).expectedTimerId); }
  }

  lemma StalePopKeeps(w: World, a: Axis)
    requires Inv(w) && w.t.queue != []
    requires var e := w.t.queue[0];
             e.key != 4 && KeyAxis(e.key) == a ==> e.id == 0 || w.s.Key(e.key).expectedTimerId != e.id
    ensures AxisOk(w.s.At(a), w.mode, T.Pop(w.t), w.b, a)
  {
    PoppedKeyKeeps(w, a, Pos);
    PoppedKeyKeeps(w, a, Neg);
  }

  function ExpiryWork(w: World, k: Key): Work {
    ExpireTimer(Work(w.s.At(KeyAxis(k)), T.Pop(w.t), Empty), w.mode, KeyAxis(k), SideOf(k), w.s.suspended)
  }

  lemma OwnExpiryInOrder(w: World, k: Key)
    requires Inv(w) && w.t.queue != [] && w.t.queue[0] == T.Expired(k, w.s.Key(k).expectedTimerId)
    requires w.s.Key(k).expectedTimerId != 0
    ensures InOrder(w.(t := T.Pop(w.t)), w.s, KeyAxis(k), ExpiryWork(w, k))
    ensures var o := OtherAxis(KeyAxis(k)); AxisOk(w.s.At(o), w.mode, T.Pop(w.t), w.b, o)
  {
    var a, side, t := KeyAxis(k), SideOf(k), T.Pop(w.t);
    StalePopKeeps(w, OtherAxis(a));
    PoppedKeyKeeps(w, a, Flip(side));
    PopOnItsWay(w.t, KeyOf(a, Flip(side)), w.s.At(a).Key(Flip(side)).expectedTimerId);
    ExpireTimerKeeps(Work(w.s.At(a), t, Empty), w.t, w.mode, a, side, w.s.suspended, w.b, t);
  }

  lemma OwnExpiryKeeps(w: World, k: Key, env: Env)
    requires Inv(w) && w.t.queue != [] && w.t.queue[0] == T.Expired(k, w.s.Key(k).expectedTimerId)
    requires w.s.Key(k).expectedTimerId != 0
    ensures Inv(OnTimerExpired(w.(t := T.Pop(w.t)), k, w.s.Key(k).expectedTimerId, env))
  {
    OwnExpiryInOrder(w, k);
    FinishKeeps(w.(t := T.Pop(w.t)), w.s, KeyAxis(k), ExpiryWork(w, k), w.s.Key(k).expectedTimerTarget, env);
  }

  lemma ExpireKeeps(w: World, env: Env)
    requires Inv(w)
    ensures Inv(DrainExpired(w, env))
  {
    if w.t.queue != [] {
      var e := w.t.queue[0];
      if e.key != 4 && e.id != 0 && w.s.Key(e.key).expectedTimerId == e.id {
        OwnExpiryKeeps(w, e.key, env);
      } else {
        StalePopKeeps(w, X);
        StalePopKeeps(w, Y);
        assert DrainExpired(w, env) == w.(t := T.Pop(w.t));
      }
    }
  }
}
