/** Which keys a rebuild can be shown. Fitting ones keep every guarantee; after any others the guarantees fail, on
    the spot with the cleaner off and within a few steps with the cleaner on. */
module EngineMasks {
  import opened Keys
  import opened TargetPlatform
  import opened Engine
  import opened EngineInvariant
  import opened EngineReconcile
  import opened EngineRuns
  import opened EngineExclusive
  import opened EngineStale
  import B = BrakeSafety
  import P = EnginePhysical
  import I = Injection
  import T = Timers
  import Safety = InjectionSafety

  // ---- What may follow ----

  ghost predicate Leads(w: World, actions: seq<Action>, strict: bool, w': World) {
    DisciplinedFrom(w, actions) && (strict ==> StrictFrom(w, actions)) && Run(w, actions) == w'
  }

  /** Some disciplined run leads from w to w'; a strict one stays in FULL mode without overlap. */
  ghost predicate Path(w: World, w': World, strict: bool) {
    exists actions :: Leads(w, actions, strict, w')
  }

  /** No disciplined run from w ever leaves a key stuck. */
  ghost predicate NeverStuckFrom(w: World) {
    forall w', k: Key :: Path(w, w', false) ==> NotStuck(w', k)
  }

  /** No strict run from w ever has both keys of an axis down. */
  ghost predicate ExclusiveFrom(w: World) {
    forall w' :: Path(w, w', true) ==> Exclusive(w'.b.log)
  }

  lemma PathSelf(w: World, strict: bool)
    ensures Path(w, w, strict)
  {
    assert Leads(w, [], strict, w);
  }

  lemma PathStep(w: World, w': World, action: Action, strict: bool)
    requires Path(w, w', strict) && Disciplined(w', action.step) && (strict ==> StrictStep(w', action))
    ensures Path(w, Apply(w', action), strict)
  {
    hide Apply, Disciplined, StrictStep;
    var actions :| Leads(w, actions, strict, w');
    var more := actions + [action];
    assert more[..|more| - 1] == actions && more[|more| - 1] == action;
    assert Leads(w, more, strict, Apply(w', action));
  }

  // ---- An axis that misfits ----

  /** The engine's records with the cleaner on: logical is what is held, and the axis state is the resolved one. */
  ghost predicate RestingAxis(r: AxisRecord, b: I.Boundary, a: Axis) {
    && !r.pos.nativeLogical && r.pos.logical == b.held[KeyOf(a, Pos)]
    && !r.neg.nativeLogical && r.neg.logical == b.held[KeyOf(a, Neg)]
    && r.axisState == r.Resolved() && (r.socdReleaseTimerId != 0 ==> r.axisState == Conflict)
  }

  ghost predicate Resting(w: World) {
    && w.mode != OFF && Safety.Reachable(w.b) && w.t.nextId > 0
    && RestingAxis(w.s.x, w.b, X) && RestingAxis(w.s.y, w.b, Y)
  }

  ghost predicate WishedKey(r: AxisRecord, b: I.Boundary, a: Axis, side: Side) {
    b.held[KeyOf(a, side)] ==> Desired(r, side) || b.pending[KeyOf(a, side)]
  }

  /** Nothing is held that reconciliation does not want, unless its release is pending. */
  ghost predicate Wished(w: World) {
    && WishedKey(w.s.x, w.b, X, Pos) && WishedKey(w.s.x, w.b, X, Neg)
    && WishedKey(w.s.y, w.b, Y, Pos) && WishedKey(w.s.y, w.b, Y, Neg)
  }

  function Winner(w: World, a: Axis): Key {
    KeyOf(a, w.s.At(a).socdLastKey)
  }

  /** A conflict whose winner still awaits timer `id`. */
  ghost predicate Lingers(w: World, a: Axis, k: Key, id: nat) {
    var r := w.s.At(a);
    && Resting(w) && r.axisState == Conflict && r.socdReleaseTimerId == 0
    && k == Winner(w, a) && id != 0 && w.s.Key(k).expectedTimerId == id
  }

  predicate Misfits(w: World, physical: Bools4, a: Axis) {
    !FitsAxis(w.s.At(a), w.mode, w.b, a, if a == X then physical[D] else physical[W],
              if a == X then physical[A] else physical[S])
  }

  // ---- A rebuild with the cleaner on, whatever it is shown ----

  lemma SettledQueue(w: World, physical: Bools4)
    ensures var wk := SettleBoth(TakenOver(w, physical));
            wk.t.queue == w.t.queue && wk.t.inFlight == w.t.inFlight && wk.t.nextId == w.t.nextId
  {
    hide SettleKeys;
    SettleBothQueue(TakenOver(w, physical));
  }

  /** What both passes leave of an axis once their batch is delivered. */
  lemma PassedRests(w: Work, w0: Work, mode: SocdMode, b: I.Boundary, a: Axis, target: TargetIdentity,
                    sends: nat -> I.Dispatch)
    requires Safety.Reachable(b) && Unsettled(w0, mode, b, a) && InPass(w, w0.r, mode, b, a, true, true)
    ensures var b' := Flush(b, w.batch, target, sends);
            var r := CommitAxis(w.r, b', a);
            Rebuilt(r, w0.r, b', a)
  {
    hide Flush, Asked, Touches, T.Live;
    FlushFollows(b, w.batch, target, sends, KeyOf(a, Pos));
    FlushFollows(b, w.batch, target, sends, KeyOf(a, Neg));
  }

  /** A misfit shows both keys down while the last pressed one awaits a timer, and was not in conflict before. */
  lemma MisfitIs(w: World, physical: Bools4, a: Axis)
    requires Inv(w) && w.mode != OFF && Misfits(w, physical, a)
    ensures var r, w0 := w.s.At(a), TakenOver(w, physical);
            && r.Key(r.socdLastKey).expectedTimerId != 0 && r.socdReleaseTimerId == 0
            && w0.s.At(a).Resolved() == Conflict && w0.s.At(a).socdReleaseTimerId == 0
            && w0.s.At(a).socdLastKey == r.socdLastKey
            && w0.s.At(a).Key(r.socdLastKey).expectedTimerId == r.Key(r.socdLastKey).expectedTimerId
  {
    hide T.Live, TimersOk, KeyOk, T.Cancel;
  }

  /** An axis after the rebuild against what it had taken over. */
  ghost predicate Rebuilt(r: AxisRecord, r0: AxisRecord, b: I.Boundary, a: Axis) {
    && RestingAxis(r, b, a) && WishedKey(r, b, a, Pos) && WishedKey(r, b, a, Neg)
    && r.socdLastKey == r0.socdLastKey && r.socdReleaseTimerId == r0.socdReleaseTimerId
    && SeenAxis(r, r0.pos.phys, r0.neg.phys)
    && (r0.Resolved() == Conflict ==> r.Key(r.socdLastKey).expectedTimerId == r0.Key(r.socdLastKey).expectedTimerId)
  }

  lemma RebuiltIs(w: World, physical: Bools4, target: TargetIdentity, env: Env)
    requires Inv(w) && w.mode != OFF
    ensures var w', w0 := RebuildState(w, physical, target, env), TakenOver(w, physical);
            && Rebuilt(w'.s.x, w0.s.x, w'.b, X) && Rebuilt(w'.s.y, w0.s.y, w'.b, Y) && Safety.Reachable(w'.b)
            && w'.mode == w.mode && w'.t.queue == w.t.queue && w'.t.inFlight == w.t.inFlight
            && w'.t.nextId == w.t.nextId && w'.s.suspended == w.s.suspended
            && TimerLive(w'.s.x.pos, w'.t, D) && TimerLive(w'.s.x.neg, w'.t, A)
            && TimerLive(w'.s.y.pos, w'.t, W) && TimerLive(w'.s.y.neg, w'.t, S)
  {
    hide Unsettled, InPass, TakenOver, SettleBoth, Rebuilt, TimerLive, TimersOk, Flush, AxisOk, CommitAxis,
      RebuildState;
    TakenOverOk(w, physical);
    var w0 := TakenOver(w, physical);
    SettleBothPass(w0, w.mode, w.b);
    SettledQueue(w, physical);
    var wk := SettleBoth(w0);
    PassedRests(wk.At(X), w0.At(X), w.mode, w.b, X, target, env.sends);
    PassedRests(wk.At(Y), w0.At(Y), w.mode, w.b, Y, target, env.sends);
    FlushReachable(w.b, wk.batch, target, env.sends);
    RebuildIs(w, physical, target, env);
    var w' := RebuildState(w, physical, target, env);
    assert w' == FlushAndCommit(w, wk.s, wk.t, wk.batch, target, env);
    assert w'.s.x == CommitAxis(wk.s.x, w'.b, X) && w'.s.y == CommitAxis(wk.s.y, w'.b, Y);
    CommitTimers(wk.s, w'.b, w'.t);
    PassedLive(wk, w0.s, w.mode, w.b, X);
    PassedLive(wk, w0.s, w.mode, w.b, Y);
    SuspendedStays(w, physical);
  }

  lemma CommitTimers(s: State, b: I.Boundary, t: T.Timers)
    ensures var s' := Commit(s, b);
            && TimerLive(s'.x.pos, t, D) == TimerLive(s.x.pos, t, D)
            && TimerLive(s'.x.neg, t, A) == TimerLive(s.x.neg, t, A)
            && TimerLive(s'.y.pos, t, W) == TimerLive(s.y.pos, t, W)
            && TimerLive(s'.y.neg, t, S) == TimerLive(s.y.neg, t, S)
  {
  }

  lemma RebuiltLingers(w: World, physical: Bools4, a: Axis, target: TargetIdentity, env: Env)
    requires Inv(w) && w.mode != OFF && Misfits(w, physical, a)
    ensures var w' := RebuildState(w, physical, target, env);
            && Lingers(w', a, Winner(w, a), w.s.Key(Winner(w, a)).expectedTimerId) && Wished(w')
            && w'.mode == w.mode && w'.t.queue == w.t.queue && w'.t.inFlight == w.t.inFlight
            && T.Live(w'.t, Winner(w, a), w.s.Key(Winner(w, a)).expectedTimerId)
  {
    hide TakenOver, RebuildState, WishedKey, T.Live, Misfits, AxisOk;
    RebuiltIs(w, physical, target, env);
    MisfitIs(w, physical, a);
    assert w.t.nextId > 0 by { assert TimersOk(w.t); }
  }

  lemma PassedLive(w: WorkAll, s: State, mode: SocdMode, b: I.Boundary, a: Axis)
    requires InPasses(w, s, mode, b, 4)
    ensures TimerLive(w.s.At(a).pos, w.t, KeyOf(a, Pos)) && TimerLive(w.s.At(a).neg, w.t, KeyOf(a, Neg))
  {
    hide T.Live, Asked, Touches;
  }

  lemma {:induction false} SettleSuspended(w: WorkAll, s: State, down: bool, n: nat)
    requires n <= 4
    ensures SettleKeys(w, s, down, n).s.suspended == w.s.suspended
  {
    hide Desired;
    if n > 0 { SettleSuspended(w, s, down, n - 1); }
  }

  lemma SuspendedStays(w: World, physical: Bools4)
    ensures SettleBoth(TakenOver(w, physical)).s.suspended == w.s.suspended
  {
    hide SettleKeys;
    var w0 := TakenOver(w, physical);
    SettleSuspended(w0, w0.s, false, 4);
    SettleSuspended(SettleKeys(w0, w0.s, false, 4), w0.s, true, 4);
  }

  /** With the cleaner on the rebuild itself leaves no key stuck and presses no key beside its opposite, whatever
      keys it is shown. */
  lemma RebuildItselfIsSafe(w: World, physical: Bools4, target: TargetIdentity, env: Env, k: Key)
    requires Inv(w) && w.mode != OFF
    ensures NotStuck(RebuildState(w, physical, target, env), k)
    ensures Excl(w) ==> Exclusive(RebuildState(w, physical, target, env).b.log)
  {
    hide RebuildState, TakenOver, T.Live, Inv, Exclusive;
    RebuiltIs(w, physical, target, env);
    if Excl(w) { RebuildApart(w, physical, target, env); }
  }

  // ---- Clearing what is owed ----

  lemma SlotReleased(b: I.Boundary, slot: I.Slot, d: I.Dispatch)
    requires I.ReleaseAccepted(d, slot)
    ensures var b' := I.ReleaseSlot(b, slot, d).0;
            && b'.pending == b.pending[slot := false]
            && b'.pendingTarget == b.pendingTarget[slot := NO_TARGET]
  {
  }

  lemma {:induction false} ReleasesOf(b: I.Boundary, from: nat, target: TargetIdentity, d: I.Dispatch, s: I.Slot)
    requires from <= I.SLOT_COUNT && forall slot: I.Slot :: I.ReleaseAccepted(d, slot)
    ensures I.ReleasePendingFrom(b, from, target, d).0.pending[s] ==>
              b.pending[s] && (s < from || b.pendingTarget[s] != target)
    decreases I.SLOT_COUNT - from
  {
    hide I.ReleaseSlot, I.ReleaseAccepted;
    if from < I.SLOT_COUNT {
      if b.pending[from] && b.pendingTarget[from] == target {
        SlotReleased(b, from, d);
        ReleasesOf(I.ReleaseSlot(b, from, d).0, from + 1, target, d, s);
      } else {
        ReleasesOf(b, from + 1, target, d, s);
      }
    }
  }

  function Cleaner(b: I.Boundary, slot: I.Slot): Action {
    Action(ReconcileOutput, b.pendingTarget[slot], Obliging(b.pendingTarget[slot]))
  }

  /** What changes when owed releases are retried: slots are only released, and the logical keys follow. */
  ghost predicate Retried(w: World, w': World) {
    && w' == w.(b := w'.b, s := Commit(w.s, w'.b)) && Safety.Reachable(w'.b)
    && (forall k: Key :: OnlyReleases(w.b, w'.b, k))
    && (forall s: I.Slot :: w'.b.pending[s] ==> w.b.pending[s])
  }

  lemma CleanerClears(w: World, slot: I.Slot)
    requires Safety.Reachable(w.b)
    ensures var w' := Apply(w, Cleaner(w.b, slot)); Retried(w, w') && !w'.b.pending[slot]
  {
    var target := w.b.pendingTarget[slot];
    var d := Obliging(target).sends(0);
    Safety.ReachableSlot(w.b, slot);
    Safety.StaysReachable(w.b, I.Reconcile, target, d);
    assert I.ReconcilePending(w.b, target, d).0 == I.Apply(w.b, I.Reconcile, target, d);
    forall s: I.Slot
      ensures I.ReconcilePending(w.b, target, d).0.pending[s] ==>
                w.b.pending[s] && (IsExpectedTargetActive(d.focus, target) ==> w.b.pendingTarget[s] != target)
    {
      if IsExpectedTargetActive(d.focus, target) { ReleasesOf(w.b, 0, target, d, s); }
    }
    forall k: Key ensures OnlyReleases(w.b, I.ReconcilePending(w.b, target, d).0, k) {
      ReleasePendingOnly(w.b, 0, target, d, k);
    }
  }

  lemma RetriedLingers(w: World, w': World, a: Axis, k: Key, id: nat)
    requires Lingers(w, a, k, id) && Wished(w) && Retried(w, w')
    ensures Lingers(w', a, k, id) && Wished(w')
  {
    hide Safety.Reachable, RestingAxis, WishedKey, CommitAxis, OnlyReleases;
    RetriedAxis(w.s.x, w.b, w'.b, X);
    RetriedAxis(w.s.y, w.b, w'.b, Y);
    CommitKeepsPlan(w.s.At(a), w'.b, a);
  }

  lemma CommitKeepsPlan(r: AxisRecord, b: I.Boundary, a: Axis)
    ensures var r' := CommitAxis(r, b, a);
            && r'.axisState == r.axisState && r'.socdLastKey == r.socdLastKey
            && r'.socdReleaseTimerId == r.socdReleaseTimerId
            && r'.pos.expectedTimerId == r.pos.expectedTimerId && r'.neg.expectedTimerId == r.neg.expectedTimerId
  {
  }

  lemma RetriedAxis(r: AxisRecord, b: I.Boundary, b': I.Boundary, a: Axis)
    requires RestingAxis(r, b, a) && WishedKey(r, b, a, Pos) && WishedKey(r, b, a, Neg)
    requires OnlyReleases(b, b', KeyOf(a, Pos)) && OnlyReleases(b, b', KeyOf(a, Neg))
    ensures var r' := CommitAxis(r, b', a);
            RestingAxis(r', b', a) && WishedKey(r', b', a, Pos) && WishedKey(r', b', a, Neg)
  {
  }

  /** After retrying the first n slots none of them is owed. */
  lemma {:induction false} OwedCleared(w0: World, w: World, a: Axis, k: Key, id: nat, strict: bool, n: nat)
      returns (w': World)
    requires n <= I.SLOT_COUNT && Path(w0, w, strict) && Lingers(w, a, k, id) && Wished(w)
    ensures Path(w0, w', strict) && Lingers(w', a, k, id) && Wished(w')
    ensures w'.t == w.t && w'.mode == w.mode && w'.s.suspended == w.s.suspended
    ensures forall s: I.Slot :: s < n ==> !w'.b.pending[s]
  {
    hide Apply, Lingers, Wished, Path;
    w' := w;
    if n > 0 {
      w' := OwedCleared(w0, w, a, k, id, strict, n - 1);
      assert Safety.Reachable(w'.b) by { LingersReachable(w', a, k, id); }
      var action := Cleaner(w'.b, n - 1);
      CleanerClears(w', n - 1);
      RetriedLingers(w', Apply(w', action), a, k, id);
      PathStep(w0, w', action, strict);
      w' := Apply(w', action);
    }
  }

  lemma LingersReachable(w: World, a: Axis, k: Key, id: nat)
    requires Lingers(w, a, k, id)
    ensures Safety.Reachable(w.b)
  {
  }

  // ---- A second rebuild presses what is wanted ----

  ghost predicate OnlyPresses(batch: Batch) {
    match batch
    case Empty => true
    case More(rest, e) => e.down && OnlyPresses(rest)
  }

  lemma {:induction false} FlushPresses(b: I.Boundary, batch: Batch)
    requires OnlyPresses(batch) && !b.releaseOnly && forall k: Key :: Touches(batch, k) ==> !b.held[k]
    ensures var b' := Flush(b, batch, SOME_TARGET, Obliging(SOME_TARGET).sends);
            && !b'.releaseOnly && b'.pending == b.pending
            && (forall k: Key :: b'.held[k] == (b.held[k] || Touches(batch, k)))
            && (forall k: Key :: Touches(batch, k) ==> b'.owner[k] == SOME_TARGET)
  {
    match batch
    case Empty =>
    case More(rest, e) =>
      assert forall k: Key :: Touches(rest, k) ==> Touches(batch, k);
      FlushPresses(b, rest);
  }

  /** The same record but for what is logically down. */
  ghost predicate SameButLogical(r: AxisRecord, r': AxisRecord) {
    r' == r.(pos := r.pos.(logical := r'.pos.logical), neg := r.neg.(logical := r'.neg.logical))
  }

  /** The first n keys have had their turn among the presses: the wanted ones are pressed, nothing else has changed. */
  ghost predicate PressedTo(w0: WorkAll, w: WorkAll, n: nat) {
    && w.t == w0.t && OnlyPresses(w.batch) && w.s.suspended == w0.s.suspended
    && SameButLogical(w0.s.x, w.s.x) && SameButLogical(w0.s.y, w.s.y)
    && (forall k: Key :: Touches(w.batch, k) <==> k < n && Wants(w0, k))
    && (forall k: Key :: k >= n ==> w.s.Key(k).logical == w0.s.Key(k).logical)
  }

  predicate Wants(w: WorkAll, k: Key) {
    Desired(w.s.At(KeyAxis(k)), SideOf(k)) && !w.s.Key(k).logical
  }

  lemma PressOne(w0: WorkAll, w: WorkAll, n: Key)
    requires PressedTo(w0, w, n)
    ensures var a, side := KeyAxis(n), SideOf(n);
            PressedTo(w0, w.With(a, SettleKey(w.At(a), a, side, true, Desired(w0.s.At(a), side))), n + 1)
  {
    hide Desired;
    var a, side := KeyAxis(n), SideOf(n);
    var w' := w.With(a, SettleKey(w.At(a), a, side, true, Desired(w0.s.At(a), side)));
    assert w'.batch == if Wants(w0, n) then More(w.batch, Event(n, true)) else w.batch;
    forall k: Key ensures Touches(w'.batch, k) <==> k < n + 1 && Wants(w0, k) {
      assert Touches(w.batch, k) <==> k < n && Wants(w0, k);
    }
  }

  lemma PressNone(w: WorkAll)
    requires w.batch == Empty
    ensures PressedTo(w, w, 0)
  {
  }

  lemma {:induction false} PressPass(w: WorkAll, n: nat)
    requires n <= 4 && w.batch == Empty
    ensures PressedTo(w, SettleKeys(w, w.s, true, n), n)
  {
    hide Desired, SettleKey, PressedTo;
    if n == 0 {
      PressNone(w);
    } else {
      PressPass(w, n - 1);
      PressOne(w, SettleKeys(w, w.s, true, n - 1), n - 1);
    }
  }

  lemma {:induction false} NoReleases(w: WorkAll, n: nat)
    requires n <= 4 && forall k: Key :: w.s.Key(k).logical ==> Desired(w.s.At(KeyAxis(k)), SideOf(k))
    ensures SettleKeys(w, w.s, false, n) == w
  {
    hide Desired;
    if n > 0 { NoReleases(w, n - 1); }
  }

  lemma RestingTakesOver(w: World)
    requires Resting(w)
    ensures TakenOver(w, P.PhysOf(w.s)) == WorkAll(w.s, w.t, Empty) && Fits(w, P.PhysOf(w.s))
  {
    assert Observe(w.s, P.PhysOf(w.s)) == w.s;
  }

  lemma NothingOwed(b: I.Boundary)
    requires Safety.Reachable(b) && forall s: I.Slot :: !b.pending[s]
    ensures !b.releaseOnly
  {
    Safety.ReachableSlot(b, 0);
  }

  lemma WishedLogical(w: World)
    requires Resting(w) && Wished(w) && forall s: I.Slot :: !w.b.pending[s]
    ensures forall k: Key :: w.s.Key(k).logical ==> Desired(w.s.At(KeyAxis(k)), SideOf(k))
    ensures forall k: Key :: w.s.Key(k).logical == w.b.held[k]
  {
    hide Desired;
  }

  lemma WinnerWanted(w: World, a: Axis, k: Key, id: nat)
    requires Lingers(w, a, k, id)
    ensures KeyAxis(k) == a && w.s.Key(k).phys && w.s.Key(Opposite(k)).phys
    ensures Desired(w.s.At(a), SideOf(k)) && !Desired(w.s.At(a), SideOf(Opposite(k)))
  {
  }

  /** The state in which a release of k, held by a brake in the middle of a conflict, goes wrong. */
  ghost predicate Primed(w: World, a: Axis, k: Key, id: nat) {
    Lingers(w, a, k, id) && w.b.held[k] && !w.b.held[Opposite(k)] && !w.b.releaseOnly && !w.b.pending[k]
  }

  lemma CommitSameButLogical(s: State, s': State, b: I.Boundary)
    requires SameButLogical(s.x, s'.x) && SameButLogical(s.y, s'.y) && s'.suspended == s.suspended
    ensures Commit(s', b) == Commit(s, b)
  {
  }

  lemma CommitLingers(w: World, b: I.Boundary, a: Axis, k: Key, id: nat)
    requires Lingers(w, a, k, id) && Safety.Reachable(b)
    ensures Lingers(w.(s := Commit(w.s, b), b := b), a, k, id)
  {
    hide Safety.Reachable;
  }

  lemma SecondRebuild(w: World, a: Axis, k: Key, id: nat)
    requires Lingers(w, a, k, id) && Wished(w) && forall s: I.Slot :: !w.b.pending[s]
    ensures var w' := RebuildState(w, P.PhysOf(w.s), SOME_TARGET, Obliging(SOME_TARGET));
            Primed(w', a, k, id) && w'.t == w.t && w'.mode == w.mode && w'.s.suspended == w.s.suspended
  {
    hide TakenOver, SettleKeys, RebuildState, Wished, Desired, Flush, Safety.Reachable;
    var mask, env, w0 := P.PhysOf(w.s), Obliging(SOME_TARGET), WorkAll(w.s, w.t, Empty);
    RestingTakesOver(w);
    WishedLogical(w);
    WinnerWanted(w, a, k, id);
    NoReleases(w0, 4);
    PressPass(w0, 4);
    NothingOwed(w.b);
    var wk := SettleBoth(w0);
    FlushPresses(w.b, wk.batch);
    FlushReachable(w.b, wk.batch, SOME_TARGET, env.sends);
    RebuildIs(w, mask, SOME_TARGET, env);
    CommitSameButLogical(w.s, wk.s, Flush(w.b, wk.batch, SOME_TARGET, env.sends));
    CommitLingers(w, Flush(w.b, wk.batch, SOME_TARGET, env.sends), a, k, id);
  }

  /** From a lingering conflict a disciplined run leads to the primed state. */
  lemma PrimedFollows(w0: World, w: World, a: Axis, k: Key, id: nat, strict: bool) returns (w': World)
    requires Path(w0, w, strict) && Lingers(w, a, k, id) && Wished(w)
    ensures Path(w0, w', strict) && Primed(w', a, k, id)
    ensures w'.t == w.t && w'.mode == w.mode && w'.s.suspended == w.s.suspended
  {
    hide RebuildState, Path, Primed, Wished;
    var w1 := OwedCleared(w0, w, a, k, id, strict, I.SLOT_COUNT);
    SecondRebuild(w1, a, k, id);
    RestingTakesOver(w1);
    FitsSurvives(w1, P.PhysOf(w1.s));
    var action := Action(Rebuild(P.PhysOf(w1.s)), SOME_TARGET, Obliging(SOME_TARGET));
    PathStep(w0, w1, action, strict);
    w' := Apply(w1, action);
  }

  // ---- Exclusivity ----

  lemma MisfitBreaksExclusive(w: World, physical: Bools4, a: Axis)
    requires Excl(w) && Misfits(w, physical, a)
    ensures !ExclusiveFrom(RebuildState(w, physical, SOME_TARGET, Obliging(SOME_TARGET)))
  {
    hide RebuildState, Misfits, Wished, Path, Exclusive, HandleKeyUp;
    var env, k := Obliging(SOME_TARGET), Winner(w, a);
    var w1, id := RebuildState(w, physical, SOME_TARGET, env), w.s.Key(k).expectedTimerId;
    RebuiltLingers(w, physical, a, SOME_TARGET, env);
    PathSelf(w1, true);
    var w2 := PrimedFollows(w1, w1, a, k, id, true);
    var action := Action(KeyUp(k, true), SOME_TARGET, env);
    PathStep(w1, w2, action, true);
    if Exclusive(w2.b.log) {
      WinnerWanted(w2, a, k, id);
      PrimedIsBraked(w2, a, k, id);
      BrakedReleaseUnsafe(w2, k);
      assert Apply(w2, action) == HandleKeyUp(w2, k, true, SOME_TARGET, env);
      assert Path(w1, Apply(w2, action), true) && !Exclusive(Apply(w2, action).b.log);
    }
  }

  lemma PrimedIsBraked(w: World, a: Axis, k: Key, id: nat)
    requires Primed(w, a, k, id) && w.mode == FULL
    ensures Safety.Reachable(w.b) && Plain(w, KeyAxis(k)) && BrakedConflict(w.s.At(KeyAxis(k)), SideOf(k))
  {
    WinnerWanted(w, a, k, id);
  }

  /** Main result: in FULL mode without overlap no disciplined run after a rebuild, whatever fails in it, has both
      keys of an axis down exactly when no axis is shown both keys down while its last pressed key awaits a timer
      (unless both were down before). */
  lemma RebuildSafeIff(w: World, physical: Bools4)
    requires Excl(w)
    ensures (forall target, env :: ExclusiveFrom(RebuildState(w, physical, target, env))) <==> Fits(w, physical)
  {
    hide RebuildState, Exclusive, FitsAxis, Path;
    if Fits(w, physical) {
      forall target, env ensures ExclusiveFrom(RebuildState(w, physical, target, env)) {
        var w' := RebuildState(w, physical, target, env);
        FitsSurvives(w, physical);
        RebuildKeeps(w, physical, target, env);
        RebuildApart(w, physical, target, env);
        RebuildWinner(w, physical, target, env);
        assert w'.mode == FULL by { RebuildMode(w, physical, target, env); }
        ExclFollows(w');
      }
    } else {
      var a := if FitsAxis(w.s.x, w.mode, w.b, X, physical[D], physical[A]) then Y else X;
      assert Misfits(w, physical, a);
      MisfitBreaksExclusive(w, physical, a);
    }
  }

  lemma RebuildMode(w: World, physical: Bools4, target: TargetIdentity, env: Env)
    ensures RebuildState(w, physical, target, env).mode == w.mode
  {
    hide ReconcileLogical, Flush;
  }

  lemma ExclFollows(w: World)
    requires Excl(w)
    ensures ExclusiveFrom(w)
  {
    hide Exclusive;
    forall w' | Path(w, w', true) ensures Exclusive(w'.b.log) {
      var actions :| Leads(w, actions, true, w');
      StrictExcl(w, actions);
    }
  }

  // ---- Stuck keys ----

  /** An outside world without a foreground target. */
  function Nowhere(): Env {
    var f := Focus(NO_TARGET, NO_TARGET, NO_TARGET);
    Env(0, f, f, false, 0, 0, false, false, false, (i: nat) => I.Dispatch(f, (j: nat) => false))
  }

  /** An obliging world that asks for a brake with an overlap against the released key, admits the overlap's timer
      and then refuses the brake's. */
  function HalfAdmitted(): Env {
    Obliging(SOME_TARGET).(reversed := true, brakeUs := 100000, overlapUs := 1000, admitCounter := false)
  }

  lemma FlushNowhere(b: I.Boundary, e: Event, target: TargetIdentity)
    requires e.down
    ensures Flush(b, More(Empty, e), target, Nowhere().sends) == b
  {
    FlushOne(b, e, target, Nowhere().sends);
  }

  /** After the winner's release: its brake still holds it, the other key is down but could not be pressed. */
  ghost predicate Held(w: World, k: Key, id: nat) {
    && w.mode != OFF && w.t.nextId > 0 && w.s.Key(k).expectedTimerId == id != 0 && w.b.held[k] && !w.b.pending[k]
    && !w.s.Key(k).phys && w.s.Key(k).logical && w.s.At(KeyAxis(k)).socdReleaseTimerId == 0
  }

  lemma WinnerReleased(w: World, a: Axis, k: Key, id: nat)
    requires Primed(w, a, k, id)
    ensures var w' := HandleKeyUp(w, k, true, SOME_TARGET, Nowhere());
            && Held(w', k, id) && w'.t == w.t && w'.s.suspended == w.s.suspended
            && w'.s.Key(Opposite(k)).phys && !w'.s.Key(Opposite(k)).logical
  {
    hide Flush, Safety.Reachable;
    WinnerWanted(w, a, k, id);
    var side := SideOf(k);
    var tracked := TrackRelease(w.s.At(a), w.t, a, side);
    assert tracked == Work(SetPhys(w.s.At(a), side, false), w.t, Empty);
    var wk := RouteRelease(tracked, w.mode, a, side, w.s.suspended, SOME_TARGET, Nowhere());
    assert wk.batch == More(Empty, Event(Opposite(k), true)) && wk.t == w.t;
    FlushNowhere(w.b, Event(Opposite(k), true), SOME_TARGET);
  }

  /** The overlap's timer replaces the brake's, is cancelled with the refused brake, and nothing releases the key. */
  lemma OtherReleased(w: World, k: Key, id: nat)
    requires Held(w, k, id) && w.s.Key(Opposite(k)).phys && !w.s.Key(Opposite(k)).logical && !w.s.suspended
    ensures var w' := HandleKeyUp(w, Opposite(k), true, SOME_TARGET, HalfAdmitted());
            && w'.b == w.b && w'.s.Key(k).expectedTimerId == id && !w'.s.Key(k).phys
            && !w'.t.slots[k].active && w'.t.queue == w.t.queue && w'.t.inFlight == w.t.inFlight
  {
    var a, side, env := KeyAxis(k), SideOf(Opposite(k)), HalfAdmitted();
    var tracked := TrackRelease(w.s.At(a), w.t, a, side);
    assert tracked == Work(SetPhys(w.s.At(a), side, false), w.t, Empty);
    assert AdmitBrake(tracked, a, Flip(side), env).Refused?;
    assert AutoCounterStrafe(tracked, a, side, false, SOME_TARGET, env) ==
           (false, tracked.(t := AdmitBrake(tracked, a, Flip(side), env).t));
  }

  lemma MisfitSticks(w: World, physical: Bools4, a: Axis)
    requires Inv(w) && w.mode != OFF && Misfits(w, physical, a)
    requires !T.OnItsWay(w.t, Winner(w, a), w.s.Key(Winner(w, a)).expectedTimerId)
    ensures !NeverStuckFrom(RebuildState(w, physical, SOME_TARGET, Obliging(SOME_TARGET)))
  {
    hide RebuildState, Misfits, Wished, Path, HandleKeyUp, Primed, ToggleSuspend;
    var env, k := Obliging(SOME_TARGET), Winner(w, a);
    var w1, id := RebuildState(w, physical, SOME_TARGET, env), w.s.Key(k).expectedTimerId;
    RebuiltLingers(w, physical, a, SOME_TARGET, env);
    PathSelf(w1, false);
    var w2 := w1;
    if w1.s.suspended {
      ResumedLingers(w1, a, k, id);
      PathStep(w1, w1, Action(Suspend, SOME_TARGET, env), false);
      w2 := Apply(w1, Action(Suspend, SOME_TARGET, env));
    }
    var w3 := PrimedFollows(w1, w2, a, k, id, false);
    WinnerReleased(w3, a, k, id);
    PathStep(w1, w3, Action(KeyUp(k, true), SOME_TARGET, Nowhere()), false);
    var w4 := Apply(w3, Action(KeyUp(k, true), SOME_TARGET, Nowhere()));
    OtherReleased(w4, k, id);
    PathStep(w1, w4, Action(KeyUp(Opposite(k), true), SOME_TARGET, HalfAdmitted()), false);
    var w5 := Apply(w4, Action(KeyUp(Opposite(k), true), SOME_TARGET, HalfAdmitted()));
    assert !NotStuck(w5, k);
  }

  lemma ResumedLingers(w: World, a: Axis, k: Key, id: nat)
    requires Lingers(w, a, k, id) && Wished(w) && w.s.suspended
    ensures var w' := ToggleSuspend(w, SOME_TARGET, Obliging(SOME_TARGET));
            && Lingers(w', a, k, id) && Wished(w') && w'.t == w.t && w'.mode == w.mode && !w'.s.suspended
  {
    hide Safety.Reachable;
    assert Commit(w.s.(suspended := false), w.b) == w.s.(suspended := false);
  }

  // ---- With the cleaner off ----

  /** A held key that nothing accounts for and that is no longer shown down is stuck at once. */
  lemma OffMisfitSticks(w: World, physical: Bools4, a: Axis, target: TargetIdentity, env: Env) returns (k: Key)
    requires Inv(w) && w.mode == OFF && Misfits(w, physical, a)
    ensures !NotStuck(RebuildState(w, physical, target, env), k)
    ensures var w' := RebuildState(w, physical, target, env);
            && KeyAxis(k) == a && w'.b.held[k] && w'.s.Key(k).logical && w'.s.Key(k).expectedTimerId == 0
            && !w'.s.Key(k).phys && !w'.s.Key(Opposite(k)).phys
  {
    hide ResolveAxis, T.Live, TimersOk;
    k := KeyOf(a, if Accounted(w.s.At(a), w.b, a, Pos) then Neg else Pos);
    assert !Accounted(w.s.At(a), w.b, a, SideOf(k)) && !physical[k] && !physical[Opposite(k)];
    assert w.s.x.socdReleaseTimerId == 0 && w.s.y.socdReleaseTimerId == 0;
    var w0 := OffStart(w, physical, target, env);
    B.OffBothSpare(w0, k, target, env);
    OffBothPhys(w0, k, target, env);
    B.FlushSpares(w, ReconcileLogical(WorkAll(Observe(w.s, physical), w.t, Empty), OFF, w.b, target, env), k, target,
                  env);
  }

  lemma OffBothPhys(w: WorkAll, k: Key, target: TargetIdentity, env: Env)
    ensures var w1 := w.With(X, ResolveAxis(w.At(X), OFF, X, false, target, env));
            var w2 := w1.With(Y, ResolveAxis(w1.At(Y), OFF, Y, false, target, env));
            w2.s.Key(k).phys == w.s.Key(k).phys
  {
    hide ResolveAxis;
    P.ResolvePair(w.At(X), OFF, X, false, target, env);
    var w1 := w.With(X, ResolveAxis(w.At(X), OFF, X, false, target, env));
    P.ResolvePair(w1.At(Y), OFF, Y, false, target, env);
  }

  /** An axis that loses a key: it misfits, and the awaited expiry has not left its slot. */
  lemma LosingMisfits(w: World, physical: Bools4) returns (a: Axis)
    requires !Survives(w, physical)
    ensures Misfits(w, physical, a)
    ensures w.mode != OFF ==> !T.OnItsWay(w.t, Winner(w, a), w.s.Key(Winner(w, a)).expectedTimerId)
  {
    hide FitsAxis, T.OnItsWay;
    a := if SurvivesAxis(w.s.x, w.mode, w.t, w.b, X, physical[D], physical[A]) then Y else X;
  }

  /** Main result: in every mode no disciplined run after a rebuild leaves a key stuck exactly when every axis survives
      the shown keys. */
  lemma RebuildNeverStuckIff(w: World, physical: Bools4)
    requires Inv(w)
    ensures (forall target, env :: NeverStuckFrom(RebuildState(w, physical, target, env))) <==> Survives(w, physical)
  {
    hide RebuildState, Survives, Misfits, Path, NotStuck;
    if Survives(w, physical) {
      forall target, env ensures NeverStuckFrom(RebuildState(w, physical, target, env)) {
        RebuildKeeps(w, physical, target, env);
        InvFollows(RebuildState(w, physical, target, env));
      }
    } else {
      var a := LosingMisfits(w, physical);
      if w.mode == OFF {
        var w' := RebuildState(w, physical, SOME_TARGET, Obliging(SOME_TARGET));
        var k := OffMisfitSticks(w, physical, a, SOME_TARGET, Obliging(SOME_TARGET));
        PathSelf(w', false);
        assert Path(w', w', false) && !NotStuck(w', k);
      } else {
        MisfitSticks(w, physical, a);
      }
    }
  }

  lemma InvFollows(w: World)
    requires Inv(w)
    ensures NeverStuckFrom(w)
  {
    forall w', k: Key | Path(w, w', false) ensures NotStuck(w', k) {
      var actions :| Leads(w, actions, false, w');
      RunInv(w, actions);
      InvNotStuck(w', k);
    }
  }

  lemma InvWinner(w: World, a: Axis)
    requires Inv(w) && w.s.At(a).Resolved() == Conflict
    ensures WinnerOk(w.s.At(a), w.mode, w.t, a)
  {
    assert RecordOk(w.s.At(a), w.mode, w.t, a);
  }

  /** Main result: the masks that every axis survives are exactly those under which a rebuild keeps the engine's
      invariant. */
  lemma RebuildKeepsIff(w: World, physical: Bools4)
    requires Inv(w)
    ensures (forall target, env :: Inv(RebuildState(w, physical, target, env))) <==> Survives(w, physical)
  {
    hide RebuildState, Survives, Misfits, NotStuck, T.OnItsWay, Inv;
    if Survives(w, physical) {
      forall target, env ensures Inv(RebuildState(w, physical, target, env)) {
        RebuildKeeps(w, physical, target, env);
      }
    } else {
      var a := LosingMisfits(w, physical);
      RebuildLoses(w, physical, a);
    }
  }

  lemma RebuildLoses(w: World, physical: Bools4, a: Axis)
    requires Inv(w) && Misfits(w, physical, a)
    requires w.mode != OFF ==> !T.OnItsWay(w.t, Winner(w, a), w.s.Key(Winner(w, a)).expectedTimerId)
    ensures !Inv(RebuildState(w, physical, SOME_TARGET, Obliging(SOME_TARGET)))
  {
    hide RebuildState, Misfits, NotStuck, Inv;
    var target, env := SOME_TARGET, Obliging(SOME_TARGET);
    var w' := RebuildState(w, physical, target, env);
    if w.mode == OFF {
      var k := OffMisfitSticks(w, physical, a, target, env);
      if Inv(w') { InvNotStuck(w', k); }
    } else {
      RebuiltLingers(w, physical, a, target, env);
      if Inv(w') {
        WinnerWanted(w', a, Winner(w, a), w.s.Key(Winner(w, a)).expectedTimerId);
        InvWinner(w', a);
      }
    }
  }
}
