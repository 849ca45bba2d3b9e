/** What the key handlers of the engine compute, stated one axis at a time.
    One handler runs at a time; everything the outside world decides while it runs (clock, foreground
    checks, estimated velocity sign and brake duration, timer admissions, backend answers) is in its `Env`. */
module Engine {
  import opened Keys
  import opened TargetPlatform
  import I = Injection
  import T = Timers

  datatype SocdMode = FULL | HUMANIZED | OFF
  datatype AxisState = None | Positive | Negative | Conflict

  const SOCD_OVERLAP_US := 8000

  datatype KeyState = KeyState(
    phys: bool, logical: bool, nativeLogical: bool, expectedTimerId: nat, expectedTimerTarget: TargetIdentity)

  datatype AxisRecord = AxisRecord(
    pos: KeyState, neg: KeyState, axisState: AxisState, socdLastKey: Side, socdReleaseTimerId: nat)
  {
    function Key(side: Side): KeyState {
      if side == Pos then pos else neg
    }

    function With(side: Side, k: KeyState): AxisRecord {
      if side == Pos then this.(pos := k) else this.(neg := k)
    }

    /** The state that the physical keys call for. */
    function Resolved(): AxisState {
      if pos.phys && neg.phys then Conflict else if pos.phys then Positive else if neg.phys then Negative else None
    }
  }

  datatype State = State(x: AxisRecord, y: AxisRecord, suspended: bool) {
    function At(a: Axis): AxisRecord {
      if a == X then x else y
    }

    function With(a: Axis, r: AxisRecord): State {
      if a == X then this.(x := r) else this.(y := r)
    }

    function Key(k: Key): KeyState {
      At(KeyAxis(k)).Key(SideOf(k))
    }
  }

  const UP_KEY := KeyState(false, false, false, 0, NO_TARGET)
  const RESET: State := State(AxisRecord(UP_KEY, UP_KEY, None, Pos, 0), AxisRecord(UP_KEY, UP_KEY, None, Pos, 0), false)

  datatype Event = Event(k: Key, down: bool)
  datatype Batch = Empty | More(rest: Batch, event: Event)

  datatype Env = Env(
    now: int,
    nativeFocus: Focus,          // foreground check of the native-movement tracker
    brakeFocus: Focus,           // foreground check of the counter-strafe
    reversed: bool,              // residual velocity points against the released key
    brakeUs: int,                // computed brake duration
    overlapUs: int,              // overlap configured in the active profile
    admitSocd: bool, admitOverlap: bool, admitCounter: bool,
    sends: nat -> I.Dispatch)    // one per event of the batch

  /** One axis, the timers and the batch in the middle of a handler. */
  datatype Work = Work(r: AxisRecord, t: T.Timers, batch: Batch)

  /** Between handlers. */
  datatype World = World(s: State, mode: SocdMode, t: T.Timers, b: I.Boundary)

  const START: World := World(RESET, FULL, T.STARTED, I.IDLE)

  // ---- Batches ----

  function SetLogical(w: Work, side: Side, down: bool): Work {
    w.(r := w.r.With(side, w.r.Key(side).(logical := down)))
  }

  /** Push an edge and record it as the logical state of the key. */
  function Emit(w: Work, a: Axis, side: Side, down: bool): Work {
    SetLogical(w.(batch := More(w.batch, Event(KeyOf(a, side), down))), side, down)
  }

  function Press(w: Work, a: Axis, side: Side): Work {
    if w.r.Key(side).logical then w else Emit(w, a, side, true)
  }

  function Release(w: Work, a: Axis, side: Side): Work {
    if w.r.Key(side).logical then Emit(w, a, side, false) else w
  }

  function Size(batch: Batch): nat {
    match batch
    case Empty => 0
    case More(rest, _) => Size(rest) + 1
  }

  function Send(b: I.Boundary, e: Event, target: TargetIdentity, d: I.Dispatch): I.Boundary {
    if e.down then I.DownForTarget(b, e.k, target, d).0 else I.UpForTarget(b, e.k, target, d).0
  }

  function Flush(b: I.Boundary, batch: Batch, target: TargetIdentity, sends: nat -> I.Dispatch): I.Boundary {
    match batch
    case Empty => b
    case More(rest, e) => Send(Flush(b, rest, target, sends), e, target, sends(Size(rest)))
  }

  function CommitKey(k: KeyState, held: bool): KeyState {
    k.(logical := k.nativeLogical || held)
  }

  function CommitAxis(r: AxisRecord, b: I.Boundary, a: Axis): AxisRecord {
    r.(pos := CommitKey(r.pos, b.held[KeyOf(a, Pos)]), neg := CommitKey(r.neg, b.held[KeyOf(a, Neg)]))
  }

  function Commit(s: State, b: I.Boundary): State {
    s.(x := CommitAxis(s.x, b, X), y := CommitAxis(s.y, b, Y))
  }

  function FlushAndCommit(w: World, s: State, t: T.Timers, batch: Batch, target: TargetIdentity, env: Env): World {
    var b := Flush(w.b, batch, target, env.sends);
    World(Commit(s, b), w.mode, t, b)
  }

  function TrackAxis(r: AxisRecord, active: bool): AxisRecord {
    r.(pos := r.pos.(nativeLogical := active && r.pos.phys), neg := r.neg.(nativeLogical := active && r.neg.phys))
  }

  function TrackNative(s: State, b: I.Boundary, target: TargetIdentity, f: Focus): State {
    var active := !s.suspended && IsExpectedTargetActive(f, target);
    Commit(s.(x := TrackAxis(s.x, active), y := TrackAxis(s.y, active)), b)
  }

  // ---- Timer ownership ----

  function SetTimer(w: Work, side: Side, id: nat): Work {
    w.(r := w.r.With(side, w.r.Key(side).(expectedTimerId := id)))
  }

  function SetTimerFor(w: Work, side: Side, id: nat, target: TargetIdentity): Work {
    w.(r := w.r.With(side, w.r.Key(side).(expectedTimerId := id, expectedTimerTarget := target)))
  }

  function Disarm(w: Work, a: Axis, side: Side): Work {
    SetTimer(w.(t := T.Cancel(w.t, KeyOf(a, side))), side, 0)
  }

  function DisarmAndForget(w: Work, a: Axis, side: Side): Work {
    SetTimerFor(w.(t := T.Cancel(w.t, KeyOf(a, side))), side, 0, NO_TARGET)
  }

  function CancelSocdTransition(w: Work, a: Axis): Work {
    var id := w.r.socdReleaseTimerId;
    if id == 0 then w
    else
      var w1 := if w.r.pos.expectedTimerId == id then DisarmAndForget(w, a, Pos) else w;
      var w2 := if w1.r.neg.expectedTimerId == id then DisarmAndForget(w1, a, Neg) else w1;
      w2.(r := w2.r.(socdReleaseTimerId := 0))
  }

  // ---- Axis resolution ----

  function CancelStaleCounterStrafe(w: Work, a: Axis, opp: Side): Work {
    var w := Disarm(w, a, opp);
    if w.r.Key(opp).phys then w else Release(w, a, opp)
  }

  /** Start of a conflict: no brake timer survives it; a humanized press may arm the loser's release. */
  function EnterOverlap(w: Work, mode: SocdMode, a: Axis, onPress: bool, target: TargetIdentity, env: Env): Work {
    var w := DisarmAndForget(DisarmAndForget(w, a, Pos), a, Neg);
    var loser := Flip(w.r.socdLastKey);
    if mode != HUMANIZED || !onPress || !w.r.Key(loser).logical then w
    else
      var (t, id) := T.Schedule(w.t, KeyOf(a, loser), env.now + SOCD_OVERLAP_US, env.admitSocd);
      if id == 0 then w.(t := t)
      else SetTimerFor(w.(t := t, r := w.r.(socdReleaseTimerId := id)), loser, id, target)
  }

  function EnterConflict(w: Work, mode: SocdMode, a: Axis, onPress: bool, target: TargetIdentity, env: Env): Work {
    var winner := w.r.socdLastKey;
    var w := EnterOverlap(w, mode, a, onPress, target, env);
    if mode == OFF then w
    else Press(if w.r.socdReleaseTimerId != 0 then w else Release(w, a, Flip(winner)), a, winner)
  }

  /** A routed key becomes logical; with SOCD off its native edge already reached the game. */
  function Hold(w: Work, mode: SocdMode, a: Axis, side: Side): Work {
    if mode == OFF then SetLogical(w, side, true) else Press(w, a, side)
  }

  /** The axis takes a new state; a running SOCD transition does not outlive it. */
  function TurnAxis(w: Work, a: Axis, next: AxisState): Work {
    var w := CancelSocdTransition(w, a);
    w.(r := w.r.(axisState := next))
  }

  function ResolveAxis(w: Work, mode: SocdMode, a: Axis, onPress: bool, target: TargetIdentity, env: Env): Work {
    var prev, next := w.r.axisState, w.r.Resolved();
    if next == prev && !(onPress && next == Conflict) then w
    else
      var w := TurnAxis(w, a, next);
      match next
      case Conflict => EnterConflict(w, mode, a, onPress, target, env)
      case None => w
      case _ =>
        var down := if next == Positive then Pos else Neg;
        if prev == Conflict then Hold(w, mode, a, down) else CancelStaleCounterStrafe(w, a, Flip(down))
  }

  // ---- Automatic counter-strafe ----

  function ClampCounterOverlapUs(requestedUs: int, brakeUs: int): int {
    if requestedUs <= 0 || brakeUs <= 100 then 0
    else if requestedUs < brakeUs - 100 then requestedUs else brakeUs - 100
  }

  /** Arm a brake on `counter`; the key `rel` is released now or by its own overlap timer. */
  function ArmBrake(w: Work, a: Axis, rel: Side, overlapId: nat, counterId: nat, target: TargetIdentity): Work {
    var w1 := if overlapId == 0 then Release(SetTimer(w, rel, 0), a, rel) else SetTimerFor(w, rel, overlapId, target);
    SetTimerFor(Press(w1, a, Flip(rel)), Flip(rel), counterId, target)
  }

  /** The timers of a brake: either all that are needed are admitted, or none stays armed. */
  datatype Admission = Refused(t: T.Timers) | Admitted(t: T.Timers, overlapId: nat, counterId: nat)

  function AdmitBrake(w: Work, a: Axis, rel: Side, env: Env): Admission {
    var overlapUs := ClampCounterOverlapUs(if w.r.Key(rel).logical then env.overlapUs else 0, env.brakeUs);
    var (t1, overlapId) := if overlapUs > 0 then T.Schedule(w.t, KeyOf(a, rel), env.now + overlapUs, env.admitOverlap)
                           else (w.t, 0);
    if overlapUs > 0 && overlapId == 0 then Refused(t1)
    else
      var (t2, counterId) := T.Schedule(t1, KeyOf(a, Flip(rel)), env.now + env.brakeUs, env.admitCounter);
      if counterId != 0 then Admitted(t2, overlapId, counterId)
      else Refused(if overlapId != 0 then T.Cancel(t2, KeyOf(a, rel)) else t2)
  }

  function AutoCounterStrafe(w: Work, a: Axis, released: Side, suspended: bool, target: TargetIdentity,
        env: Env): (bool, Work) {
    if w.r.pos.phys || w.r.neg.phys || suspended || !IsExpectedTargetActive(env.brakeFocus, target) || env.brakeUs <= 0
    then (false, w)
    else
      var rel := if env.reversed then Flip(released) else released;
      match AdmitBrake(w, a, rel, env)
      case Refused(t) => (false, w.(t := t))
      case Admitted(t, overlapId, counterId) => (true, ArmBrake(w.(t := t), a, rel, overlapId, counterId, target))
  }

  // ---- Key edges ----

  predicate BrakePending(r: AxisRecord, side: Side) {
    r.Key(side).logical && r.Key(side).expectedTimerId != 0
  }

  function SetPhys(r: AxisRecord, side: Side, down: bool): AxisRecord {
    r.With(side, r.Key(side).(phys := down))
  }

  /** The always-tracked part of a press: the physical edge, its priority, and a stale timer of the key. */
  function TrackPress(r: AxisRecord, t: T.Timers, a: Axis, side: Side): Work {
    var w := Work(SetPhys(r, side, true).(socdLastKey := side), t, Empty);
    if BrakePending(w.r, side) then w else Disarm(w, a, side)
  }

  function TrackRelease(r: AxisRecord, t: T.Timers, a: Axis, side: Side): Work {
    var w := CancelSocdTransition(Work(r, t, Empty), a);
    w.(r := SetPhys(w.r, side, false))
  }

  function TrackIfOff(w: World, s: State, target: TargetIdentity, env: Env): State {
    if w.mode == OFF then TrackNative(s, w.b, target, env.nativeFocus) else s
  }

  function RoutePress(w: Work, mode: SocdMode, a: Axis, side: Side, target: TargetIdentity, env: Env): Work {
    var w := ResolveAxis(w, mode, a, true, target, env);
    if w.r.axisState == Conflict then w else Hold(w, mode, a, side)
  }

  function RouteRelease(w: Work, mode: SocdMode, a: Axis, side: Side, suspended: bool, target: TargetIdentity,
        env: Env): Work {
    var pending := BrakePending(w.r, side);
    var (strafed, w) :=
      if !pending && !w.r.Key(Flip(side)).phys then AutoCounterStrafe(w, a, side, suspended, target, env)
                        else (pending, w);
    ResolveAxis(if strafed then w else Release(w, a, side), mode, a, false, target, env)
  }

  function FinishAxis(w: World, s: State, a: Axis, wk: Work, target: TargetIdentity, env: Env): World {
    FlushAndCommit(w, s.With(a, wk.r), wk.t, wk.batch, target, env)
  }

  function HandleKeyDown(w: World, k: Key, routed: bool, target: TargetIdentity, env: Env): World {
    if w.s.Key(k).phys then w
    else
      var a, side := KeyAxis(k), SideOf(k);
      var tracked := TrackPress(w.s.At(a), w.t, a, side);
      var s := TrackIfOff(w, w.s.With(a, tracked.r), target, env);
      if !routed then w.(s := s, t := tracked.t)
      else FinishAxis(w, s, a, RoutePress(tracked.(r := s.At(a)), w.mode, a, side, target, env), target, env)
  }

  function HandleKeyUp(w: World, k: Key, routed: bool, target: TargetIdentity, env: Env): World {
    var a, side := KeyAxis(k), SideOf(k);
    if !w.s.Key(k).phys then
      var wk := Work(w.s.At(a), w.t, Empty);
      FinishAxis(w, w.s, a, if routed then ResolveAxis(wk, w.mode, a, false, target, env) else wk, target, env)
    else
      var tracked := TrackRelease(w.s.At(a), w.t, a, side);
      var s := TrackIfOff(w, w.s.With(a, tracked.r), target, env);
      var wk := tracked.(r := s.At(a));
      FinishAxis(w, s, a, if routed then RouteRelease(wk, w.mode, a, side, s.suspended, target, env)
          else wk, target, env)
  }

  // ---- Timer expiry ----

  function ExpireSocd(w: Work, mode: SocdMode, a: Axis, side: Side, suspended: bool): Work {
    var w := w.(r := w.r.(socdReleaseTimerId := 0));
    if mode == HUMANIZED && !suspended && w.r.pos.phys && w.r.neg.phys && w.r.socdLastKey == Flip(side)
    then Release(w, a, side) else w
  }

  function ExpireBrake(w: Work, a: Axis, side: Side): Work {
    if w.r.Key(side).phys then w
    else
      var w := Release(w, a, side);
      if w.r.Key(Flip(side)).phys then Press(w, a, Flip(side)) else w
  }

  function ExpireTimer(w: Work, mode: SocdMode, a: Axis, side: Side, suspended: bool): Work {
    var id := w.r.Key(side).expectedTimerId;
    var w := SetTimerFor(w, side, 0, NO_TARGET);
    var w := if w.r.socdReleaseTimerId == id then ExpireSocd(w, mode, a, side, suspended) else ExpireBrake(w, a, side);
    w.(r := w.r.(axisState := w.r.Resolved()))
  }

  function OnTimerExpired(w: World, k: Key, id: nat, env: Env): World {
    if id == 0 || w.s.Key(k).expectedTimerId != id then w
    else
      var a := KeyAxis(k);
      FinishAxis(w, w.s, a, ExpireTimer(Work(w.s.At(a), w.t, Empty), w.mode, a, SideOf(k), w.s.suspended),
                 w.s.Key(k).expectedTimerTarget, env)
  }

  /** One turn of the loop that drains the expiry queue. */
  function DrainExpired(w: World, env: Env): World {
    if w.t.queue == [] then w
    else
      var e := w.t.queue[0];
      var w := w.(t := T.Pop(w.t));
      if e.key < 4 then OnTimerExpired(w, e.key, e.id, env) else w
  }

  // ---- Reconciliation ----

  /** Both axes, the timers and the batch in the middle of a handler. */
  datatype WorkAll = WorkAll(s: State, t: T.Timers, batch: Batch) {
    function At(a: Axis): Work {
      Work(s.At(a), t, batch)
    }

    function With(a: Axis, w: Work): WorkAll {
      WorkAll(s.With(a, w.r), w.t, w.batch)
    }
  }

  /** The axis takes the state its physical keys call for; only a conflict keeps a running SOCD transition. */
  function ReconcileAxis(w: Work, a: Axis): Work {
    var next := w.r.Resolved();
    if next == Conflict then w.(r := w.r.(axisState := Conflict)) else TurnAxis(w, a, next)
  }

  /** Whether reconciliation wants a key down: physical keys except a conflict's suppressed loser, and
      an armed brake on an otherwise idle axis. */
  predicate Desired(r: AxisRecord, side: Side) {
    if r.Key(side).phys then !(r.Key(Flip(side)).phys && r.socdReleaseTimerId == 0 && r.socdLastKey == Flip(side))
    else !r.Key(Flip(side)).phys && BrakePending(r, side)
  }

  function SettleKey(w: Work, a: Axis, side: Side, down: bool, desired: bool): Work {
    if desired != down || desired == w.r.Key(side).logical then w
    else Emit(if down then w else DisarmAndForget(w, a, side), a, side, down)
  }

  /** One pass, releases or presses, over the first n keys; `s` is the state the wishes were computed in. */
  function SettleKeys(w: WorkAll, s: State, down: bool, n: nat): WorkAll
    requires n <= 4
  {
    if n == 0 then w
    else
      var w := SettleKeys(w, s, down, n - 1);
      var a, side := KeyAxis(n - 1), SideOf(n - 1);
      w.With(a, SettleKey(w.At(a), a, side, down, Desired(s.At(a), side)))
  }

  /** Releases first, then presses. */
  function SettleBoth(w: WorkAll): WorkAll {
    SettleKeys(SettleKeys(w, w.s, false, 4), w.s, true, 4)
  }

  function ReconcileLogical(w: WorkAll, mode: SocdMode, b: I.Boundary, target: TargetIdentity, env: Env): WorkAll {
    if mode == OFF then
      var s := TrackNative(w.s, b, target, env.nativeFocus);
      var w := w.(s := s.(x := s.x.(axisState := None), y := s.y.(axisState := None)));
      var w := w.With(X, ResolveAxis(w.At(X), mode, X, false, target, env));
      w.With(Y, ResolveAxis(w.At(Y), mode, Y, false, target, env))
    else
      var w := w.With(X, ReconcileAxis(w.At(X), X));
      var w := w.With(Y, ReconcileAxis(w.At(Y), Y));
      SettleBoth(w)
  }

  function Shown(r: AxisRecord, pos: bool, neg: bool): AxisRecord {
    SetPhys(SetPhys(r, Pos, pos), Neg, neg)
  }

  function Observe(s: State, physical: Bools4): State {
    s.(x := Shown(s.x, physical[D], physical[A]), y := Shown(s.y, physical[W], physical[S]))
  }

  function RebuildState(w: World, physical: Bools4, target: TargetIdentity, env: Env): World {
    var wk := ReconcileLogical(WorkAll(Observe(w.s, physical), w.t, Empty), w.mode, w.b, target, env);
    FlushAndCommit(w, wk.s, wk.t, wk.batch, target, env)
  }

  /** Cleanup of the first n keys: timers cancelled, logical keys released. */
  function ReleaseKeys(w: WorkAll, n: nat): WorkAll
    requires n <= 4
  {
    if n == 0 then w
    else
      var w := ReleaseKeys(w, n - 1);
      var a, side := KeyAxis(n - 1), SideOf(n - 1);
      w.With(a, Release(DisarmAndForget(w.At(a), a, side), a, side))
  }

  function Idled(r: AxisRecord): AxisRecord {
    r.(axisState := None, pos := r.pos.(nativeLogical := false), neg := r.neg.(nativeLogical := false))
  }

  function ReconcileInternal(w: WorkAll): WorkAll {
    var w := w.With(X, CancelSocdTransition(w.At(X), X));
    var w := w.With(Y, CancelSocdTransition(w.At(Y), Y));
    ReleaseKeys(w.(s := w.s.(x := Idled(w.s.x), y := Idled(w.s.y))), 4)
  }

  function ClearHeldKeys(w: World, target: TargetIdentity, env: Env): World {
    var wk := ReconcileInternal(WorkAll(w.s, w.t, Empty));
    FlushAndCommit(w, wk.s, wk.t, wk.batch, target, env)
  }

  function ToggleSuspend(w: World, target: TargetIdentity, env: Env): World {
    var w := w.(s := w.s.(suspended := !w.s.suspended));
    if w.s.suspended then ClearHeldKeys(w, target, env)
    else FlushAndCommit(w, w.s, w.t, Empty, target, env)
  }

  function ReconcilePendingOutput(w: World, target: TargetIdentity, d: I.Dispatch): World {
    var b := I.ReconcilePending(w.b, target, d).0;
    w.(b := b, s := Commit(w.s, b))
  }

  predicate NoPhysicalKey(s: State) {
    !s.x.pos.phys && !s.x.neg.phys && !s.y.pos.phys && !s.y.neg.phys
  }

  /** The guard of a SOCD mode change once the routed edges are drained; `ledgerIdle` says that the hook
      sees no movement key down. The mode is published only when nothing is held or pending. */
  function ChangeMode(w: World, mode: SocdMode, ledgerIdle: bool, target: TargetIdentity, env: Env): World {
    if !ledgerIdle || !NoPhysicalKey(w.s) then w
    else
      var w := ClearHeldKeys(w, target, env);
      if true in w.b.held[..4] || true in w.b.pending then w else w.(mode := mode)
  }

  // ---- Runs ----

  datatype Step =
    | KeyDown(k: Key, routed: bool)
    | KeyUp(k: Key, routed: bool)
    | Expire
    | Rebuild(physical: Bools4)
    | Clear
    | Suspend
    | SetMode(mode: SocdMode, ledgerIdle: bool)
    | ReconcileOutput
    | Space(down: bool)
    | PickTimer
    | FireTimer
    | EnqueueTimer

  datatype Action = Action(step: Step, target: TargetIdentity, env: Env)

  function Apply(w: World, action: Action): World {
    var Action(step, target, env) := action;
    match step
    case KeyDown(k, routed) => HandleKeyDown(w, k, routed, target, env)
    case KeyUp(k, routed) => HandleKeyUp(w, k, routed, target, env)
    case Expire => DrainExpired(w, env)
    case Rebuild(physical) => RebuildState(w, physical, target, env)
    case Clear => ClearHeldKeys(w, target, env)
    case Suspend => ToggleSuspend(w, target, env)
    case SetMode(mode, ledgerIdle) => ChangeMode(w, mode, ledgerIdle, target, env)
    case ReconcileOutput => ReconcilePendingOutput(w, target, env.sends(0))
    case Space(down) => w.(b := I.Apply(w.b, if down then I.SpaceDown else I.SpaceUp, target, env.sends(0)))
    case PickTimer => w.(t := T.Pick(w.t))
    case FireTimer => w.(t := T.Fire(w.t, env.now))
    case EnqueueTimer => w.(t := T.Enqueue(w.t))
  }

  function Run(w: World, actions: seq<Action>): World {
    if actions == [] then w
    else Apply(Run(w, actions[..|actions| - 1]), actions[|actions| - 1])
  }
}
