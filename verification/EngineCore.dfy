/** The engine as the object it is: per-key and per-axis state, a timer service and an injection boundary
    updated in place by the handlers, each proved to compute what module Engine says. */
module EngineCore {
  import opened Keys
  import opened TargetPlatform
  import opened E = Engine
  import I = Injection
  import B = InjectionBoundary
  import TS = TimerService
  import IB = InjectionBatch

  type Nats4 = s: seq<nat> | |s| == 4 witness [0, 0, 0, 0]
  type Targets4 = s: seq<TargetIdentity> | |s| == 4 witness [NO_TARGET, NO_TARGET, NO_TARGET, NO_TARGET]
  type AxisStates2 = s: seq<AxisState> | |s| == 2 witness [None, None]
  type LastKeys2 = s: seq<Key> | |s| == 2 && KeyAxis(s[X]) == X && KeyAxis(s[Y]) == Y witness [D, W]
  type Nats2 = s: seq<nat> | |s| == 2 witness [0, 0]

  class Engine {
    var phys: Bools4
    var logical: Bools4
    var nativeLogical: Bools4
    var expectedTimerId: Nats4
    var expectedTimerTarget: Targets4
    var axisState: AxisStates2
    var socdLastKey: LastKeys2
    var socdReleaseTimerId: Nats2
    var suspended: bool
    var socdMode: SocdMode
    const timers: TS.TimerService
    const injection: B.InjectionBoundary

    ghost const Repr: set<object> := {this} + timers.Repr + injection.Repr

    ghost predicate Valid()
      reads this, timers, injection
    {
      && timers.Valid() && injection.Valid()
      && this !in timers.Repr && this !in injection.Repr && timers.Repr !! injection.Repr
    }

    ghost function KeyAt(k: Key): KeyState
      reads this
    {
      KeyState(phys[k], logical[k], nativeLogical[k], expectedTimerId[k], expectedTimerTarget[k])
    }

    ghost function AxisAt(a: Axis): AxisRecord
      reads this
    {
      AxisRecord(KeyAt(KeyOf(a, Pos)), KeyAt(KeyOf(a, Neg)), axisState[a], SideOf(socdLastKey[a]),
          socdReleaseTimerId[a])
    }

    // Field reads, for methods that treat the record of an axis as a whole.

    function IsDown(a: Axis, side: Side): (r: bool)
      reads this
      ensures r == AxisAt(a).Key(side).phys
    { phys[KeyOf(a, side)] }

    function IsBraking(a: Axis, side: Side): (r: bool)
      reads this
      ensures r == E.BrakePending(AxisAt(a), side)
    { logical[KeyOf(a, side)] && expectedTimerId[KeyOf(a, side)] != 0 }

    function IsReleasingSocd(a: Axis, side: Side): (r: bool)
      reads this
      ensures r == (AxisAt(a).socdReleaseTimerId == AxisAt(a).Key(side).expectedTimerId)
    { socdReleaseTimerId[a] == expectedTimerId[KeyOf(a, side)] }

    function IsLogical(a: Axis, side: Side): (r: bool)
      reads this
      ensures r == AxisAt(a).Key(side).logical
    { logical[KeyOf(a, side)] }

    function LastSide(a: Axis): (r: Side)
      reads this
      ensures r == AxisAt(a).socdLastKey
    { SideOf(socdLastKey[a]) }

    function ReleaseTimerOf(a: Axis): (r: nat)
      reads this
      ensures r == AxisAt(a).socdReleaseTimerId
    { socdReleaseTimerId[a] }

    function StateOf(a: Axis): (r: AxisState)
      reads this
      ensures r == AxisAt(a).axisState
    { axisState[a] }

    ghost function Abs(): State
      reads this
    {
      State(AxisAt(X), AxisAt(Y), suspended)
    }

    ghost function Abstract(): World
      reads Repr
      requires Valid()
    {
      World(Abs(), socdMode, timers.State(), injection.State())
    }

    /** One axis, the timers and the batch in the middle of a handler. */
    ghost function WorkOn(batch: IB.InjectionBatch, a: Axis): Work
      reads Repr, batch.Repr
      requires Valid() && batch.Valid()
    {
      Work(AxisAt(a), timers.State(), batch.Contents())
    }

    /** The batch is the handler's own and takes at least `room` more edges. */
    ghost predicate Ready(batch: IB.InjectionBatch, room: nat)
      reads this, timers, injection, batch
    {
      Valid() && batch.Valid() && batch.Repr !! Repr && batch.count + room <= IB.CAPACITY
    }

    constructor (timers: TS.TimerService, injection: B.InjectionBoundary)
      requires timers.Valid() && injection.Valid() && timers.Repr !! injection.Repr
      ensures Valid() && fresh(Repr - timers.Repr - injection.Repr)
      ensures this.timers == timers && this.injection == injection
      ensures Abstract() == World(RESET, FULL, timers.State(), injection.State())
    {
      phys, logical, nativeLogical := NO_KEYS, NO_KEYS, NO_KEYS;
      expectedTimerId, expectedTimerTarget := [0, 0, 0, 0], [NO_TARGET, NO_TARGET, NO_TARGET, NO_TARGET];
      axisState, socdLastKey, socdReleaseTimerId := [None, None], [D, W], [0, 0];
      suspended, socdMode := false, FULL;
      this.timers, this.injection := timers, injection;
    }

    // ---- Single updates ----

    /** Push an edge and record it. */
    method PushLogical(batch: IB.InjectionBatch, a: Axis, side: Side, down: bool)
      requires Ready(batch, 1)
      modifies this`logical, batch.Repr
      ensures Ready(batch, 0) && batch.count == old(batch.count) + 1
      ensures WorkOn(batch, a) == E.Emit(old(WorkOn(batch, a)), a, side, down)
      ensures AxisAt(OtherAxis(a)) == old(AxisAt(OtherAxis(a)))
    {
      batch.Push(KeyOf(a, side), down);
      logical := logical[KeyOf(a, side) := down];
    }

    method Press(batch: IB.InjectionBatch, a: Axis, side: Side)
      requires Ready(batch, 1)
      modifies this`logical, batch.Repr
      ensures Ready(batch, 0) && batch.count <= old(batch.count) + 1
      ensures WorkOn(batch, a) == E.Press(old(WorkOn(batch, a)), a, side)
      ensures AxisAt(OtherAxis(a)) == old(AxisAt(OtherAxis(a)))
    {
      if !logical[KeyOf(a, side)] { PushLogical(batch, a, side, true); }
    }

    method Release(batch: IB.InjectionBatch, a: Axis, side: Side)
      requires Ready(batch, 1)
      modifies this`logical, batch.Repr
      ensures Ready(batch, 0) && batch.count <= old(batch.count) + 1
      ensures WorkOn(batch, a) == E.Release(old(WorkOn(batch, a)), a, side)
      ensures AxisAt(OtherAxis(a)) == old(AxisAt(OtherAxis(a)))
    {
      if logical[KeyOf(a, side)] { PushLogical(batch, a, side, false); }
    }

    method SetTimer(batch: IB.InjectionBatch, a: Axis, side: Side, id: nat)
      requires Ready(batch, 0)
      modifies this`expectedTimerId
      ensures Ready(batch, 0)
      ensures WorkOn(batch, a) == E.SetTimer(old(WorkOn(batch, a)), side, id)
      ensures AxisAt(OtherAxis(a)) == old(AxisAt(OtherAxis(a)))
    {
      expectedTimerId := expectedTimerId[KeyOf(a, side) := id];
    }

    method SetTimerFor(batch: IB.InjectionBatch, a: Axis, side: Side, id: nat, target: TargetIdentity)
      requires Ready(batch, 0)
      modifies this`expectedTimerId, this`expectedTimerTarget
      ensures Ready(batch, 0)
      ensures WorkOn(batch, a) == E.SetTimerFor(old(WorkOn(batch, a)), side, id, target)
      ensures AxisAt(OtherAxis(a)) == old(AxisAt(OtherAxis(a)))
    {
      expectedTimerId := expectedTimerId[KeyOf(a, side) := id];
      expectedTimerTarget := expectedTimerTarget[KeyOf(a, side) := target];
    }

    method SetReleaseTimer(batch: IB.InjectionBatch, a: Axis, id: nat)
      requires Ready(batch, 0)
      modifies this`socdReleaseTimerId
      ensures Ready(batch, 0)
      ensures WorkOn(batch, a) == old(WorkOn(batch, a)).(r := old(AxisAt(a)).(socdReleaseTimerId := id))
      ensures AxisAt(OtherAxis(a)) == old(AxisAt(OtherAxis(a)))
    {
      socdReleaseTimerId := socdReleaseTimerId[a := id];
    }

    method SetAxisState(batch: IB.InjectionBatch, a: Axis, next: AxisState)
      requires Ready(batch, 0)
      modifies this`axisState
      ensures Ready(batch, 0)
      ensures WorkOn(batch, a) == old(WorkOn(batch, a)).(r := old(AxisAt(a)).(axisState := next))
      ensures AxisAt(OtherAxis(a)) == old(AxisAt(OtherAxis(a)))
    {
      axisState := axisState[a := next];
    }

    method Disarm(batch: IB.InjectionBatch, a: Axis, side: Side)
      requires Ready(batch, 0)
      modifies this`expectedTimerId, timers.Repr
      ensures Ready(batch, 0)
      ensures WorkOn(batch, a) == E.Disarm(old(WorkOn(batch, a)), a, side)
      ensures AxisAt(OtherAxis(a)) == old(AxisAt(OtherAxis(a)))
    {
      timers.CancelTimer(KeyOf(a, side));
      SetTimer(batch, a, side, 0);
    }

    method DisarmAndForget(batch: IB.InjectionBatch, a: Axis, side: Side)
      requires Ready(batch, 0)
      modifies this`expectedTimerId, this`expectedTimerTarget, timers.Repr
      ensures Ready(batch, 0)
      ensures WorkOn(batch, a) == E.DisarmAndForget(old(WorkOn(batch, a)), a, side)
      ensures AxisAt(OtherAxis(a)) == old(AxisAt(OtherAxis(a)))
    {
      timers.CancelTimer(KeyOf(a, side));
      SetTimerFor(batch, a, side, 0, NO_TARGET);
    }

    // ---- Axis resolution ----

    method CancelSocdTransition(batch: IB.InjectionBatch, a: Axis)
      requires Ready(batch, 0)
      modifies this`expectedTimerId, this`expectedTimerTarget, this`socdReleaseTimerId, timers.Repr
      ensures Ready(batch, 0)
      ensures WorkOn(batch, a) == E.CancelSocdTransition(old(WorkOn(batch, a)), a)
      ensures AxisAt(OtherAxis(a)) == old(AxisAt(OtherAxis(a)))
    {
      hide AxisAt, ReleaseTimerOf, IsReleasingSocd;
      if ReleaseTimerOf(a) == 0 { return; }
      if IsReleasingSocd(a, Pos) { DisarmAndForget(batch, a, Pos); }
      if IsReleasingSocd(a, Neg) { DisarmAndForget(batch, a, Neg); }
      SetReleaseTimer(batch, a, 0);
    }

    method CancelStaleCounterStrafe(batch: IB.InjectionBatch, a: Axis, opp: Side)
      requires Ready(batch, 1)
      modifies this`expectedTimerId, this`logical, timers.Repr, batch.Repr
      ensures Ready(batch, 0) && batch.count <= old(batch.count) + 1
      ensures WorkOn(batch, a) == E.CancelStaleCounterStrafe(old(WorkOn(batch, a)), a, opp)
      ensures AxisAt(OtherAxis(a)) == old(AxisAt(OtherAxis(a)))
    {
      Disarm(batch, a, opp);
      if !phys[KeyOf(a, opp)] { Release(batch, a, opp); }
    }

    /** A second press ends every brake of the axis; a humanized one may arm the release of the loser. */
    method EnterOverlap(batch: IB.InjectionBatch, a: Axis, onPress: bool, env: Env)
      requires Ready(batch, 0)
      modifies this`expectedTimerId, this`expectedTimerTarget, this`socdReleaseTimerId, timers.Repr
      ensures Ready(batch, 0)
      ensures WorkOn(batch, a) == E.EnterOverlap(old(WorkOn(batch, a)), socdMode, a, onPress, batch.expectedTarget, env)
      ensures AxisAt(OtherAxis(a)) == old(AxisAt(OtherAxis(a)))
    {
      hide AxisAt, LastSide, IsLogical;
      DisarmAndForget(batch, a, Pos);
      DisarmAndForget(batch, a, Neg);
      var loser := Flip(LastSide(a));
      if socdMode == HUMANIZED && onPress && IsLogical(a, loser) {
        var timerId := timers.ScheduleTimerUs(KeyOf(a, loser), SOCD_OVERLAP_US, env.now, env.admitSocd);
        if timerId != 0 {
          SetReleaseTimer(batch, a, timerId);
          SetTimerFor(batch, a, loser, timerId, batch.expectedTarget);
        }
      }
    }

    method EnterConflict(batch: IB.InjectionBatch, a: Axis, onPress: bool, env: Env)
      requires Ready(batch, 2)
      modifies this`expectedTimerId, this`expectedTimerTarget, this`socdReleaseTimerId, this`logical, timers.Repr,
          batch.Repr
      ensures Ready(batch, 0) && batch.count <= old(batch.count) + 2
      ensures WorkOn(batch, a) == E.EnterConflict(old(WorkOn(batch, a)), socdMode, a, onPress, batch.expectedTarget,
              env)
      ensures AxisAt(OtherAxis(a)) == old(AxisAt(OtherAxis(a)))
    {
      hide AxisAt, LastSide, ReleaseTimerOf, E.EnterOverlap;
      var winner := LastSide(a);
      EnterOverlap(batch, a, onPress, env);
      if socdMode == OFF { return; }
      if ReleaseTimerOf(a) == 0 { Release(batch, a, Flip(winner)); }
      Press(batch, a, winner);
    }

    method Hold(batch: IB.InjectionBatch, a: Axis, side: Side)
      requires Ready(batch, 1)
      modifies this`logical, batch.Repr
      ensures Ready(batch, 0) && batch.count <= old(batch.count) + 1
      ensures WorkOn(batch, a) == E.Hold(old(WorkOn(batch, a)), socdMode, a, side)
      ensures AxisAt(OtherAxis(a)) == old(AxisAt(OtherAxis(a)))
    {
      if socdMode == OFF { logical := logical[KeyOf(a, side) := true]; } else { Press(batch, a, side); }
    }

    method ResolveAxis(batch: IB.InjectionBatch, a: Axis, onPress: bool, env: Env)
      requires Ready(batch, 2)
      modifies this`expectedTimerId, this`expectedTimerTarget, this`socdReleaseTimerId, this`logical, this`axisState
      modifies timers.Repr, batch.Repr
      ensures Ready(batch, 0) && batch.count <= old(batch.count) + 2
      ensures WorkOn(batch, a) == E.ResolveAxis(old(WorkOn(batch, a)), socdMode, a, onPress, batch.expectedTarget, env)
      ensures AxisAt(OtherAxis(a)) == old(AxisAt(OtherAxis(a)))
    {
      hide AxisAt, IsDown, StateOf, E.CancelSocdTransition, E.EnterConflict, E.Hold, E.CancelStaleCounterStrafe;
      var posDown, negDown, prevState := IsDown(a, Pos), IsDown(a, Neg), StateOf(a);
      var newState := if posDown && negDown then Conflict else if posDown then Positive
                      else if negDown then Negative else None;
      if newState == prevState && !(onPress && newState == Conflict) { return; }
      CancelSocdTransition(batch, a);
      SetAxisState(batch, a, newState);
      if newState == Conflict {
        EnterConflict(batch, a, onPress, env);
      } else if newState != None {
        var down := if newState == Positive then Pos else Neg;
        if prevState == Conflict { Hold(batch, a, down); } else { CancelStaleCounterStrafe(batch, a, Flip(down)); }
      }
    }

    // ---- Automatic counter-strafe ----

    method ArmBrake(batch: IB.InjectionBatch, a: Axis, rel: Side, overlapTimerId: nat, counterTimerId: nat)
      requires Ready(batch, 2)
      modifies this`expectedTimerId, this`expectedTimerTarget, this`logical, batch.Repr
      ensures Ready(batch, 0) && batch.count <= old(batch.count) + 2
      ensures WorkOn(batch, a) == E.ArmBrake(old(WorkOn(batch, a)), a, rel, overlapTimerId, counterTimerId,
              batch.expectedTarget)
      ensures AxisAt(OtherAxis(a)) == old(AxisAt(OtherAxis(a)))
    {
      if overlapTimerId == 0 {
        SetTimer(batch, a, rel, 0);
        Release(batch, a, rel);
      } else {
        SetTimerFor(batch, a, rel, overlapTimerId, batch.expectedTarget);
      }
      Press(batch, a, Flip(rel));
      SetTimerFor(batch, a, Flip(rel), counterTimerId, batch.expectedTarget);
    }

    /** Both timers of a brake, or neither. */
    method AdmitBrake(batch: IB.InjectionBatch, a: Axis, rel: Side, env: Env) returns (admitted: bool,
          overlapTimerId: nat, counterTimerId: nat)
      requires Ready(batch, 0)
      modifies timers.Repr
      ensures Ready(batch, 0)
      ensures AxisAt(a) == old(AxisAt(a)) && AxisAt(OtherAxis(a)) == old(AxisAt(OtherAxis(a)))
              && batch.Contents() == old(batch.Contents())
      ensures E.AdmitBrake(old(WorkOn(batch, a)), a, rel, env) ==
              if admitted then Admitted(timers.State(), overlapTimerId, counterTimerId) else Refused(timers.State())
    {
      hide AxisAt, IsLogical, ClampCounterOverlapUs;
      admitted, overlapTimerId, counterTimerId := false, 0, 0;
      var overlapUs := ClampCounterOverlapUs(if IsLogical(a, rel) then env.overlapUs else 0, env.brakeUs);
      if overlapUs > 0 {
        overlapTimerId := timers.ScheduleTimerUs(KeyOf(a, rel), overlapUs, env.now, env.admitOverlap);
        if overlapTimerId == 0 { return; }
      }
      counterTimerId := timers.ScheduleTimerUs(KeyOf(a, Flip(rel)), env.brakeUs, env.now, env.admitCounter);
      if counterTimerId == 0 {
        if overlapTimerId != 0 { timers.CancelTimer(KeyOf(a, rel)); }
      } else {
        admitted := true;
      }
    }

    method AutoCounterStrafe(batch: IB.InjectionBatch, a: Axis, released: Side, env: Env) returns (strafed: bool)
      requires Ready(batch, 2)
      modifies this`expectedTimerId, this`expectedTimerTarget, this`logical, timers.Repr, batch.Repr
      ensures Ready(batch, 0) && batch.count <= old(batch.count) + 2
      ensures (strafed, WorkOn(batch, a)) ==
              E.AutoCounterStrafe(old(WorkOn(batch, a)), a, released, suspended, batch.expectedTarget, env)
      ensures AxisAt(OtherAxis(a)) == old(AxisAt(OtherAxis(a)))
    {
      hide AxisAt, IsDown, E.AdmitBrake, E.ArmBrake;
      if IsDown(a, Pos) || IsDown(a, Neg) || suspended
        || !IsExpectedTargetActive(env.brakeFocus, batch.expectedTarget) {
        return false;
      }
      if env.brakeUs <= 0 { return false; }
      var rel := if env.reversed then Flip(released) else released;
      var admitted, overlapTimerId, counterTimerId := AdmitBrake(batch, a, rel, env);
      if !admitted { return false; }
      ArmBrake(batch, a, rel, overlapTimerId, counterTimerId);
      strafed := true;
    }

    // ---- Commit and native tracking ----

    method CommitLogicalStateFromInjection()
      requires Valid()
      modifies this`logical
      ensures Valid() && Abs() == E.Commit(old(Abs()), injection.State())
    {
      var held := injection.HeldMovement();
      for i := 0 to 4
        invariant forall k: Key :: logical[k] == if k < i then nativeLogical[k] || held[k] else old(logical)[k]
      {
        logical := logical[i := nativeLogical[i] || held[i]];
      }
    }

    method TrackNativeMovement(target: TargetIdentity, env: Env)
      requires Valid()
      modifies this`logical, this`nativeLogical
      ensures Valid() && Abs() == E.TrackNative(old(Abs()), injection.State(), target, env.nativeFocus)
    {
      var active := !suspended && IsExpectedTargetActive(env.nativeFocus, target);
      for i := 0 to 4
        invariant logical == old(logical)
        invariant forall k: Key :: k < i ==> nativeLogical[k] == (active && phys[k])
      {
        nativeLogical := nativeLogical[i := active && phys[i]];
      }
      assert nativeLogical[D] == (active && phys[D]) && nativeLogical[A] == (active && phys[A]);
      assert nativeLogical[W] == (active && phys[W]) && nativeLogical[S] == (active && phys[S]);
      assert AxisAt(X) == TrackAxis(old(AxisAt(X)), active) && AxisAt(Y) == TrackAxis(old(AxisAt(Y)), active);
      CommitLogicalStateFromInjection();
    }

    method FlushAndCommitLogicalState(batch: IB.InjectionBatch, env: Env)
      requires Ready(batch, 0)
      modifies this`logical, injection.Repr
      ensures Valid()
      ensures Abstract() == E.FlushAndCommit(old(Abstract()), old(Abs()), old(timers.State()), old(batch.Contents()),
                                             batch.expectedTarget, env)
    {
      batch.Flush(injection, env.sends);
      CommitLogicalStateFromInjection();
    }

    // ---- Key edges ----

    method TrackIfOff(target: TargetIdentity, env: Env)
      requires Valid()
      modifies this`logical, this`nativeLogical
      ensures Valid() && Abs() == E.TrackIfOff(Abstract(), old(Abs()), target, env)
    {
      if socdMode == OFF { TrackNativeMovement(target, env); }
    }

    /** A commit at the end of the work on axis a. */
    method FinishAxis(batch: IB.InjectionBatch, a: Axis, env: Env)
      requires Ready(batch, 0)
      modifies this`logical, injection.Repr
      ensures Valid()
      ensures Abstract() == E.FinishAxis(old(Abstract()), old(Abs()), a, old(WorkOn(batch, a)), batch.expectedTarget,
              env)
    {
      assert Abs().With(a, AxisAt(a)) == Abs();
      FlushAndCommitLogicalState(batch, env);
    }

    /** The always-tracked part of a press. */
    method TrackPress(batch: IB.InjectionBatch, a: Axis, side: Side)
      requires Ready(batch, 0) && batch.Contents() == Empty
      modifies this`phys, this`socdLastKey, this`expectedTimerId, timers.Repr
      ensures Ready(batch, 0)
      ensures WorkOn(batch, a) == E.TrackPress(old(AxisAt(a)), old(timers.State()), a, side)
      ensures AxisAt(OtherAxis(a)) == old(AxisAt(OtherAxis(a)))
    {
      var k := KeyOf(a, side);
      phys := phys[k := true];
      socdLastKey := socdLastKey[a := k];
      if !(logical[k] && expectedTimerId[k] != 0) { Disarm(batch, a, side); }
    }

    method RoutePress(batch: IB.InjectionBatch, a: Axis, side: Side, env: Env)
      requires Ready(batch, 3)
      modifies this`expectedTimerId, this`expectedTimerTarget, this`socdReleaseTimerId, this`logical, this`axisState
      modifies timers.Repr, batch.Repr
      ensures Ready(batch, 0)
      ensures WorkOn(batch, a) == E.RoutePress(old(WorkOn(batch, a)), socdMode, a, side, batch.expectedTarget, env)
      ensures AxisAt(OtherAxis(a)) == old(AxisAt(OtherAxis(a)))
    {
      hide AxisAt, E.ResolveAxis, E.Hold;
      ResolveAxis(batch, a, true, env);
      if StateOf(a) != Conflict { Hold(batch, a, side); }
    }

    method HandleKeyDown(k: Key, routeSemantic: bool, target: TargetIdentity, env: Env)
      requires Valid()
      modifies Repr
      ensures Valid() && Abstract() == E.HandleKeyDown(old(Abstract()), k, routeSemantic, target, env)
    {
      hide AxisAt, IsDown, E.RoutePress, E.Commit, E.Flush, E.TrackPress, E.TrackNative;
      var batch := new IB.InjectionBatch(target);
      if IsDown(KeyAxis(k), SideOf(k)) { return; }
      var a, side := KeyAxis(k), SideOf(k);
      TrackPress(batch, a, side);
      TrackIfOff(target, env);
      if !routeSemantic { return; }
      RoutePress(batch, a, side, env);
      FinishAxis(batch, a, env);
    }

    /** The always-tracked part of a release. */
    method TrackRelease(batch: IB.InjectionBatch, a: Axis, side: Side)
      requires Ready(batch, 0) && batch.Contents() == Empty
      modifies this`phys, this`expectedTimerId, this`expectedTimerTarget, this`socdReleaseTimerId, timers.Repr
      ensures Ready(batch, 0)
      ensures WorkOn(batch, a) == E.TrackRelease(old(AxisAt(a)), old(timers.State()), a, side)
      ensures AxisAt(OtherAxis(a)) == old(AxisAt(OtherAxis(a)))
    {
      CancelSocdTransition(batch, a);
      phys := phys[KeyOf(a, side) := false];
    }

    method RouteRelease(batch: IB.InjectionBatch, a: Axis, side: Side, env: Env)
      requires Ready(batch, 5)
      modifies this`expectedTimerId, this`expectedTimerTarget, this`socdReleaseTimerId, this`logical, this`axisState
      modifies timers.Repr, batch.Repr
      ensures Ready(batch, 0)
      ensures WorkOn(batch, a) ==
              E.RouteRelease(old(WorkOn(batch, a)), socdMode, a, side, suspended, batch.expectedTarget, env)
      ensures AxisAt(OtherAxis(a)) == old(AxisAt(OtherAxis(a)))
    {
      hide E.AutoCounterStrafe, E.ResolveAxis, E.BrakePending, E.Release, AxisAt, IsDown, IsBraking;
      var macroBrakePending := IsBraking(a, side);
      var strafed := macroBrakePending;
      if !macroBrakePending && !IsDown(a, Flip(side)) { strafed := AutoCounterStrafe(batch, a, side, env); }
      if !strafed { Release(batch, a, side); }
      ResolveAxis(batch, a, false, env);
    }

    method HandleKeyUp(k: Key, routeSemantic: bool, target: TargetIdentity, env: Env)
      requires Valid()
      modifies Repr
      ensures Valid() && Abstract() == E.HandleKeyUp(old(Abstract()), k, routeSemantic, target, env)
    {
      hide AxisAt, IsDown, E.RouteRelease, E.Commit, E.Flush, E.TrackRelease, E.TrackNative, E.ResolveAxis;
      var batch := new IB.InjectionBatch(target);
      var a, side := KeyAxis(k), SideOf(k);
      if !IsDown(a, side) {
        if routeSemantic { ResolveAxis(batch, a, false, env); }
      } else {
        TrackRelease(batch, a, side);
        TrackIfOff(target, env);
        if routeSemantic { RouteRelease(batch, a, side, env); }
      }
      FinishAxis(batch, a, env);
    }

    // ---- Timer expiry ----

    /** The end of a humanized overlap. */
    method ExpireSocd(batch: IB.InjectionBatch, a: Axis, side: Side)
      requires Ready(batch, 1)
      modifies this`socdReleaseTimerId, this`logical, batch.Repr
      ensures Ready(batch, 0)
      ensures WorkOn(batch, a) == E.ExpireSocd(old(WorkOn(batch, a)), socdMode, a, side, suspended)
      ensures AxisAt(OtherAxis(a)) == old(AxisAt(OtherAxis(a)))
    {
      socdReleaseTimerId := socdReleaseTimerId[a := 0];
      if socdMode == HUMANIZED && !suspended && IsDown(a, Pos) && IsDown(a, Neg)
        && SideOf(socdLastKey[a]) == Flip(side) {
        Release(batch, a, side);
      }
    }

    /** The end of a brake or of its overlap. */
    method ExpireBrake(batch: IB.InjectionBatch, a: Axis, side: Side)
      requires Ready(batch, 2)
      modifies this`logical, batch.Repr
      ensures Ready(batch, 0)
      ensures WorkOn(batch, a) == E.ExpireBrake(old(WorkOn(batch, a)), a, side)
      ensures AxisAt(OtherAxis(a)) == old(AxisAt(OtherAxis(a)))
    {
      hide AxisAt, IsDown;
      if IsDown(a, side) { return; }
      Release(batch, a, side);
      if IsDown(a, Flip(side)) { Press(batch, a, Flip(side)); }
    }

    method ExpireTimer(batch: IB.InjectionBatch, a: Axis, side: Side)
      requires Ready(batch, 2)
      modifies this`expectedTimerId, this`expectedTimerTarget, this`socdReleaseTimerId, this`logical, this`axisState,
          batch.Repr
      ensures Ready(batch, 0)
      ensures WorkOn(batch, a) == E.ExpireTimer(old(WorkOn(batch, a)), socdMode, a, side, suspended)
      ensures AxisAt(OtherAxis(a)) == old(AxisAt(OtherAxis(a)))
    {
      hide AxisAt, IsDown, IsReleasingSocd, E.ExpireSocd, E.ExpireBrake;
      var releasingSocd := IsReleasingSocd(a, side);
      SetTimerFor(batch, a, side, 0, NO_TARGET);
      if releasingSocd { ExpireSocd(batch, a, side); } else { ExpireBrake(batch, a, side); }
      // The axis state describes physical conflict, never temporary brake output.
      SetAxisState(batch, a, if IsDown(a, Pos) && IsDown(a, Neg) then Conflict
                             else if IsDown(a, Pos) then Positive else if IsDown(a, Neg) then Negative else None);
    }

    method OnTimerExpired(k: Key, id: nat, env: Env)
      requires Valid()
      modifies Repr
      ensures Valid() && Abstract() == E.OnTimerExpired(old(Abstract()), k, id, env)
    {
      if id == 0 || expectedTimerId[k] != id { return; }
      var batch := new IB.InjectionBatch(expectedTimerTarget[k]);
      ExpireTimer(batch, KeyAxis(k), SideOf(k));
      FinishAxis(batch, KeyAxis(k), env);
    }

    method DrainExpired(env: Env)
      requires Valid()
      modifies Repr
      ensures Valid() && Abstract() == E.DrainExpired(old(Abstract()), env)
    {
      var found, expired := timers.PopExpired();
      if found && expired.key < 4 { OnTimerExpired(expired.key, expired.id, env); }
    }

    // ---- Reconciliation ----

    /** Both axes, the timers and the batch. */
    ghost function All(batch: IB.InjectionBatch): WorkAll
      reads Repr, batch.Repr
      requires Valid() && batch.Valid()
    {
      WorkAll(Abs(), timers.State(), batch.Contents())
    }

    method ReconcileAxis(batch: IB.InjectionBatch, a: Axis)
      requires Ready(batch, 0)
      modifies this`expectedTimerId, this`expectedTimerTarget, this`socdReleaseTimerId, this`axisState, timers.Repr
      ensures Ready(batch, 0)
      ensures WorkOn(batch, a) == E.ReconcileAxis(old(WorkOn(batch, a)), a)
      ensures AxisAt(OtherAxis(a)) == old(AxisAt(OtherAxis(a)))
    {
      hide AxisAt, IsDown, E.CancelSocdTransition;
      var positive, negative := IsDown(a, Pos), IsDown(a, Neg);
      if positive && negative {
        SetAxisState(batch, a, Conflict);
      } else {
        CancelSocdTransition(batch, a);
        SetAxisState(batch, a, if positive then Positive else if negative then Negative else None);
      }
    }

    /** The keys that the physical state and armed brakes call for. */
    method Desired() returns (desired: Bools4)
      ensures forall k: Key :: desired[k] == E.Desired(Abs().At(KeyAxis(k)), SideOf(k))
    {
      desired := phys;
      for a := 0 to 2
        invariant forall k: Key :: desired[k] == if KeyAxis(k) < a then phys[k] && !Suppressed(k) else phys[k]
      {
        if phys[KeyOf(a, Pos)] && phys[KeyOf(a, Neg)] && socdReleaseTimerId[a] == 0 {
          desired := desired[Opposite(socdLastKey[a]) := false];
        }
      }
      for i := 0 to 4
        invariant forall k: Key :: desired[k] == ((phys[k] && !Suppressed(k)) || (k < i && OwnsDeadline(k)))
      {
        if !phys[i] && !phys[Opposite(i)] && logical[i] && expectedTimerId[i] != 0 { desired := desired[i := true]; }
      }
    }

    /** A physical key that loses its conflict and has no overlap left. */
    ghost predicate Suppressed(k: Key)
      reads this
    {
      phys[Opposite(k)] && socdReleaseTimerId[KeyAxis(k)] == 0 && socdLastKey[KeyAxis(k)] == Opposite(k)
    }

    /** An armed brake on an otherwise idle axis. */
    ghost predicate OwnsDeadline(k: Key)
      reads this
    {
      !phys[k] && !phys[Opposite(k)] && logical[k] && expectedTimerId[k] != 0
    }

    method SettleKey(batch: IB.InjectionBatch, a: Axis, side: Side, down: bool, desired: bool)
      requires Ready(batch, 1)
      modifies this`expectedTimerId, this`expectedTimerTarget, this`logical, timers.Repr, batch.Repr
      ensures Ready(batch, 0) && batch.count <= old(batch.count) + 1
      ensures WorkOn(batch, a) == E.SettleKey(old(WorkOn(batch, a)), a, side, down, desired)
      ensures AxisAt(OtherAxis(a)) == old(AxisAt(OtherAxis(a)))
    {
      hide AxisAt, IsLogical, E.DisarmAndForget;
      if desired != down || desired == IsLogical(a, side) { return; }
      if !down { DisarmAndForget(batch, a, side); }
      PushLogical(batch, a, side, down);
    }

    method SettleKeys(batch: IB.InjectionBatch, desired: Bools4, down: bool, ghost s: State)
      requires Ready(batch, 4)
      requires forall k: Key :: desired[k] == E.Desired(s.At(KeyAxis(k)), SideOf(k))
      modifies this`expectedTimerId, this`expectedTimerTarget, this`logical, timers.Repr, batch.Repr
      ensures Ready(batch, 0) && batch.count <= old(batch.count) + 4
      ensures All(batch) == E.SettleKeys(old(All(batch)), s, down, 4)
    {
      hide AxisAt, E.SettleKey, E.Desired;
      for i := 0 to 4
        invariant Ready(batch, 4 - i) && batch.count <= old(batch.count) + i
        invariant All(batch) == E.SettleKeys(old(All(batch)), s, down, i)
      {
        SettleKey(batch, KeyAxis(i), SideOf(i), down, desired[i]);
      }
    }

    /** Reconciliation with the cleaner off: only native edges and stale brakes matter. */
    method ReconcileNative(batch: IB.InjectionBatch, env: Env)
      requires Ready(batch, 4) && socdMode == OFF
      modifies this, timers.Repr, batch.Repr
      ensures Ready(batch, 0) && socdMode == OFF
      ensures All(batch) == E.ReconcileLogical(old(All(batch)), OFF, injection.State(), batch.expectedTarget, env)
    {
      hide AxisAt, E.ResolveAxis, E.TrackNative;
      TrackNativeMovement(batch.expectedTarget, env);
      SetAxisState(batch, X, None);
      SetAxisState(batch, Y, None);
      ghost var w := All(batch);
      ResolveAxis(batch, X, false, env);
      assert All(batch) == w.With(X, E.ResolveAxis(w.At(X), OFF, X, false, batch.expectedTarget, env));
      ResolveAxis(batch, Y, false, env);
    }

    method ReconcileLogicalStateFromPhysical(batch: IB.InjectionBatch, env: Env)
      requires Ready(batch, 8)
      modifies this, timers.Repr, batch.Repr
      ensures Ready(batch, 0) && socdMode == old(socdMode)
      ensures All(batch) ==
              E.ReconcileLogical(old(All(batch)), socdMode, injection.State(), batch.expectedTarget, env)
    {
      hide AxisAt, E.ResolveAxis, E.TrackNative, E.ReconcileAxis, E.SettleKeys, E.Desired;
      if socdMode == OFF {
        ReconcileNative(batch, env);
      } else {
        ReconcileAxis(batch, X);
        ReconcileAxis(batch, Y);
        var desired := Desired();
        ghost var s := Abs();
        SettleKeys(batch, desired, false, s);
        SettleKeys(batch, desired, true, s);
      }
    }

    method RebuildState(physical: Bools4, target: TargetIdentity, env: Env)
      requires Valid()
      modifies Repr
      ensures Valid() && Abstract() == E.RebuildState(old(Abstract()), physical, target, env)
    {
      var batch := new IB.InjectionBatch(target);
      phys := physical;
      assert Abs() == E.Observe(old(Abs()), physical);
      ReconcileLogicalStateFromPhysical(batch, env);
      FlushAndCommitLogicalState(batch, env);
    }

    method ReleaseAllKeys(batch: IB.InjectionBatch)
      requires Ready(batch, 4)
      modifies this`expectedTimerId, this`expectedTimerTarget, this`logical, timers.Repr, batch.Repr
      ensures Ready(batch, 0)
      ensures All(batch) == E.ReleaseKeys(old(All(batch)), 4)
    {
      hide AxisAt, E.DisarmAndForget, E.Release;
      for i := 0 to 4
        invariant Ready(batch, 4 - i)
        invariant All(batch) == E.ReleaseKeys(old(All(batch)), i)
      {
        DisarmAndForget(batch, KeyAxis(i), SideOf(i));
        Release(batch, KeyAxis(i), SideOf(i));
      }
    }

    method ForgetAxisStates()
      requires Valid()
      modifies this`axisState, this`nativeLogical
      ensures Abs() == old(Abs()).(x := E.Idled(old(AxisAt(X))), y := E.Idled(old(AxisAt(Y))))
    {
      axisState := [None, None];
      nativeLogical := NO_KEYS;
    }

    method ReconcileInternal(batch: IB.InjectionBatch)
      requires Ready(batch, 4)
      modifies this, timers.Repr, batch.Repr
      ensures Ready(batch, 0) && socdMode == old(socdMode)
      ensures All(batch) == E.ReconcileInternal(old(All(batch)))
    {
      hide AxisAt, E.CancelSocdTransition, E.Idled, E.ReleaseKeys;
      CancelSocdTransition(batch, X);
      CancelSocdTransition(batch, Y);
      ForgetAxisStates();
      ReleaseAllKeys(batch);
    }

    method ClearHeldKeys(target: TargetIdentity, env: Env)
      requires Valid()
      modifies Repr
      ensures Valid() && Abstract() == E.ClearHeldKeys(old(Abstract()), target, env)
    {
      var batch := new IB.InjectionBatch(target);
      ReconcileInternal(batch);
      FlushAndCommitLogicalState(batch, env);
    }

    method ToggleSuspend(target: TargetIdentity, env: Env)
      requires Valid()
      modifies Repr
      ensures Valid() && Abstract() == E.ToggleSuspend(old(Abstract()), target, env)
    {
      var batch := new IB.InjectionBatch(target);
      suspended := !suspended;
      if suspended { ReconcileInternal(batch); }
      FlushAndCommitLogicalState(batch, env);
    }

    method ReconcilePendingOutput(target: TargetIdentity, d: I.Dispatch) returns (released: nat)
      requires Valid()
      modifies Repr
      ensures Valid() && Abstract() == E.ReconcilePendingOutput(old(Abstract()), target, d)
    {
      released := injection.ReconcilePending(target, d);
      CommitLogicalStateFromInjection();
    }

    /** The guard of a SOCD mode change and, when it passes, the change itself. */
    method ChangeMode(mode: SocdMode, ledgerIdle: bool, target: TargetIdentity, env: Env)
      requires Valid()
      modifies Repr
      ensures Valid() && Abstract() == E.ChangeMode(old(Abstract()), mode, ledgerIdle, target, env)
    {
      hide E.ClearHeldKeys, IsBraking;
      if !ledgerIdle || phys[W] || phys[S] || phys[A] || phys[D] { return; }
      ClearHeldKeys(target, env);
      var held := injection.HeldMovement();
      var pending := injection.PendingReleaseCount();
      if true in held || pending != 0 { return; }
      socdMode := mode;
    }
  }
}
