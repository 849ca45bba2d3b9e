/** Who owns a held Space: the bhop worker's own flag, the request queue and the injection boundary together.
    The worker submits one request at a time and looks at its result before it submits the next. */
module SpaceOwnership {
  import opened TargetPlatform
  import I = Injection
  import Safety = InjectionSafety
  import Q = BhopQueue

  datatype Option<+T> = None | Some(value: T)

  /** The worker's flag and target, and the request whose result it is waiting for. */
  datatype Worker = Worker(injected: bool, target: TargetIdentity, waiting: Option<nat>)

  datatype World = World(q: Q.Queue, b: I.Boundary, w: Worker)

  const START: World := World(Q.STOPPED, I.IDLE, Worker(false, NO_TARGET, None))

  datatype Step =
    | WorkerSubmit(kind: Q.Kind, target: TargetIdentity)
    | WorkerReturn
    | Execute(dispatch: I.Dispatch, wheel: nat)
    | Protocol(step: Q.Step)
    | Other(call: I.Call, target: TargetIdentity, dispatch: I.Dispatch)
    | Shutdown(dispatch: I.Dispatch)

  /** The executor: Space requests go to the boundary, wheel requests do not concern it. */
  function Executed(b: I.Boundary, kind: Q.Kind, target: TargetIdentity, d: I.Dispatch, wheel: nat): (I.Boundary, nat) {
    match kind
    case SpaceDown => I.DownForTarget(b, I.SPACE_SLOT, target, d)
    case SpaceUp => I.UpForTarget(b, I.SPACE_SLOT, target, d)
    case WheelDown => (b, wheel)
  }

  /** A Space press is only requested while the flag is clear, a release only while it is set. */
  predicate Requests(w: Worker, kind: Q.Kind) {
    w.waiting == None && (kind == Q.SpaceDown ==> !w.injected) && (kind == Q.SpaceUp ==> w.injected)
  }

  /** What the worker makes of the result of its request. */
  function Settled(w: Worker, r: Q.Request): Worker {
    match r.kind
    case SpaceDown =>
      if r.executed && r.result == 1 then Worker(true, r.target, None) else w.(waiting := None)
    case SpaceUp => if r.executed then Worker(false, NO_TARGET, None) else w.(waiting := None)
    case WheelDown => w.(waiting := None)
  }

  function Apply(s: World, step: Step): World {
    match step
    case WorkerSubmit(kind, target) =>
      if !Requests(s.w, kind) then s
      else
        var q := Q.Apply(s.q, Q.Submit(kind, target));
        s.(q := q, w := s.w.(waiting := if Q.Admits(s.q) then Some(|s.q.requests|) else None))
    case WorkerReturn =>
      if s.w.waiting.Some? && s.w.waiting.value < |s.q.requests| && s.q.requests[s.w.waiting.value].done
      then s.(w := Settled(s.w, s.q.requests[s.w.waiting.value])) else s
    case Execute(d, wheel) =>
      if s.q.gate.Executing? && s.q.gate.id < |s.q.requests| then
        var r := s.q.requests[s.q.gate.id];
        var (b, value) := Executed(s.b, r.kind, r.target, d, wheel);
        s.(q := Q.Apply(s.q, Q.Execute(value)), b := b)
      else s
    case Protocol(step) => if step.Submit? || step.Execute? then s else s.(q := Q.Apply(s.q, step))
    case Other(call, target, d) =>
      if call.SpaceDown? || call.SpaceUp? then s else s.(b := I.Apply(s.b, call, target, d))
    case Shutdown(d) =>
      if s.q.gate != Q.Free || s.q.running || s.w.waiting.Some? then s
      else if s.w.injected then s.(b := I.UpForTarget(s.b, I.SPACE_SLOT, s.w.target, d).0,
          w := Worker(false, NO_TARGET, None))
      else s
  }

  function Run(s: World, steps: seq<Step>): World {
    if steps == [] then s else Apply(Run(s, steps[..|steps| - 1]), steps[|steps| - 1])
  }

  // ---- The boundary's side ----

  /** A held Space has its release owed. */
  predicate Owed(b: I.Boundary) {
    b.held[I.SPACE_SLOT] ==> b.pending[I.SPACE_SLOT]
  }

  lemma SlotCallOwed(b: I.Boundary, kind: Q.Kind, target: TargetIdentity, d: I.Dispatch, wheel: nat)
    requires Safety.Reachable(b)
    ensures var (b', value) := Executed(b, kind, target, d, wheel);
            && Safety.Reachable(b')
            && (kind == Q.SpaceUp ==> Owed(b'))
            && (Owed(b) && !(kind == Q.SpaceDown && value == 1) ==> Owed(b'))
  {
    Safety.ReachableSlot(b, I.SPACE_SLOT);
    if kind == Q.SpaceDown { Safety.StaysReachable(b, I.SpaceDown, target, d); }
    if kind == Q.SpaceUp { Safety.StaysReachable(b, I.SpaceUp, target, d); }
  }

  lemma {:induction false} ReleasePendingOwed(b: I.Boundary, slot: nat, target: TargetIdentity, d: I.Dispatch)
    requires slot <= I.SLOT_COUNT && Owed(b)
    ensures Owed(I.ReleasePendingFrom(b, slot, target, d).0)
    decreases I.SLOT_COUNT - slot
  {
    if slot < I.SLOT_COUNT {
      if b.pending[slot] && b.pendingTarget[slot] == target {
        ReleasePendingOwed(I.ReleaseSlot(b, slot, d).0, slot + 1, target, d);
      } else {
        ReleasePendingOwed(b, slot + 1, target, d);
      }
    }
  }

  lemma OtherOwed(b: I.Boundary, call: I.Call, target: TargetIdentity, d: I.Dispatch)
    requires Safety.Reachable(b) && !call.SpaceDown? && !call.SpaceUp?
    ensures Safety.Reachable(I.Apply(b, call, target, d))
    ensures Owed(b) ==> Owed(I.Apply(b, call, target, d))
  {
    Safety.StaysReachable(b, call, target, d);
    if Owed(b) {
      match call
      case Reconcile => ReleasePendingOwed(b, 0, target, d);
      case Shutdown =>
        MarkedOwed(b);
        ReleasePendingOwed(I.Refresh(I.MarkAllHeld(b, I.SLOT_COUNT)), 0, target, d);
      case _ =>
    }
  }

  lemma MarkedOwed(b: I.Boundary)
    requires Safety.Reachable(b)
    ensures Owed(I.Refresh(I.MarkAllHeld(b, I.SLOT_COUNT)))
  {
    var calls :| I.Run(I.IDLE, calls) == b;
    Safety.RunOk(calls);
    Safety.MarkAllHeldOk(b, I.SLOT_COUNT);
  }

  // ---- The invariant ----

  /** What holds of the boundary while the worker waits for request `id`. */
  ghost predicate InFlight(s: World, id: nat)
    requires id < |s.q.requests|
  {
    var r := s.q.requests[id];
    match r.kind
    case SpaceDown =>
      && !s.w.injected
      && (r.done && r.executed ==> r.result == 1 || Owed(s.b))
      && (r.done && !r.executed ==> Owed(s.b))
      && (!r.done ==> if s.q.gate.Completing? && s.q.gate.id == id then s.q.gate.value == 1 || Owed(s.b) else Owed(s.b))
    case SpaceUp =>
      && s.w.injected
      && (r.done && r.executed ==> Owed(s.b))
      && (!r.done && s.q.gate.Completing? && s.q.gate.id == id ==> Owed(s.b))
    case WheelDown => !s.w.injected ==> Owed(s.b)
  }

  /** Only the worker submits, so every request but the one it waits for is done. */
  ghost predicate OthersDone(s: World) {
    forall id :: 0 <= id < |s.q.requests| ==> s.q.requests[id].done || s.w.waiting == Some(id)
  }

  ghost predicate Ok(s: World) {
    && Q.Ok(s.q) && Safety.Reachable(s.b) && OthersDone(s)
    && match s.w.waiting
       case None => !s.w.injected ==> Owed(s.b)
       case Some(id) => id < |s.q.requests| && InFlight(s, id)
  }

  lemma ExecuteOk(s: World, d: I.Dispatch, wheel: nat)
    requires Ok(s)
    ensures Ok(Apply(s, Execute(d, wheel)))
  {
    hide Q.Ok, Executed, Owed;
    if s.q.gate.Executing? && s.q.gate.id < |s.q.requests| {
      var id := s.q.gate.id;
      var r := s.q.requests[id];
      assert !r.done by { TakenNotDone(s.q, id); }
      assert s.w.waiting == Some(id);
      var (b, value) := Executed(s.b, r.kind, r.target, d, wheel);
      SlotCallOwed(s.b, r.kind, r.target, d, wheel);
      Q.StepOk(s.q, Q.Execute(value));
    }
  }

  lemma TakenNotDone(q: Q.Queue, id: nat)
    requires Q.Ok(q) && q.gate.Executing? && q.gate.id == id && id < |q.requests|
    ensures !q.requests[id].done
  {
    assert Q.RequestOk(q, id);
  }

  lemma ProtocolOk(s: World, step: Q.Step)
    requires Ok(s) && !step.Submit? && !step.Execute?
    ensures Ok(s.(q := Q.Apply(s.q, step)))
  {
    hide Q.Ok, Owed;
    Q.StepOk(s.q, step);
    var q' := Q.Apply(s.q, step);
    assert |q'.requests| == |s.q.requests|;
    forall id | 0 <= id < |q'.requests| ensures q'.requests[id].done || s.w.waiting == Some(id) {
      assert s.q.requests[id].done || s.w.waiting == Some(id);
    }
    if s.w.waiting.Some? && s.w.waiting.value < |s.q.requests| { StaysInFlight(s, step, s.w.waiting.value); }
  }

  lemma StaysInFlight(s: World, step: Q.Step, id: nat)
    requires Q.Ok(s.q) && !step.Submit? && !step.Execute? && id < |s.q.requests| && InFlight(s, id)
    ensures InFlight(s.(q := Q.Apply(s.q, step)), id)
  {
    hide Owed;
    assert Q.RequestOk(s.q, id);
  }

  lemma SubmitOk(s: World, kind: Q.Kind, target: TargetIdentity)
    requires Ok(s)
    ensures Ok(Apply(s, WorkerSubmit(kind, target)))
  {
    hide Q.Ok, Owed;
    Q.StepOk(s.q, Q.Submit(kind, target));
    if Requests(s.w, kind) && Q.Admits(s.q) { GateElsewhere(s.q); }
  }

  lemma GateElsewhere(q: Q.Queue)
    requires Q.Ok(q)
    ensures q.gate.Executing? || q.gate.Completing? ==> q.gate.id < |q.requests|
  {
  }

  lemma StepOk(s: World, step: Step)
    requires Ok(s)
    ensures Ok(Apply(s, step))
  {
    hide Q.Ok, Q.Apply;
    match step
    case WorkerSubmit(kind, target) => SubmitOk(s, kind, target);
    case WorkerReturn =>
    case Execute(d, wheel) => ExecuteOk(s, d, wheel);
    case Protocol(p) => if !p.Submit? && !p.Execute? { ProtocolOk(s, p); }
    case Other(call, target, d) => if !call.SpaceDown? && !call.SpaceUp? { OtherOwed(s.b, call, target, d); }
    case Shutdown(d) => SlotCallOwed(s.b, Q.SpaceUp, s.w.target, d, 0);
  }

  lemma {:induction false} RunOk(steps: seq<Step>)
    ensures Ok(Run(START, steps))
  {
    if steps == [] {
      Safety.IdleReachable();
    } else {
      RunOk(steps[..|steps| - 1]);
      StepOk(Run(START, steps[..|steps| - 1]), steps[|steps| - 1]);
    }
  }

  /** Main result: whenever the worker's flag is clear and it waits for no request, a held Space slot has its
      release pending, whatever was cancelled, refused or sent to another target meanwhile. */
  lemma HeldSpaceIsOwed(steps: seq<Step>)
    requires var s := Run(START, steps); !s.w.injected && s.w.waiting == None
    ensures var s := Run(START, steps); s.b.held[I.SPACE_SLOT] ==> s.b.pending[I.SPACE_SLOT]
  {
    RunOk(steps);
  }

  /** Main result: the same holds after shutdown once the queue is stopped and the worker has seen its last
      result, even if stopping cancelled the worker's last release. */
  lemma ShutdownLeavesSpaceOwed(steps: seq<Step>, d: I.Dispatch)
    requires var s := Run(START, steps); s.q.gate == Q.Free && !s.q.running && s.w.waiting == None
    ensures var s := Apply(Run(START, steps), Shutdown(d));
            !s.w.injected && (s.b.held[I.SPACE_SLOT] ==> s.b.pending[I.SPACE_SLOT])
  {
    RunOk(steps);
    StepOk(Run(START, steps), Shutdown(d));
  }
}
