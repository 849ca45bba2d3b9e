/** SOCD refinement over every run that follows the router's own rule: edges are routed except between a
    cleanup or suspension and the next rebuild. */
module SocdRefinement {
  import opened Keys
  import opened TargetPlatform
  import opened Engine
  import opened EngineInvariant
  import opened EngineUnrouted
  import opened EngineReconcile
  import opened EngineRuns
  import opened EngineRefinement
  import opened EngineIdealRuns
  import I = Injection
  import T = Timers
  import Safety = InjectionSafety

  /** Whether the engine was cleared or its suspension toggled after its last rebuild. */
  predicate Cleared(actions: seq<Action>) {
    if actions == [] then false
    else
      match actions[|actions| - 1].step
      case Clear => true
      case Suspend => true
      case Rebuild(_) => false
      case _ => Cleared(actions[..|actions| - 1])
  }

  /** The router's rule for one more step after `before`. The rebuild after a cleanup may show any keys; another one
      keys that the axes can take over. */
  ghost predicate Routed(before: seq<Action>, step: Step) {
    var w := Run(START, before);
    match step
    case KeyDown(_, routed) => routed == !Cleared(before)
    case KeyUp(_, routed) => routed == !Cleared(before)
    case Rebuild(physical) => !w.s.suspended && (Cleared(before) || Fits(w, physical))
    case _ => true
  }

  ghost predicate RoutedRun(actions: seq<Action>) {
    actions == [] ||
    (RoutedRun(actions[..|actions| - 1]) && Routed(actions[..|actions| - 1], actions[|actions| - 1].step))
  }

  ghost predicate IdealRun(actions: seq<Action>, target: TargetIdentity) {
    forall i :: 0 <= i < |actions| ==> IdealAction(actions[i], target)
  }

  /** Between a cleanup and the next rebuild. */
  ghost predicate Waiting(w: World, target: TargetIdentity) {
    Calm(w.b, target) && QuietAxis(w.s.x) && QuietAxis(w.s.y)
  }

  // ---- Steps outside the arbitration ----

  lemma {:induction false} NothingPending(b: I.Boundary, slot: nat, target: TargetIdentity, d: I.Dispatch)
    requires slot <= I.SLOT_COUNT && true !in b.pending
    ensures I.ReleasePendingFrom(b, slot, target, d).0 == b
    decreases I.SLOT_COUNT - slot
  {
    if slot < I.SLOT_COUNT {
      assert b.pending[slot] in b.pending;
      NothingPending(b, slot + 1, target, d);
    }
  }

  lemma ReconcileIdle(b: I.Boundary, target: TargetIdentity, d: I.Dispatch)
    requires Calm(b, target)
    ensures I.ReconcilePending(b, target, d).0 == b
  {
    Safety.ReachableSlot(b, 0);
    NothingPending(b, 0, target, d);
  }

  lemma SpaceCalm(w: World, down: bool, target: TargetIdentity, d: I.Dispatch)
    requires Calm(w.b, target) && Obliges(d, target)
    ensures var b' := I.Apply(w.b, if down then I.SpaceDown else I.SpaceUp, target, d);
            Calm(b', target) && forall k: Key :: b'.held[k] == w.b.held[k]
  {
    SlotCalm(w.b, I.SPACE_SLOT, down, target, d);
    Safety.StaysReachable(w.b, if down then I.SpaceDown else I.SpaceUp, target, d);
  }

  lemma ClearCalm(w: World, target: TargetIdentity, env: Env)
    requires Inv(w) && Calm(w.b, target) && ObligingEnv(env, target)
    ensures var w' := ClearHeldKeys(w, target, env);
            Calm(w'.b, target) && (forall k: Key :: !w'.b.held[k])
  {
    ReconcileInternalOk(w);
    var wk := ReconcileInternal(WorkAll(w.s, w.t, Empty));
    FlushCalm(w.b, wk.batch, target, env.sends);
    assert !Asked(w.b.held[W], wk.batch, W) && !Asked(w.b.held[S], wk.batch, S)
        && !Asked(w.b.held[A], wk.batch, A) && !Asked(w.b.held[D], wk.batch, D);
  }

  /** After a cleanup with no key physically down every axis has its specified shape in any mode. */
  lemma IdleIdeal(r: AxisRecord, b: I.Boundary, a: Axis, mode: SocdMode, mode': SocdMode, t: T.Timers,
        target: TargetIdentity)
    requires AxisOk(r, mode, t, b, a) && QuietAxis(r) && !r.pos.phys && !r.neg.phys
    requires !b.held[KeyOf(a, Pos)] && !b.held[KeyOf(a, Neg)]
    ensures IdealAxis(r, b, a, mode', target)
  {
  }

  lemma ModeIdeal(w: World, mode: SocdMode, ledgerIdle: bool, target: TargetIdentity, env: Env)
    requires Ideal(w, target) && ObligingEnv(env, target)
    ensures var w' := ChangeMode(w, mode, ledgerIdle, target, env); Calm(w'.b, target) && Arbitrated(w', target)
  {
    if ledgerIdle && NoPhysicalKey(w.s) {
      var w1 := ClearHeldKeys(w, target, env);
      ClearKeeps(w, target, env);
      ClearCalm(w, target, env);
      var mode' := ChangeMode(w, mode, ledgerIdle, target, env).mode;
      IdleIdeal(w1.s.x, w1.b, X, w.mode, mode', w1.t, target);
      IdleIdeal(w1.s.y, w1.b, Y, w.mode, mode', w1.t, target);
    }
  }

  lemma SpaceIdeal(w: World, down: bool, target: TargetIdentity, d: I.Dispatch)
    requires Ideal(w, target) && Obliges(d, target)
    ensures var w' := w.(b := I.Apply(w.b, if down then I.SpaceDown else I.SpaceUp, target, d));
            Calm(w'.b, target) && Arbitrated(w', target)
  {
    SpaceCalm(w, down, target, d);
    var b' := I.Apply(w.b, if down then I.SpaceDown else I.SpaceUp, target, d);
    SameHeldIdeal(w.s.x, w.b, b', X, w.mode, target);
    SameHeldIdeal(w.s.y, w.b, b', Y, w.mode, target);
  }

  lemma SameHeldIdeal(r: AxisRecord, b: I.Boundary, b': I.Boundary, a: Axis, mode: SocdMode, target: TargetIdentity)
    requires IdealAxis(r, b, a, mode, target) && forall k: Key :: b'.held[k] == b.held[k]
    ensures IdealAxis(r, b', a, mode, target)
  {
    assert b'.held[KeyOf(a, Pos)] == b.held[KeyOf(a, Pos)] && b'.held[KeyOf(a, Neg)] == b.held[KeyOf(a, Neg)];
  }

  lemma OutputIdeal(w: World, target: TargetIdentity, d: I.Dispatch)
    requires Ideal(w, target)
    ensures ReconcilePendingOutput(w, target, d) == w
  {
    ReconcileIdle(w.b, target, d);
    CommitSame(w.s.x, w.mode, w.t, w.b, X);
    CommitSame(w.s.y, w.mode, w.t, w.b, Y);
  }

  // ---- One step ----

  lemma StepIdeal(w: World, action: Action, target: TargetIdentity)
    requires Ideal(w, target) && IdealAction(action, target)
    requires !action.step.Clear? && !action.step.Suspend?
    requires action.step.KeyDown? || action.step.KeyUp? ==> action.step.routed
    requires action.step.Rebuild? ==> Fits(w, action.step.physical)
    ensures Ideal(Apply(w, action), target)
  {
    hide HandleKeyDown, HandleKeyUp, DrainExpired, RebuildState, ChangeMode, ReconcilePendingOutput, IdealAxis, AxisOk;
    var Action(step, _, env) := action;
    if step.Rebuild? { FitsSurvives(w, step.physical); IdealRebuildable(w, target); }
    StepKeeps(w, action);
    match step {
      case KeyDown(k, _) => PressIdeal(w, k, target, env);
      case KeyUp(k, _) =>
        if w.s.Key(k).phys { ReleaseIdeal(w, k, target, env); } else { RepeatIsSilent(w, k, false, target, env); }
      case Expire => ExpireIdeal(w, target, env);
      case Rebuild(physical) => RebuildIdeal(w, physical, target, env);
      case SetMode(mode, ledgerIdle) => ModeIdeal(w, mode, ledgerIdle, target, env);
      case ReconcileOutput => OutputIdeal(w, target, env.sends(0));
      case Space(down) => SpaceIdeal(w, down, target, env.sends(0));
      case _ =>
    }
    ArbitratedBase(Apply(w, action), target);
  }

  lemma UnroutedCalm(w: World, step: Step, target: TargetIdentity, env: Env)
    requires Calm(w.b, target) && (step.KeyDown? || step.KeyUp?) && !step.routed
    ensures Apply(w, Action(step, target, env)).b == w.b
  {
  }

  lemma StaleExpiryCalm(w: World, env: Env)
    requires QuietAxis(w.s.x) && QuietAxis(w.s.y)
    ensures DrainExpired(w, env).b == w.b
  {
  }

  lemma WaitingCalm(w: World, action: Action, target: TargetIdentity)
    requires Inv(w) && Calm(w.b, target) && IdealAction(action, target)
    requires !action.step.Rebuild? && (action.step.KeyDown? || action.step.KeyUp? ==> !action.step.routed)
    requires action.step.Clear? || action.step.Suspend? || (QuietAxis(w.s.x) && QuietAxis(w.s.y))
    ensures Calm(Apply(w, action).b, target)
  {
    var Action(step, _, env) := action;
    match step
    case KeyDown(_, _) => UnroutedCalm(w, step, target, env);
    case KeyUp(_, _) => UnroutedCalm(w, step, target, env);
    case Expire => StaleExpiryCalm(w, env);
    case Clear => ClearCalm(w, target, env);
    case Suspend => if !w.s.suspended { ClearCalm(w.(s := w.s.(suspended := true)), target, env); }
    case SetMode(_, _) => ClearCalm(w, target, env);
    case ReconcileOutput => ReconcileIdle(w.b, target, env.sends(0));
    case Space(down) => SpaceCalm(w, down, target, env.sends(0));
    case _ =>
  }

  lemma StepWaiting(w: World, action: Action, target: TargetIdentity)
    requires Inv(w) && Calm(w.b, target) && IdealAction(action, target)
    requires !action.step.Rebuild? && (action.step.KeyDown? || action.step.KeyUp? ==> !action.step.routed)
    requires (QuietAxis(w.s.x) && QuietAxis(w.s.y)) || action.step.Clear? || (action.step.Suspend? && !w.s.suspended)
    ensures Inv(Apply(w, action)) && Waiting(Apply(w, action), target)
  {
    StepKeeps(w, action);
    WaitingCalm(w, action, target);
    QuietUntilRouted(w, action, X);
    QuietUntilRouted(w, action, Y);
  }

  lemma RebuildFromWaiting(w: World, physical: Bools4, target: TargetIdentity, env: Env)
    requires Inv(w) && Waiting(w, target) && !w.s.suspended && ObligingEnv(env, target)
    ensures Ideal(RebuildState(w, physical, target, env), target)
  {
    SeenOrQuietFits(w, physical);
    RebuildIdeal(w, physical, target, env);
    FitsSurvives(w, physical);
    StepKeeps(w, Action(Rebuild(physical), target, env));
  }

  // ---- Runs ----

  lemma StartIdeal(target: TargetIdentity)
    ensures Ideal(START, target)
  {
    StartInv();
  }

  ghost predicate Where(actions: seq<Action>, target: TargetIdentity) {
    var w := Run(START, actions);
    Inv(w) && if Cleared(actions) then Waiting(w, target) else Ideal(w, target)
  }

  lemma StepWhere(before: seq<Action>, action: Action, target: TargetIdentity)
    requires Where(before, target) && IdealAction(action, target) && Routed(before, action.step)
    requires |before + [action]| == |before| + 1 && (before + [action])[..|before|] == before
    ensures Where(before + [action], target)
  {
    var w, step := Run(START, before), action.step;
    if step.Rebuild? {
      if Cleared(before) {
        RebuildFromWaiting(w, step.physical, target, action.env);
      } else {
        StepIdeal(w, action, target);
      }
    } else if Cleared(before) || step.Clear? || step.Suspend? {
      StepWaiting(w, action, target);
    } else {
      StepIdeal(w, action, target);
    }
  }

  lemma {:induction false} RunWhere(actions: seq<Action>, target: TargetIdentity)
    requires RoutedRun(actions) && IdealRun(actions, target)
    ensures Where(actions, target)
  {
    if actions == [] {
      StartIdeal(target);
    } else {
      var before, last := actions[..|actions| - 1], actions[|actions| - 1];
      assert IdealRun(before, target);
      RunWhere(before, target);
      assert before + [last] == actions;
      StepWhere(before, last, target);
    }
  }

  /** Main result: whenever the engine is not waiting for a rebuild, the logical pair of each axis is the
      specified function of its physical pair, its last pressed key, its overlap and its armed timers,
      and it is exactly what the game holds besides native keys. */
  lemma RefinesSpecification(actions: seq<Action>, target: TargetIdentity, a: Axis)
    requires RoutedRun(actions) && IdealRun(actions, target) && !Cleared(actions)
    ensures var w := Run(START, actions);
            var r := w.s.At(a);
            && (r.pos.logical, r.neg.logical) ==
               Specified(w.mode, r.pos.phys, r.neg.phys, r.socdLastKey, r.socdReleaseTimerId != 0,
                         r.pos.expectedTimerId != 0, r.neg.expectedTimerId != 0)
            && r.pos.logical == ((w.mode == OFF && r.pos.phys) || w.b.held[KeyOf(a, Pos)])
            && r.neg.logical == ((w.mode == OFF && r.neg.phys) || w.b.held[KeyOf(a, Neg)])
            && (r.socdReleaseTimerId != 0 ==> w.mode == HUMANIZED && r.pos.phys && r.neg.phys)
  {
    RunWhere(actions, target);
    var w := Run(START, actions);
    assert IdealAxis(w.s.At(a), w.b, a, w.mode, target) && RecordOk(w.s.At(a), w.mode, w.t, a);
  }

  /** Main result: in such a state a repeated edge and a reconciliation emit nothing. */
  lemma RepeatsEmitNothing(actions: seq<Action>, target: TargetIdentity, action: Action)
    requires RoutedRun(actions) && IdealRun(actions, target) && !Cleared(actions)
    requires IdealAction(action, target) && Routed(actions, action.step)
    requires var w := Run(START, actions);
             match action.step
             case KeyDown(k, _) => w.s.Key(k).phys
             case KeyUp(k, _) => !w.s.Key(k).phys
             case Rebuild(physical) => Seen(w.s, physical)
             case _ => false
    ensures Apply(Run(START, actions), action).b == Run(START, actions).b
  {
    RunWhere(actions, target);
    var w := Run(START, actions);
    match action.step
    case KeyDown(k, _) => RepeatIsSilent(w, k, true, target, action.env);
    case KeyUp(k, _) => RepeatIsSilent(w, k, false, target, action.env);
    case Rebuild(physical) => RebuildIsSilent(w, physical, target, action.env, W);
  }
}
