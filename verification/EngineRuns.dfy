/** No stuck keys: the invariant over every disciplined run of the engine. */
module EngineRuns {
  import opened Keys
  import opened TargetPlatform
  import opened Engine
  import opened EngineInvariant
  import opened EngineSafety
  import opened EngineUnrouted
  import opened EngineReconcile
  import I = Injection
  import T = Timers
  import Safety = InjectionSafety

  /** The router's discipline: unrouted edges reach only an axis that is not being arbitrated, and a
      rebuild is shown keys to which the axes lose no key. */
  ghost predicate Disciplined(w: World, step: Step) {
    match step
    case KeyDown(k, routed) => routed || QuietAxis(w.s.At(KeyAxis(k)))
    case KeyUp(k, routed) => routed || QuietAxis(w.s.At(KeyAxis(k)))
    case Rebuild(physical) => Survives(w, physical)
    case _ => true
  }

  ghost predicate DisciplinedFrom(w: World, actions: seq<Action>) {
    actions == [] ||
    var before, last := actions[..|actions| - 1], actions[|actions| - 1];
    DisciplinedFrom(w, before) && Disciplined(Run(w, before), last.step)
  }

  ghost predicate DisciplinedRun(actions: seq<Action>) {
    DisciplinedFrom(START, actions)
  }

  lemma StartInv()
    ensures Inv(START)
  {
    Safety.IdleReachable();
  }

  lemma ThreadStepKeeps(w: World, t': T.Timers, now: int)
    requires Inv(w) && (t' == T.Pick(w.t) || t' == T.Fire(w.t, now) || t' == T.Enqueue(w.t))
    ensures Inv(w.(t := t'))
  {
    ThreadKeeps(w.t, t', now, w.s.x, w.mode, w.b, X);
    ThreadKeeps(w.t, t', now, w.s.y, w.mode, w.b, Y);
  }

  lemma StepKeeps(w: World, action: Action)
    requires Inv(w) && Disciplined(w, action.step)
    ensures Inv(Apply(w, action))
  {
    var Action(step, target, env) := action;
    match step
    case KeyDown(k, routed) =>
      if routed { RoutedPressKeeps(w, k, target, env); } else { UnroutedPressKeeps(w, k, target, env); }
    case KeyUp(k, routed) =>
      if !routed { UnroutedReleaseKeeps(w, k, target, env); }
      else if w.s.Key(k).phys { RoutedReleaseKeeps(w, k, target, env); }
      else { SpuriousReleaseKeeps(w, k, target, env); }
    case Expire => ExpireKeeps(w, env);
    case Rebuild(physical) => RebuildKeeps(w, physical, target, env);
    case Clear => ClearKeeps(w, target, env);
    case Suspend => SuspendKeeps(w, target, env);
    case SetMode(mode, ledgerIdle) => ModeKeeps(w, mode, ledgerIdle, target, env);
    case ReconcileOutput => ReconcileOutputKeeps(w, target, env.sends(0));
    case Space(down) => SpaceKeeps(w, if down then I.SpaceDown else I.SpaceUp, target, env.sends(0));
    case PickTimer => ThreadStepKeeps(w, T.Pick(w.t), env.now);
    case FireTimer => ThreadStepKeeps(w, T.Fire(w.t, env.now), env.now);
    case EnqueueTimer => ThreadStepKeeps(w, T.Enqueue(w.t), env.now);
  }

  lemma {:induction false} RunInv(w: World, actions: seq<Action>)
    requires Inv(w) && DisciplinedFrom(w, actions)
    ensures Inv(Run(w, actions))
  {
    if actions != [] {
      var before := actions[..|actions| - 1];
      RunInv(w, before);
      StepKeeps(Run(w, before), actions[|actions| - 1]);
    }
  }

  /** A held key that is not physically down is pending release or waits for a timer that will still arrive. */
  ghost predicate NotStuck(w: World, k: Key) {
    w.b.held[k] && !w.s.Key(k).phys ==>
      w.b.pending[k] || (w.s.Key(k).expectedTimerId != 0 && T.Live(w.t, k, w.s.Key(k).expectedTimerId))
  }

  lemma InvNotStuck(w: World, k: Key)
    requires Inv(w)
    ensures NotStuck(w, k) && w.s.Key(k).logical == (w.s.Key(k).nativeLogical || w.b.held[k])
  {
    assert KeyOk(w.s.At(KeyAxis(k)), w.t, w.b, KeyAxis(k), SideOf(k));
  }

  /** Main result: after every step of every disciplined run, in every SOCD mode, a key that reached the
      game and is not physically down is pending release or waits for a timer that will still arrive. */
  lemma NoStuckKeys(actions: seq<Action>, k: Key)
    requires DisciplinedRun(actions)
    ensures var w := Run(START, actions);
            && (w.b.held[k] && !w.s.Key(k).phys ==>
                  w.b.pending[k] || (w.s.Key(k).expectedTimerId != 0 && T.Live(w.t, k, w.s.Key(k).expectedTimerId)))
            && w.s.Key(k).logical == (w.s.Key(k).nativeLogical || w.b.held[k])
  {
    StartInv();
    RunInv(START, actions);
    InvNotStuck(Run(START, actions), k);
  }

  // ---- The discipline in the router's own terms ----

  lemma FinishAt(w: World, s: State, a: Axis, wk: Work, target: TargetIdentity, env: Env)
    ensures var w' := FinishAxis(w, s, a, wk, target, env);
            && SameExceptNative(wk.r, w'.s.At(a)) && SameExceptNative(s.At(OtherAxis(a)), w'.s.At(OtherAxis(a)))
            && w'.t == wk.t && w'.b == Flush(w.b, wk.batch, target, env.sends)
  {
  }

  lemma TrackIfOffSame(w: World, s: State, a: Axis, target: TargetIdentity, env: Env)
    ensures SameExceptNative(s.At(a), TrackIfOff(w, s, target, env).At(a))
  {
  }

  /** An edge concerns its own axis only. */
  lemma EdgeFrame(w: World, k: Key, down: bool, routed: bool, target: TargetIdentity, env: Env)
    ensures var w' := if down then HandleKeyDown(w, k, routed, target, env) else HandleKeyUp(w, k, routed, target, env);
            SameExceptNative(w.s.At(OtherAxis(KeyAxis(k))), w'.s.At(OtherAxis(KeyAxis(k))))
  {
    var a, side, o := KeyAxis(k), SideOf(k), OtherAxis(KeyAxis(k));
    var r := if down then TrackPress(w.s.At(a), w.t, a, side) else TrackRelease(w.s.At(a), w.t, a, side);
    var s := TrackIfOff(w, w.s.With(a, r.r), target, env);
    TrackIfOffSame(w, w.s.With(a, r.r), o, target, env);
    var wk := r.(r := s.At(a));
    if down {
      FinishAt(w, s, a, RoutePress(wk, w.mode, a, side, target, env), target, env);
    } else if w.s.Key(k).phys {
      FinishAt(w, s, a, if routed then RouteRelease(wk, w.mode, a, side, s.suspended, target, env)
          else wk, target, env);
    } else {
      var wk := Work(w.s.At(a), w.t, Empty);
      FinishAt(w, w.s, a, if routed then ResolveAxis(wk, w.mode, a, false, target, env) else wk, target, env);
    }
  }

  lemma StaysQuietOnEdge(w: World, k: Key, down: bool, target: TargetIdentity, env: Env)
    requires w.s.At(KeyAxis(k)).socdReleaseTimerId == 0 && QuietAxis(w.s.At(KeyAxis(k)))
    ensures var w' := if down then HandleKeyDown(w, k, false, target, env) else HandleKeyUp(w, k, false, target, env);
            QuietAxis(w'.s.At(KeyAxis(k)))
  {
    var a, side := KeyAxis(k), SideOf(k);
    var r := if down then TrackPress(w.s.At(a), w.t, a, side) else TrackRelease(w.s.At(a), w.t, a, side);
    assert QuietAxis(r.r);
    var s := TrackIfOff(w, w.s.With(a, r.r), target, env);
    TrackIfOffSame(w, w.s.With(a, r.r), a, target, env);
    if !down {
      var s0 := if w.s.Key(k).phys then s else w.s;
      FinishAt(w, s0, a, Work(s0.At(a), w.t, Empty), target, env);
      FinishAt(w, s0, a, r.(r := s0.At(a)), target, env);
    }
  }

  lemma StaysQuietOnExpiry(w: World, a: Axis, env: Env)
    requires QuietAxis(w.s.At(a))
    ensures QuietAxis(DrainExpired(w, env).s.At(a))
  {
    if w.t.queue != [] {
      var e, w1 := w.t.queue[0], w.(t := T.Pop(w.t));
      if e.key < 4 && KeyAxis(e.key) != a {
        var wk := Work(w.s.At(OtherAxis(a)), w1.t, Empty);
        FinishAt(w1, w.s, OtherAxis(a), ExpireTimer(wk, w.mode, OtherAxis(a), SideOf(e.key), w.s.suspended),
                 w.s.Key(e.key).expectedTimerTarget, env);
      }
    }
  }

  lemma CommitSameAt(s: State, b: I.Boundary, a: Axis)
    ensures SameExceptNative(s.At(a), Commit(s, b).At(a))
  {
  }

  lemma QuietOnSuspend(w: World, target: TargetIdentity, env: Env, a: Axis)
    requires Inv(w) && (w.s.suspended ==> QuietAxis(w.s.At(a)))
    ensures QuietAxis(ToggleSuspend(w, target, env).s.At(a))
  {
    SuspendKeeps(w, target, env);
    if w.s.suspended { CommitSameAt(w.s.(suspended := false), w.b, a); }
  }

  lemma QuietOnModeChange(w: World, mode: SocdMode, ledgerIdle: bool, target: TargetIdentity, env: Env, a: Axis)
    requires Inv(w) && QuietAxis(w.s.At(a))
    ensures QuietAxis(ChangeMode(w, mode, ledgerIdle, target, env).s.At(a))
  {
    ClearKeeps(w, target, env);
  }

  /** Whether the step is an edge of axis a. */
  predicate EdgeOf(step: Step, a: Axis) {
    (step.KeyDown? || step.KeyUp?) && KeyAxis(step.k) == a
  }

  lemma QuietOnEdge(w: World, step: Step, target: TargetIdentity, env: Env, a: Axis)
    requires Inv(w) && QuietAxis(w.s.At(a)) && (step.KeyDown? || step.KeyUp?) && !(EdgeOf(step, a) && step.routed)
    ensures QuietAxis(Apply(w, Action(step, target, env)).s.At(a))
  {
    if KeyAxis(step.k) == a {
      StaysQuietOnEdge(w, step.k, step.KeyDown?, target, env);
    } else {
      EdgeFrame(w, step.k, step.KeyDown?, step.routed, target, env);
    }
  }

  /** Cleanup and suspension make both axes quiet, and an axis stays quiet until it is rebuilt or sees a
      routed edge of its own: the unrouted edges in between are disciplined. */
  lemma QuietUntilRouted(w: World, action: Action, a: Axis)
    requires Inv(w)
    requires QuietAxis(w.s.At(a)) || action.step.Clear? || (action.step.Suspend? && !w.s.suspended)
    requires !action.step.Rebuild? && !(EdgeOf(action.step, a) && action.step.routed)
    ensures QuietAxis(Apply(w, action).s.At(a))
  {
    var Action(step, target, env) := action;
    if step.KeyDown? || step.KeyUp? {
      QuietOnEdge(w, step, target, env, a);
    } else if step.Suspend? {
      QuietOnSuspend(w, target, env, a);
    } else if step.Clear? {
      ClearKeeps(w, target, env);
    } else if step.SetMode? {
      QuietOnModeChange(w, step.mode, step.ledgerIdle, target, env, a);
    } else if step.Expire? {
      StaysQuietOnExpiry(w, a, env);
    } else if step.ReconcileOutput? {
      CommitSameAt(w.s, I.ReconcilePending(w.b, target, env.sends(0)).0, a);
    }
  }
}
