/** The hook's ledger of physical movement keys, the events it queues, and the engine that consumes them. */
module HookLedger {
  import opened Keys
  import opened TargetPlatform
  import E = Engine
  import P = EnginePhysical
  import R = EngineReconcile

  const CAPACITY := 1024

  /** A queued edge: whether it was to be routed, and for which target. */
  datatype KeyEvent = KeyEvent(k: Key, down: bool, routed: bool, target: TargetIdentity)

  /** `lost` says that edges have been dropped, or the ledger set, behind the engine's back since they last agreed;
      `mask` is a ledger snapshot that a rebuild has taken and not yet used, whole while no edge has been dropped
      since. */
  datatype World = World(
    ledger: Bools4, initialized: bool, queue: seq<KeyEvent>, lost: bool, mask: Mask, engine: E.World)

  datatype Mask = NoMask | Taken(physical: Bools4, whole: bool)

  const START: World := World(NO_KEYS, false, [], false, NoMask, E.START)

  datatype Step =
    | Install(shown: Bools4)
    | Uninstall
    | Hook(k: Key, down: bool, routed: bool, target: TargetIdentity)
    | DrainOne(focus: Focus, env: E.Env)
    | TakeMask
    | Rebuild(target: TargetIdentity, env: E.Env)
    | Engine(action: E.Action)

  function ClearQueue(w: World): World {
    w.(queue := [], lost := w.lost || w.queue != [])
  }

  /** The first installation sets the ledger to the keys that are down; every one empties the queue. */
  function OnInstall(w: World, shown: Bools4): World {
    var w := ClearQueue(w);
    if w.initialized then w
    else w.(ledger := shown, initialized := true, lost := w.lost || shown != w.ledger)
  }

  /** An edge is queued only when it changes the ledger; repeats are not edges. */
  function OnHook(w: World, k: Key, down: bool, routed: bool, target: TargetIdentity): World {
    if w.ledger[k] == down then w
    else
      var w := w.(ledger := w.ledger[k := down]);
      if |w.queue| < CAPACITY then w.(queue := w.queue + [KeyEvent(k, down, routed, target)])
      else w.(lost := true, mask := if w.mask.Taken? then w.mask.(whole := false) else NoMask)
  }

  /** The edge as the engine sees it: routed only if its target is still active when it is drained. */
  function Edge(e: KeyEvent, focus: Focus, env: E.Env): E.Action {
    var routed := e.routed && IsExpectedTargetActive(focus, e.target);
    E.Action(if e.down then E.KeyDown(e.k, routed) else E.KeyUp(e.k, routed), e.target, env)
  }

  /** Steps of the engine that are not edges and not rebuilds. */
  predicate Internal(step: E.Step) {
    !step.KeyDown? && !step.KeyUp? && !step.Rebuild?
  }

  function Apply(w: World, step: Step): World {
    match step
    case Install(shown) => if w.mask.Taken? then w else OnInstall(w, shown)
    case Uninstall => if w.mask.Taken? then w else ClearQueue(w)
    case Hook(k, down, routed, target) => OnHook(w, k, down, routed, target)
    case DrainOne(focus, env) =>
      if w.queue == [] || w.mask.Taken? then w
      else w.(queue := w.queue[1..], engine := E.Apply(w.engine, Edge(w.queue[0], focus, env)))
    case TakeMask => if w.queue == [] && w.mask == NoMask then w.(mask := Taken(w.ledger, true)) else w
    case Rebuild(target, env) =>
      if w.mask == NoMask then w
      else
        w.(mask := NoMask, lost := !w.mask.whole,
           engine := E.Apply(w.engine, E.Action(E.Rebuild(w.mask.physical), target, env)))
    case Engine(action) => if Internal(action.step) then w.(engine := E.Apply(w.engine, action)) else w
  }

  function Run(w: World, steps: seq<Step>): World {
    if steps == [] then w else Apply(Run(w, steps[..|steps| - 1]), steps[|steps| - 1])
  }

  /** The physical keys after the queued edges. */
  function Replay(queue: seq<KeyEvent>, phys: Bools4): Bools4 {
    if queue == [] then phys else Replay(queue[1..], phys[queue[0].k := queue[0].down])
  }

  lemma {:induction false} ReplaySnoc(queue: seq<KeyEvent>, e: KeyEvent, phys: Bools4)
    ensures Replay(queue + [e], phys) == Replay(queue, phys)[e.k := e.down]
  {
    if queue == [] {
      assert Replay([e][1..], phys[e.k := e.down]) == phys[e.k := e.down];
      assert [] + [e] == [e];
    } else {
      assert (queue + [e])[1..] == queue[1..] + [e];
      ReplaySnoc(queue[1..], e, phys[queue[0].k := queue[0].down]);
    }
  }

  /** Unless something was lost, the queued edges lead from the engine's keys to the ledger; from a whole mask they
      do in any case. */
  ghost predicate Agrees(w: World) {
    && (!w.lost ==> Replay(w.queue, P.PhysOf(w.engine.s)) == w.ledger)
    && (w.mask.Taken? && w.mask.whole ==> Replay(w.queue, w.mask.physical) == w.ledger)
    && (w.mask.Taken? && !w.lost ==> w.mask.whole && w.mask.physical == P.PhysOf(w.engine.s))
  }

  lemma HookAgrees(w: World, k: Key, down: bool, routed: bool, target: TargetIdentity)
    requires Agrees(w)
    ensures Agrees(OnHook(w, k, down, routed, target))
  {
    hide P.PhysOf;
    if w.ledger[k] != down {
      ReplaySnoc(w.queue, KeyEvent(k, down, routed, target), P.PhysOf(w.engine.s));
      if w.mask.Taken? { ReplaySnoc(w.queue, KeyEvent(k, down, routed, target), w.mask.physical); }
    }
  }

  lemma StepAgrees(w: World, step: Step)
    requires Agrees(w)
    ensures Agrees(Apply(w, step))
  {
    hide E.Apply, P.PhysOf;
    match step
    case Install(shown) =>
    case Uninstall =>
    case Hook(k, down, routed, target) => HookAgrees(w, k, down, routed, target);
    case DrainOne(focus, env) =>
      if w.queue != [] && w.mask == NoMask { P.StepPhys(w.engine, Edge(w.queue[0], focus, env)); }
    case TakeMask =>
    case Rebuild(target, env) =>
      if w.mask.Taken? { P.StepPhys(w.engine, E.Action(E.Rebuild(w.mask.physical), target, env)); }
    case Engine(action) => if Internal(action.step) { P.StepPhys(w.engine, action); }
  }

  lemma {:induction false} RunAgrees(w: World, steps: seq<Step>)
    requires Agrees(w)
    ensures Agrees(Run(w, steps))
  {
    if steps != [] {
      var n := |steps| - 1;
      RunAgrees(w, steps[..n]);
      StepAgrees(Run(w, steps[..n]), steps[n]);
    }
  }

  /** Main result: across installations, routed and unrouted edges, cleanups, mode changes and rebuilds, and unless
      something has been lost since the last rebuild, replaying the queued edges onto the engine's keys gives the
      hook's ledger; so once the queue is drained the two are equal. */
  lemma LedgerAgreement(w: World, steps: seq<Step>)
    requires Agrees(w) && !Run(w, steps).lost
    ensures var w' := Run(w, steps);
            && Replay(w'.queue, P.PhysOf(w'.engine.s)) == w'.ledger
            && (w'.queue == [] ==> P.PhysOf(w'.engine.s) == w'.ledger)
  {
    RunAgrees(w, steps);
  }

  /** Main result: whatever was lost before, to an installation or a full queue, a rebuild restores the agreement
      unless an edge was dropped after its mask was taken. */
  lemma RebuildRestores(steps: seq<Step>, target: TargetIdentity, env: E.Env)
    requires var w := Run(START, steps); w.mask.Taken? && w.mask.whole
    ensures var w' := Apply(Run(START, steps), Rebuild(target, env));
            !w'.lost && Replay(w'.queue, P.PhysOf(w'.engine.s)) == w'.ledger
  {
    hide E.Apply, P.PhysOf;
    StartAgrees();
    RunAgrees(START, steps);
    StepAgrees(Run(START, steps), Rebuild(target, env));
  }

  lemma StartAgrees()
    ensures Agrees(START)
  {
  }

  /** Main result: unless something was lost, a rebuild is shown what the engine's own edges left physically down. */
  lemma RebuildsAreSeen(steps: seq<Step>)
    requires var w := Run(START, steps); w.mask.Taken? && !w.lost
    ensures var w := Run(START, steps); R.Seen(w.engine.s, w.mask.physical)
  {
    StartAgrees();
    RunAgrees(START, steps);
    var w := Run(START, steps);
    assert w.mask.physical == P.PhysOf(w.engine.s);
  }

  /** Main result: while the ring has room, an edge that changes the ledger joins its end and nothing is lost; a repeat
      changes nothing. */
  lemma HookQueues(w: World, k: Key, down: bool, routed: bool, target: TargetIdentity)
    requires |w.queue| < 1024
    ensures var w' := Apply(w, Hook(k, down, routed, target));
            if w.ledger[k] == down then w' == w
            else
              && (forall j: Key :: w'.ledger[j] == if j == k then down else w.ledger[j])
              && w' == w.(ledger := w'.ledger, queue := w.queue + [KeyEvent(k, down, routed, target)])
  {
    hide E.Apply;
  }

  /** Main result: draining takes the oldest edge off the ring and hands it to the engine as an edge of its key for
      its own target, routed exactly if it was queued as routed and that target is active by then. */
  lemma DrainDelivers(w: World, focus: Focus, env: E.Env)
    requires w.queue != [] && w.mask == NoMask
    ensures var e, w' := w.queue[0], Apply(w, DrainOne(focus, env));
            var routed := e.routed && IsExpectedTargetActive(focus, e.target);
            && w' == w.(queue := w.queue[1..], engine := w'.engine)
            && w'.engine == if e.down then E.HandleKeyDown(w.engine, e.k, routed, e.target, env)
                            else E.HandleKeyUp(w.engine, e.k, routed, e.target, env)
  {
    hide E.HandleKeyDown, E.HandleKeyUp;
  }

  /** Keys held at launch reach the first rebuild although the engine has seen no edge of them. */
  lemma LaunchShowsAnyKeys(shown: Bools4)
    ensures var w := Run(START, [Install(shown), TakeMask]);
            w.mask == Taken(shown, true) && P.PhysOf(w.engine.s) == NO_KEYS && w.lost == (shown != NO_KEYS)
  {
    var steps := [Install(shown), TakeMask];
    assert steps[..1] == [Install(shown)] && [Install(shown)][..0] == [];
    assert Run(START, steps[..1]) == Apply(Run(START, []), Install(shown));
  }

  /** Right after a rejected edge the ledger and the replayed keys differ in exactly that key. */
  lemma RejectedEdgeDisagrees(w: World, k: Key, down: bool, routed: bool, target: TargetIdentity)
    requires Agrees(w) && !w.lost && |w.queue| >= CAPACITY && w.ledger[k] != down
    ensures var w' := OnHook(w, k, down, routed, target);
            && w'.lost
            && forall j: Key :: (Replay(w'.queue, P.PhysOf(w'.engine.s))[j] != w'.ledger[j]) <==> j == k
  {
  }
}
