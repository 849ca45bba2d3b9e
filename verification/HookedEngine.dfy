/** Hook, ring and engine together: what the whole of them guarantees over every run, with no hypothesis on the keys
    that a rebuild is shown. */
module HookedEngine {
  import opened Keys
  import opened EngineInvariant
  import opened EngineReconcile
  import opened EngineRuns
  import opened EngineExclusive
  import E = Engine
  import L = HookLedger
  import T = Timers
  import Safety = InjectionSafety

  /** An unrouted edge is drained only while its axis is quiet, and a rebuild happens with nothing lost or while both
      axes are quiet. */
  ghost predicate Orderly(w: L.World, step: L.Step) {
    match step
    case DrainOne(focus, env) =>
      w.queue != [] && w.mask == L.NoMask ==>
        L.Edge(w.queue[0], focus, env).step.routed || QuietAxis(w.engine.s.At(KeyAxis(w.queue[0].k)))
    case Rebuild(_, _) =>
      w.mask.Taken? ==> !w.lost || (QuietAxis(w.engine.s.x) && QuietAxis(w.engine.s.y))
    case _ => true
  }

  ghost predicate OrderlyRun(steps: seq<L.Step>) {
    steps == [] ||
    var before, last := steps[..|steps| - 1], steps[|steps| - 1];
    OrderlyRun(before) && Orderly(L.Run(L.START, before), last)
  }

  /** The engine's part of a step. */
  datatype Part = Nothing | Acts(action: E.Action)

  function PartOf(w: L.World, step: L.Step): Part {
    match step
    case DrainOne(focus, env) =>
      if w.queue == [] || w.mask.Taken? then Nothing else Acts(L.Edge(w.queue[0], focus, env))
    case Rebuild(target, env) =>
      if w.mask == L.NoMask then Nothing else Acts(E.Action(E.Rebuild(w.mask.physical), target, env))
    case Engine(action) => if L.Internal(action.step) then Acts(action) else Nothing
    case _ => Nothing
  }

  lemma PartActs(w: L.World, step: L.Step)
    ensures L.Apply(w, step).engine ==
            match PartOf(w, step) case Nothing => w.engine case Acts(action) => E.Apply(w.engine, action)
  {
    hide E.Apply;
  }

  /** Every step of the engine in an orderly run is disciplined, and its rebuilds are shown keys that fit. */
  lemma PartDisciplined(w: L.World, step: L.Step)
    requires L.Agrees(w) && Inv(w.engine) && Orderly(w, step) && PartOf(w, step).Acts?
    ensures var action := PartOf(w, step).action;
            && Disciplined(w.engine, action.step)
            && (action.step.Rebuild? ==> Fits(w.engine, action.step.physical))
  {
    hide Inv, FitsAxis, L.P.PhysOf, L.Replay;
    if step.Rebuild? {
      if !w.lost { SeenByAgreement(w); }
      SeenOrQuietFits(w.engine, w.mask.physical);
      FitsSurvives(w.engine, w.mask.physical);
    }
  }

  lemma SeenByAgreement(w: L.World)
    requires L.Agrees(w) && w.mask.Taken? && !w.lost
    ensures Seen(w.engine.s, w.mask.physical)
  {
    hide L.Replay;
  }

  lemma {:induction false} OrderlyInv(steps: seq<L.Step>)
    requires OrderlyRun(steps)
    ensures var w := L.Run(L.START, steps); L.Agrees(w) && Inv(w.engine)
  {
    hide L.Agrees, L.Apply, E.Apply, Inv;
    if steps == [] {
      L.StartAgrees();
      StartInv();
    } else {
      var before, last := steps[..|steps| - 1], steps[|steps| - 1];
      OrderlyInv(before);
      var w := L.Run(L.START, before);
      L.StepAgrees(w, last);
      PartActs(w, last);
      if PartOf(w, last).Acts? {
        PartDisciplined(w, last);
        StepKeeps(w.engine, PartOf(w, last).action);
      }
    }
  }

  /** Main result: in every orderly run, whatever is installed, lost, cleared, suspended or rebuilt, no key is ever
      stuck, in every mode. */
  lemma OrderlyNeverStuck(steps: seq<L.Step>, k: Key)
    requires OrderlyRun(steps)
    ensures var w := L.Run(L.START, steps).engine;
            w.b.held[k] && !w.s.Key(k).phys ==>
              w.b.pending[k] || (w.s.Key(k).expectedTimerId != 0 && T.Live(w.t, k, w.s.Key(k).expectedTimerId))
  {
    OrderlyInv(steps);
    InvNotStuck(L.Run(L.START, steps).engine, k);
  }

  /** FULL mode, no overlap configured in the profile. */
  predicate StrictPart(step: L.Step) {
    match step
    case DrainOne(_, env) => env.overlapUs <= 0
    case Rebuild(_, env) => env.overlapUs <= 0
    case Engine(action) => action.env.overlapUs <= 0 && (action.step.SetMode? ==> action.step.mode == E.FULL)
    case _ => true
  }

  ghost predicate StrictOrderlyRun(steps: seq<L.Step>) {
    OrderlyRun(steps) && forall i :: 0 <= i < |steps| ==> StrictPart(steps[i])
  }

  lemma {:induction false} OrderlyExcl(steps: seq<L.Step>)
    requires StrictOrderlyRun(steps)
    ensures Excl(L.Run(L.START, steps).engine)
  {
    hide L.Agrees, L.Apply, E.Apply, Excl;
    if steps == [] {
      StartExcl();
    } else {
      var before, last := steps[..|steps| - 1], steps[|steps| - 1];
      assert StrictOrderlyRun(before) by { assert forall i :: 0 <= i < |before| ==> before[i] == steps[i]; }
      OrderlyExcl(before);
      OrderlyInv(before);
      var w := L.Run(L.START, before);
      PartActs(w, last);
      if PartOf(w, last).Acts? {
        PartDisciplined(w, last);
        PartStrict(w, last);
        StepApart(w.engine, PartOf(w, last).action);
      }
    }
  }

  lemma PartStrict(w: L.World, step: L.Step)
    requires StrictPart(step) && PartOf(w, step).Acts?
    ensures var action := PartOf(w, step).action;
            action.env.overlapUs <= 0 && (action.step.SetMode? ==> action.step.mode == E.FULL)
  {
  }

  /** Main result: and in FULL mode without overlap no prefix of the accepted inputs has both keys of an axis down. */
  lemma OrderlyNeverBothDown(steps: seq<L.Step>, n: nat, k: Key)
    requires StrictOrderlyRun(steps) && n <= |L.Run(L.START, steps).engine.b.log|
    ensures var log := L.Run(L.START, steps).engine.b.log;
            !(Safety.OpenDown(log[..n], k).Some? && Safety.OpenDown(log[..n], Opposite(k)).Some?)
  {
    OrderlyExcl(steps);
    assert Apart(L.Run(L.START, steps).engine.b.log[..n]);
  }
}
