/** A Space request on its way: through the queue to the boundary, and its result back to the worker's flag. */
module SpaceProgress {
  import opened TargetPlatform
  import opened SpaceOwnership
  import I = Injection
  import Q = BhopQueue
  import Safety = InjectionSafety
  import Effects = InjectionEffects

  /** The worker submits a request, the next drain executes it, the worker takes note of the result. */
  function RoundTrip(kind: Q.Kind, target: TargetIdentity, d: I.Dispatch): seq<Step> {
    [WorkerSubmit(kind, target), Protocol(Q.BeginDrain), Protocol(Q.Pop), Execute(d, 0), Protocol(Q.FinishOne),
     Protocol(Q.Pop), WorkerReturn]
  }

  /** The queue runs and nothing is under way. */
  predicate Ready(s: World) {
    s.q.running && s.q.queued == [] && s.q.gate == Q.Free && s.w.waiting == None
  }

  lemma RunStep(s: World, steps: seq<Step>, step: Step)
    ensures Run(s, steps + [step]) == Apply(Run(s, steps), step)
  {
    assert (steps + [step])[..|steps|] == steps;
  }

  lemma RunSeven(s: World, a: Step, b: Step, c: Step, d: Step, e: Step, f: Step, g: Step)
    ensures Run(s, [a, b, c, d, e, f, g]) == Apply(Apply(Apply(Apply(Apply(Apply(Apply(s, a), b), c), d), e), f), g)
  {
    hide Apply, Run;
    assert Run(s, []) == s by { RunNone(s); }
    RunStep(s, [], a);
    RunStep(s, [a], b);
    RunStep(s, [a, b], c);
    RunStep(s, [a, b, c], d);
    RunStep(s, [a, b, c, d], e);
    RunStep(s, [a, b, c, d, e], f);
    RunStep(s, [a, b, c, d, e, f], g);
    assert [] + [a] == [a] && [a] + [b] == [a, b] && [a, b] + [c] == [a, b, c] && [a, b, c] + [d] == [a, b, c, d];
    assert [a, b, c, d] + [e] == [a, b, c, d, e] && [a, b, c, d, e] + [f] == [a, b, c, d, e, f];
    assert [a, b, c, d, e, f] + [g] == [a, b, c, d, e, f, g];
  }

  lemma RunNone(s: World)
    ensures Run(s, []) == s
  {
  }

  lemma TripIs(s: World, kind: Q.Kind, target: TargetIdentity, d: I.Dispatch)
    requires Ready(s) && Requests(s.w, kind)
    ensures var s', (b, value) := Run(s, RoundTrip(kind, target, d)), Executed(s.b, kind, target, d, 0);
            && Ready(s') && s'.b == b
            && s'.w == match kind
                       case SpaceDown => if value == 1 then Worker(true, target, None) else s.w
                       case SpaceUp => Worker(false, NO_TARGET, None)
                       case WheelDown => s.w
  {
    hide Run, Executed;
    RunSeven(s, WorkerSubmit(kind, target), Protocol(Q.BeginDrain), Protocol(Q.Pop), Execute(d, 0),
             Protocol(Q.FinishOne), Protocol(Q.Pop), WorkerReturn);
  }

  /** Main result: a requested Space press reaches the game exactly if the target is active, no release is owed and
      the send is accepted; then the worker's flag says so, and Space is held for that target. */
  lemma PressTakenIff(steps: seq<Step>, target: TargetIdentity, d: I.Dispatch)
    requires Ready(Run(START, steps)) && !Run(START, steps).w.injected
    ensures var s := Run(START, steps);
            var s' := Run(s, RoundTrip(Q.SpaceDown, target, d));
            var taken := IsExpectedTargetActive(d.focus, target) && d.accepts(8) && !exists o: I.Slot :: s.b.pending[o];
            && s'.w == (if taken then Worker(true, target, None) else s.w)
            && s'.b.log == s.b.log + (if taken then [I.Accepted(4, true, target)] else [])
            && (taken ==> s'.b.held[4] && s'.b.owner[4] == target)
  {
    hide Run, Ok;
    var s := Run(START, steps);
    RunOk(steps);
    TripIs(s, Q.SpaceDown, target, d);
    assert Safety.Reachable(s.b) && (s.b.held[4] ==> s.b.pending[4]) by { OwedWhenIdle(s); }
    Effects.DownPresses(s.b, I.SPACE_SLOT, target, d, I.SPACE_SLOT);
  }

  lemma OwedWhenIdle(s: World)
    requires Ok(s) && s.w.waiting == None && !s.w.injected
    ensures Safety.Reachable(s.b) && (s.b.held[4] ==> s.b.pending[4])
  {
  }

  /** Main result: a requested Space release clears the worker's flag; a Space held for that target goes up exactly if
      the target is active and one of two sends is accepted, and is pending otherwise. */
  lemma ReleaseSettles(steps: seq<Step>, d: I.Dispatch)
    requires Ready(Run(START, steps)) && Run(START, steps).w.injected
    ensures var s := Run(START, steps);
            var s' := Run(s, RoundTrip(Q.SpaceUp, s.w.target, d));
            var goes := s.b.held[4] && s.b.owner[4] == s.w.target && Effects.CanRelease(4, s.w.target, d);
            && s'.w == Worker(false, NO_TARGET, None)
            && s'.b.log == s.b.log + (if goes then [I.Accepted(4, false, s.w.target)] else [])
            && s'.b.held[4] == (s.b.held[4] && !goes) && (s'.b.held[4] ==> s'.b.pending[4])
  {
    hide Run, Ok;
    var s := Run(START, steps);
    RunOk(steps);
    TripIs(s, Q.SpaceUp, s.w.target, d);
    assert Safety.Reachable(s.b) by { OkReachable(s); }
    Effects.UpReleases(s.b, I.SPACE_SLOT, s.w.target, d, I.SPACE_SLOT);
  }

  lemma OkReachable(s: World)
    requires Ok(s)
    ensures Safety.Reachable(s.b)
  {
  }

  /** Main result: the worker's own last release, once the queue is stopped, does the same directly. */
  lemma ShutdownReleases(steps: seq<Step>, d: I.Dispatch)
    requires var s := Run(START, steps); s.q.gate == Q.Free && !s.q.running && s.w.waiting == None && s.w.injected
    ensures var s := Run(START, steps);
            var s' := Apply(s, Shutdown(d));
            var goes := s.b.held[4] && s.b.owner[4] == s.w.target && Effects.CanRelease(4, s.w.target, d);
            && s'.w == Worker(false, NO_TARGET, None) && s'.q == s.q
            && s'.b.log == s.b.log + (if goes then [I.Accepted(4, false, s.w.target)] else [])
            && s'.b.held[4] == (s.b.held[4] && !goes) && (s'.b.held[4] ==> s'.b.pending[4])
  {
    hide Run, Ok;
    var s := Run(START, steps);
    RunOk(steps);
    OkReachable(s);
    Effects.UpReleases(s.b, I.SPACE_SLOT, s.w.target, d, I.SPACE_SLOT);
  }
}
