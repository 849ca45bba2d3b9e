/** The bhop queue at work: what it accepts is executed by the next drain, and a stop cancels the rest. */
module BhopProgress {
  import opened TargetPlatform
  import opened BhopQueue

  lemma RunStep(q: Queue, steps: seq<Step>, step: Step)
    ensures Run(q, steps + [step]) == Apply(Run(q, steps), step)
  {
    assert (steps + [step])[..|steps|] == steps;
  }

  lemma RunFour(q: Queue, a: Step, b: Step, c: Step, d: Step)
    ensures Run(q, [a, b, c, d]) == Apply(Apply(Apply(Apply(q, a), b), c), d)
  {
    hide Apply, Run;
    assert Run(q, []) == q by { RunNone(q); }
    RunStep(q, [], a);
    RunStep(q, [a], b);
    RunStep(q, [a, b], c);
    RunStep(q, [a, b, c], d);
    assert [] + [a] == [a] && [a] + [b] == [a, b] && [a, b] + [c] == [a, b, c] && [a, b, c] + [d] == [a, b, c, d];
  }

  lemma RunNone(q: Queue)
    ensures Run(q, []) == q
  {
  }

  lemma QueuedFresh(steps: seq<Step>)
    ensures var q := Run(STOPPED, steps);
            && |q.queued| <= 1
            && (q.gate == Free && q.queued != [] ==>
                  && q.queued[0] < |q.requests|
                  && !q.requests[q.queued[0]].done && q.requests[q.queued[0]].completions == 0)
  {
    var q := Run(STOPPED, steps);
    RunOk(steps);
    if q.gate == Free && q.queued != [] {
      assert Waiting(q)[0] == q.queued[0];
      assert RequestOk(q, q.queued[0]);
    }
  }

  /** Main result: a request is accepted exactly while the queue runs and none is queued. */
  lemma AcceptedIff(steps: seq<Step>, kind: Kind, target: TargetIdentity)
    ensures var q := Run(STOPPED, steps);
            var q' := Apply(q, Submit(kind, target));
            if q.running && q.queued == [] then
              q' == q.(requests := q.requests + [Request(kind, target, false, false, 0, 0)], queued := [|q.requests|])
            else q' == q
  {
    RunOk(steps);
  }

  /** The steps of a drain that finds one request. */
  function DrainOf(value: nat): seq<Step> {
    [BeginDrain, Pop, Execute(value), FinishOne, Pop]
  }

  /** Main result: while no drain or stop is under way, the next drain hands the queued request to the executor with
      its kind and target, once, completes it with the executor's result, and goes on until the queue is empty. */
  lemma DrainExecutes(steps: seq<Step>, value: nat)
    requires var q := Run(STOPPED, steps); q.gate == Free && q.queued != []
    ensures var q := Run(STOPPED, steps);
            var q', id := Run(q, DrainOf(value)), q.queued[0];
            && id < |q.requests|
            && q'.requests == q.requests[id := q.requests[id].(done := true, executed := true, result := value,
                                               completions := 1)]
            && q'.runs == q.runs + [Execution(id, q.requests[id].kind, q.requests[id].target, value)]
            && q'.queued == [] && q'.gate == Free && q'.running == q.running
            && Run(q, DrainOf(value)[..4]).gate == Popping
  {
    hide Run;
    var q := Run(STOPPED, steps);
    QueuedFresh(steps);
    RunFour(q, BeginDrain, Pop, Execute(value), FinishOne);
    RunStep(q, [BeginDrain, Pop, Execute(value), FinishOne], Pop);
    assert DrainOf(value) == [BeginDrain, Pop, Execute(value), FinishOne] + [Pop];
    assert DrainOf(value)[..4] == [BeginDrain, Pop, Execute(value), FinishOne];
  }

  /** The steps of a stop that finds `n` requests. */
  function StopOf(n: nat): seq<Step> {
    [BeginStop, Mark, Swap] + seq(n, _ => CancelOne) + [EndStop]
  }

  /** Starting accepts requests and does nothing else. */
  ghost predicate Started(q: Queue) {
    Apply(q, CommitStart) == q.(running := true)
  }

  /** Main result: a stop completes what is queued as not executed, runs nothing and accepts nothing more; a start
      accepts again. */
  lemma StopCancels(steps: seq<Step>)
    requires Run(STOPPED, steps).gate == Free
    ensures var q := Run(STOPPED, steps);
            var q' := Run(q, StopOf(|q.queued|));
            && !q'.running && q'.queued == [] && q'.gate == Free && q'.runs == q.runs
            && |q'.requests| == |q.requests|
            && (forall id :: 0 <= id < |q.requests| ==>
                  var r := q.requests[id];
                  q'.requests[id] == if id in q.queued
                                     then r.(done := true, executed := false, result := 0, completions := 1) else r)
            && Started(q')
  {
    hide Run, Complete;
    var q := Run(STOPPED, steps);
    QueuedFresh(steps);
    if q.queued == [] {
      assert StopOf(0) == [BeginStop, Mark, Swap, EndStop];
      RunFour(q, BeginStop, Mark, Swap, EndStop);
    } else {
      assert StopOf(1) == [BeginStop, Mark, Swap, CancelOne] + [EndStop];
      hide Apply;
      RunFour(q, BeginStop, Mark, Swap, CancelOne);
      RunStep(q, [BeginStop, Mark, Swap, CancelOne], EndStop);
      OneCancelled(q, q.queued[0]);
    }
  }

  lemma OneCancelled(q: Queue, id: nat)
    requires q.gate == Free && q.queued == [id] && id < |q.requests| && !q.requests[id].done
    requires q.requests[id].completions == 0
    ensures Apply(Apply(Apply(Apply(Apply(q, BeginStop), Mark), Swap), CancelOne), EndStop) ==
            q.(running := false, queued := [],
               requests := q.requests[id := q.requests[id].(done := true, executed := false, result := 0,
                                                            completions := 1)])
  {
  }
}
