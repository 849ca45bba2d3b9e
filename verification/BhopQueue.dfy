/** The queue that hands the bhop worker's input requests to the thread owning the hook, as interleaved steps
    at the granularity of its two locks. The drain lock is a gate: a drain or a stop holds it from its first
    step to its last, while submitting and starting only take the queue lock. */
module BhopQueue {
  import opened TargetPlatform

  const MAX_QUEUED_REQUESTS := 1

  datatype Kind = SpaceDown | SpaceUp | WheelDown

  /** A request object; `completions` counts the times it was completed. */
  datatype Request = Request(kind: Kind, target: TargetIdentity, done: bool, executed: bool, result: nat,
        completions: nat)

  /** One call of the executor. */
  datatype Execution = Execution(id: nat, kind: Kind, target: TargetIdentity, value: nat)

  /** Who holds the drain lock and what it does next. */
  datatype Gate =
    | Free
    | Popping
    | Executing(id: nat)
    | Completing(id: nat, value: nat)
    | Marking
    | Swapping
    | Cancelling(ids: seq<nat>)

  datatype Queue = Queue(running: bool, requests: seq<Request>, queued: seq<nat>, gate: Gate, runs: seq<Execution>)

  const STOPPED: Queue := Queue(false, [], [], Free, [])

  datatype Step =
    | Submit(kind: Kind, target: TargetIdentity)
    | BeginDrain
    | Pop
    | Execute(value: nat)
    | FinishOne
    | BeginStop
    | Mark
    | Swap
    | CancelOne
    | EndStop
    | CommitStart

  function Complete(q: Queue, id: nat, executed: bool, result: nat): Queue
    requires id < |q.requests|
  {
    var r := q.requests[id];
    if r.done then q
    else q.(requests := q.requests[id := r.(done := true, executed := executed, result := result,
        completions := r.completions + 1)])
  }

  predicate Admits(q: Queue) {
    q.running && |q.queued| < MAX_QUEUED_REQUESTS
  }

  function Apply(q: Queue, step: Step): Queue {
    match step
    case Submit(kind, target) =>
      if !Admits(q) then q
      else q.(requests := q.requests + [Request(kind, target, false, false, 0, 0)], queued := q.queued + [|q.requests|])
    case BeginDrain => if q.gate == Free then q.(gate := Popping) else q
    case Pop =>
      if q.gate != Popping then q
      else if q.queued == [] then q.(gate := Free)
      else q.(gate := Executing(q.queued[0]), queued := q.queued[1..])
    case Execute(value) =>
      if q.gate.Executing? && q.gate.id < |q.requests| then
        var id := q.gate.id;
        q.(gate := Completing(id, value),
            runs := q.runs + [Execution(id, q.requests[id].kind, q.requests[id].target, value)])
      else q
    case FinishOne =>
      if q.gate.Completing? && q.gate.id < |q.requests|
      then Complete(q, q.gate.id, true, q.gate.value).(gate := Popping)
      else q
    case BeginStop => if q.gate == Free then q.(gate := Marking) else q
    case Mark => if q.gate == Marking then q.(running := false, gate := Swapping) else q
    case Swap => if q.gate == Swapping then q.(queued := [], gate := Cancelling(q.queued)) else q
    case CancelOne =>
      if q.gate.Cancelling? && q.gate.ids != [] && q.gate.ids[0] < |q.requests| then
        Complete(q, q.gate.ids[0], false, 0).(gate := Cancelling(q.gate.ids[1..]))
      else q
    case EndStop => if q.gate == Cancelling([]) then q.(gate := Free) else q
    case CommitStart => q.(running := true)
  }

  function Run(q: Queue, steps: seq<Step>): Queue {
    if steps == [] then q else Apply(Run(q, steps[..|steps| - 1]), steps[|steps| - 1])
  }

  // ---- The invariant ----

  /** Requests that are being cancelled by a stop. */
  function Cancelled(q: Queue): seq<nat> {
    if q.gate.Cancelling? then q.gate.ids else []
  }

  /** Whether the drain has taken the request and not finished it. */
  predicate InHand(q: Queue, id: nat) {
    (q.gate.Executing? || q.gate.Completing?) && q.gate.id == id
  }

  /** Queued and about-to-be-cancelled requests. */
  function Waiting(q: Queue): seq<nat> {
    Cancelled(q) + q.queued
  }

  ghost predicate Distinct(ids: seq<nat>) {
    forall i, j :: 0 <= i < j < |ids| ==> ids[i] != ids[j]
  }

  ghost predicate RanOnce(q: Queue, id: nat, value: nat)
    requires id < |q.requests|
  {
    exists n :: 0 <= n < |q.runs| && q.runs[n] == Execution(id, q.requests[id].kind, q.requests[id].target, value)
                && forall m :: 0 <= m < |q.runs| && q.runs[m].id == id ==> m == n
  }

  ghost predicate NeverRan(q: Queue, id: nat) {
    forall m :: 0 <= m < |q.runs| ==> q.runs[m].id != id
  }

  ghost predicate RequestOk(q: Queue, id: nat)
    requires id < |q.requests|
  {
    var r := q.requests[id];
    && (r.done ==>
          && id !in Waiting(q) && !InHand(q, id) && r.completions == 1
          && (if r.executed then RanOnce(q, id, r.result) else NeverRan(q, id)))
    && (!r.done ==> r.completions == 0 && !r.executed && (id in Waiting(q) || InHand(q, id)))
    && (id in Waiting(q) ==> !InHand(q, id) && NeverRan(q, id))
    && (q.gate == Executing(id) ==> NeverRan(q, id))
    && (InHand(q, id) && q.gate.Completing? ==> RanOnce(q, id, q.gate.value))
  }

  ghost predicate Ok(q: Queue) {
    && |q.queued| <= MAX_QUEUED_REQUESTS && Distinct(Waiting(q))
    && (forall i :: 0 <= i < |Waiting(q)| ==> Waiting(q)[i] < |q.requests|)
    && (q.gate.Executing? || q.gate.Completing? ==> q.gate.id < |q.requests|)
    && (forall m :: 0 <= m < |q.runs| ==> q.runs[m].id < |q.requests|)
    && (forall id :: 0 <= id < |q.requests| ==> RequestOk(q, id))
  }

  lemma TailOn(ids: seq<nat>, added: nat)
    requires Distinct(ids) && forall i :: 0 <= i < |ids| ==> ids[i] < added
    ensures Distinct(ids + [added]) && forall id :: id in ids + [added] <==> id in ids || id == added
  {
  }

  lemma HeadOff(ids: seq<nat>, rest: seq<nat>)
    requires Distinct(ids) && ids != [] && rest == ids[1..]
    ensures Distinct(rest) && ids[0] !in rest && ids[0] in ids
    ensures forall id :: id != ids[0] ==> (id in ids <==> id in rest)
    ensures forall i :: 0 <= i < |rest| ==> rest[i] == ids[i + 1]
  {
    assert ids == [ids[0]] + rest;
  }

  /** Whether a request ran depends only on the executor's log and on the request itself. */
  lemma RanStays(q: Queue, q': Queue, id: nat)
    requires id < |q.requests| <= |q'.requests| && q'.runs == q.runs
    requires q'.requests[id].kind == q.requests[id].kind && q'.requests[id].target == q.requests[id].target
    ensures forall value :: RanOnce(q', id, value) == RanOnce(q, id, value)
    ensures NeverRan(q', id) == NeverRan(q, id)
  {
  }

  lemma SubmitOk(q: Queue, kind: Kind, target: TargetIdentity)
    requires Ok(q) && Admits(q)
    ensures Ok(Apply(q, Submit(kind, target)))
  {
    hide RanOnce, NeverRan, Waiting, Distinct;
    var q', added := Apply(q, Submit(kind, target)), |q.requests|;
    assert Waiting(q') == Waiting(q) + [added] by {
      assert Cancelled(q') + q'.queued == Cancelled(q) + q.queued + [added];
      Unfolded(q);
      Unfolded(q');
    }
    TailOn(Waiting(q), added);
    assert NeverRan(q', added) by { Unran(q, q', added); }
    forall id | 0 <= id < |q'.requests| ensures RequestOk(q', id) {
      if id < added { assert RequestOk(q, id); RanStays(q, q', id); }
    }
  }

  lemma Unfolded(q: Queue)
    ensures Waiting(q) == Cancelled(q) + q.queued
  {
  }

  lemma Unran(q: Queue, q': Queue, added: nat)
    requires q'.runs == q.runs && forall m :: 0 <= m < |q.runs| ==> q.runs[m].id < added
    ensures NeverRan(q', added)
  {
  }

  lemma PopOk(q: Queue)
    requires Ok(q)
    ensures Ok(Apply(q, Pop))
  {
    hide RanOnce, NeverRan, Waiting, Distinct;
    var q' := Apply(q, Pop);
    Unfolded(q);
    Unfolded(q');
    if q.gate == Popping && q.queued != [] {
      assert Waiting(q) == q.queued && Waiting(q') == q.queued[1..];
      HeadOff(Waiting(q), Waiting(q'));
    } else {
      assert Waiting(q') == Waiting(q);
    }
    forall id | 0 <= id < |q'.requests| ensures RequestOk(q', id) { assert RequestOk(q, id); RanStays(q, q', id); }
  }

  lemma ExecuteOk(q: Queue, value: nat)
    requires Ok(q) && q.gate.Executing?
    ensures Ok(Apply(q, Execute(value)))
  {
    hide RanOnce, NeverRan, Waiting, Distinct;
    var q', e := Apply(q, Execute(value)), q.gate.id;
    Unfolded(q);
    Unfolded(q');
    assert RequestOk(q, e);
    RanNow(q, q', e, value);
    forall id | 0 <= id < |q'.requests| ensures RequestOk(q', id) {
      assert RequestOk(q, id);
      if id != e { RanElsewhere(q, q', id); }
    }
  }

  lemma RanNow(q: Queue, q': Queue, id: nat, value: nat)
    requires id < |q.requests| && q'.requests == q.requests && NeverRan(q, id)
    requires q'.runs == q.runs + [Execution(id, q.requests[id].kind, q.requests[id].target, value)]
    ensures RanOnce(q', id, value)
  {
    assert q'.runs[|q.runs|] == Execution(id, q.requests[id].kind, q.requests[id].target, value);
  }

  lemma RanElsewhere(q: Queue, q': Queue, id: nat)
    requires id < |q.requests| && q'.requests == q.requests && |q'.runs| == |q.runs| + 1
             && q'.runs[..|q.runs|] == q.runs
    requires q'.runs[|q.runs|].id != id
    ensures forall value :: RanOnce(q, id, value) ==> RanOnce(q', id, value)
    ensures NeverRan(q, id) ==> NeverRan(q', id)
  {
    forall m | 0 <= m < |q.runs| ensures q'.runs[m] == q.runs[m] { assert q'.runs[..|q.runs|][m] == q.runs[m]; }
    forall value | RanOnce(q, id, value) ensures RanOnce(q', id, value) {
      var n :| 0 <= n < |q.runs| && q.runs[n] == Execution(id, q.requests[id].kind, q.requests[id].target, value)
               && forall m :: 0 <= m < |q.runs| && q.runs[m].id == id ==> m == n;
      assert q'.runs[n] == q.runs[n];
    }
  }

  lemma FinishOk(q: Queue)
    requires Ok(q) && q.gate.Completing?
    ensures Ok(Apply(q, FinishOne))
  {
    var q', e := Apply(q, FinishOne), q.gate.id;
    assert Waiting(q') == Waiting(q);
    assert RequestOk(q, e);
    forall id | 0 <= id < |q'.requests| ensures RequestOk(q', id) { assert RequestOk(q, id); RanStays(q, q', id); }
  }

  lemma SwapOk(q: Queue)
    requires Ok(q) && q.gate == Swapping
    ensures Ok(Apply(q, Swap))
  {
    var q' := Apply(q, Swap);
    assert Waiting(q') == Waiting(q);
    forall id | 0 <= id < |q'.requests| ensures RequestOk(q', id) { assert RequestOk(q, id); RanStays(q, q', id); }
  }

  lemma CancelOk(q: Queue)
    requires Ok(q) && q.gate.Cancelling? && q.gate.ids != []
    ensures Ok(Apply(q, CancelOne))
  {
    hide RanOnce, NeverRan, Waiting, Distinct;
    Unfolded(q);
    assert Waiting(q)[0] == q.gate.ids[0];
    var q', c := Apply(q, CancelOne), q.gate.ids[0];
    Unfolded(q');
    assert Waiting(q') == Waiting(q)[1..];
    HeadOff(Waiting(q), Waiting(q'));
    assert RequestOk(q, c);
    forall id | 0 <= id < |q'.requests| ensures RequestOk(q', id) { assert RequestOk(q, id); RanStays(q, q', id); }
  }

  lemma GateOk(q: Queue, q': Queue)
    requires Ok(q) && q' == q.(gate := q'.gate, running := q'.running)
    requires Waiting(q') == Waiting(q) && !q'.gate.Executing? && !q'.gate.Completing? && !q.gate.Executing?
             && !q.gate.Completing?
    ensures Ok(q')
  {
    forall id | 0 <= id < |q'.requests| ensures RequestOk(q', id) { assert RequestOk(q, id); RanStays(q, q', id); }
  }

  lemma StepOk(q: Queue, step: Step)
    requires Ok(q)
    ensures Ok(Apply(q, step))
  {
    hide Ok, RequestOk;
    match step
    case Submit(kind, target) => if Admits(q) { SubmitOk(q, kind, target); }
    case Pop => PopOk(q);
    case Execute(value) => if q.gate.Executing? { ExecuteOk(q, value); }
    case FinishOne => if q.gate.Completing? { FinishOk(q); }
    case Swap => if q.gate == Swapping { SwapOk(q); }
    case CancelOne => if q.gate.Cancelling? && q.gate.ids != [] { CancelOk(q); }
    case CommitStart => StartOk(q);
    case _ => if Apply(q, step) != q { GateOk(q, Apply(q, step)); }
  }

  lemma StartOk(q: Queue)
    requires Ok(q)
    ensures Ok(q.(running := true))
  {
    var q' := q.(running := true);
    assert Waiting(q') == Waiting(q);
    forall id | 0 <= id < |q'.requests| ensures RequestOk(q', id) { assert RequestOk(q, id); RanStays(q, q', id); }
  }

  lemma {:induction false} RunOk(steps: seq<Step>)
    ensures Ok(Run(STOPPED, steps))
  {
    if steps != [] {
      RunOk(steps[..|steps| - 1]);
      StepOk(Run(STOPPED, steps[..|steps| - 1]), steps[|steps| - 1]);
    }
  }

  // ---- Main results ----

  /** Over all interleavings, every accepted request is waiting (queued, or taken over by a stop), in the hands of
      the drain, or done; it is done exactly when it was completed, which happened once; and it says it was
      executed exactly when the executor ran once with its kind and target and returned its result. */
  lemma RequestsAccountedFor(steps: seq<Step>, id: nat)
    requires id < |Run(STOPPED, steps).requests|
    ensures var q := Run(STOPPED, steps);
            var r := q.requests[id];
            && (r.done <==> id !in Waiting(q) && !InHand(q, id)) && !(id in Waiting(q) && InHand(q, id))
            && r.completions == (if r.done then 1 else 0)
            && (r.done ==> if r.executed then RanOnce(q, id, r.result) else NeverRan(q, id))
            && |q.queued| <= MAX_QUEUED_REQUESTS
  {
    RunOk(steps);
    assert RequestOk(Run(STOPPED, steps), id);
  }

  /** A done request never changes again. */
  lemma {:induction false} DoneForever(before: seq<Step>, after: seq<Step>, id: nat)
    requires id < |Run(STOPPED, before).requests| && Run(STOPPED, before).requests[id].done
    ensures var q := Run(Run(STOPPED, before), after);
            id < |q.requests| && q.requests[id] == Run(STOPPED, before).requests[id]
  {
    if after != [] { DoneForever(before, after[..|after| - 1], id); }
  }

  /** Nothing is queued, and no executor runs. */
  predicate Quiet(q: Queue) {
    !q.running && q.queued == [] && !q.gate.Executing? && !q.gate.Completing?
  }

  lemma QuietStep(q: Queue, step: Step)
    requires Quiet(q) && !step.CommitStart?
    ensures Quiet(Apply(q, step)) && Apply(q, step).runs == q.runs
  {
  }

  /** When Stop returns, and no Start has intervened since it marked the queue as not running, no executor is
      running, nothing is queued, and both stay so through every step until the next Start. */
  lemma {:induction false} StopIsFinal(before: seq<Step>, after: seq<Step>)
    requires var q := Run(STOPPED, before);
             q.gate == Cancelling([]) && !q.running
    requires forall i :: 0 <= i < |after| ==> !after[i].CommitStart?
    ensures var q := Apply(Run(STOPPED, before), EndStop);
            Quiet(q) && Quiet(Run(q, after)) && Run(q, after).runs == q.runs
  {
    SwappedEmpty(before);
    var q := Apply(Run(STOPPED, before), EndStop);
    if after != [] {
      StopIsFinal(before, after[..|after| - 1]);
      QuietStep(Run(q, after[..|after| - 1]), after[|after| - 1]);
    }
  }

  /** Once a stop has swapped the queue out, it stays empty while not running. */
  lemma {:induction false} SwappedEmpty(steps: seq<Step>)
    ensures var q := Run(STOPPED, steps);
            !q.running ==> q.queued == [] || q.gate == Swapping
  {
    if steps != [] { SwappedEmpty(steps[..|steps| - 1]); }
  }
}
