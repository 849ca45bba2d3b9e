/** The bhop request queue as the object it is: request objects completed in place, and the whole calls that
    module BhopQueue takes apart into steps. */
module BhopInjectionQueue {
  import opened TargetPlatform
  import Q = BhopQueue

  class Request {
    const kind: Q.Kind
    const target: TargetIdentity
    var done: bool
    var executed: bool
    var result: nat

    constructor (kind: Q.Kind, target: TargetIdentity)
      ensures this.kind == kind && this.target == target && !done && !executed && result == 0
    {
      this.kind, this.target, done, executed, result := kind, target, false, false, 0;
    }

    /** The first completion counts; later ones change nothing. */
    method Complete(executed: bool, result: nat)
      modifies this
      ensures done
      ensures if old(done) then this.executed == old(this.executed) && this.result == old(this.result)
              else this.executed == executed && this.result == result
    {
      if done { return; }
      this.executed, this.result, done := executed, result, true;
    }
  }

  /** One call of the executor, and what it returned. */
  datatype Execution = Execution(kind: Q.Kind, target: TargetIdentity, value: nat)

  class BhopInjectionQueue {
    var queue: seq<Request>
    var running: bool

    /** What waits in the queue is not done, and waits once. */
    ghost predicate Valid()
      reads this, queue
    {
      |queue| <= Q.MAX_QUEUED_REQUESTS && forall i :: 0 <= i < |queue| ==> !queue[i].done
    }

    constructor ()
      ensures Valid() && queue == [] && !running
    {
      queue, running := [], false;
    }

    /** The part of a submission under the queue lock: the caller then waits for the request to be done. */
    method Enqueue(kind: Q.Kind, target: TargetIdentity) returns (request: Request?)
      requires Valid()
      modifies this`queue
      ensures Valid()
      ensures (request != null) == (old(running) && |old(queue)| < Q.MAX_QUEUED_REQUESTS)
      ensures request == null ==> queue == old(queue)
      ensures request != null ==>
                fresh(request) && queue == old(queue) + [request] && request.kind == kind && request.target == target
                  && !request.done
    {
      if !running || |queue| >= Q.MAX_QUEUED_REQUESTS { return null; }
      request := new Request(kind, target);
      queue := queue + [request];
    }

    /** Execute and complete everything queued; `execute(n)` is what the n-th call of the executor returns. */
    method Drain(execute: nat -> nat) returns (executions: seq<Execution>)
      requires Valid()
      modifies this`queue, queue
      ensures Valid() && queue == [] && |executions| == |old(queue)|
      ensures forall i :: 0 <= i < |old(queue)| ==>
                var r := old(queue)[i];
                r.done && r.executed && executions[i] == Execution(r.kind, r.target, r.result) && r.result == execute(i)
    {
      executions := [];
      ghost var all := queue;
      while queue != []
        invariant |all| <= 1 && Valid() && |executions| <= |all| && queue == all[|executions|..]
        invariant forall i :: 0 <= i < |executions| ==>
                    all[i].done && all[i].executed
                      && executions[i] == Execution(all[i].kind, all[i].target, all[i].result)
                    && all[i].result == execute(i)
        decreases |queue|
      {
        var request := queue[0];
        queue := queue[1..];
        var value := execute(|executions|);
        request.Complete(true, value);
        executions := executions + [Execution(request.kind, request.target, value)];
      }
    }

    /** Stop accepting, and complete what was queued as not executed. */
    method Stop()
      requires Valid()
      modifies this, queue
      ensures Valid() && queue == [] && !running
      ensures forall i :: 0 <= i < |old(queue)| ==>
              old(queue)[i].done && !old(queue)[i].executed && old(queue)[i].result == 0
    {
      running := false;
      var cancelled := queue;
      queue := [];
      for i := 0 to |cancelled|
        invariant forall j :: 0 <= j < i ==> cancelled[j].done && !cancelled[j].executed && cancelled[j].result == 0
        invariant forall j :: i <= j < |cancelled| ==> !cancelled[j].done
        invariant queue == [] && !running && |cancelled| <= 1
      {
        cancelled[i].Complete(false, 0);
      }
    }

    method Start()
      requires Valid()
      modifies this, queue
      ensures Valid() && queue == [] && running
      ensures forall i :: 0 <= i < |old(queue)| ==> old(queue)[i].done && !old(queue)[i].executed
    {
      Stop();
      running := true;
    }
  }
}
