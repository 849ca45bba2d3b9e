/** No lost wakeups between the hook that queues events and the message thread that drains them, step by
    step: the flag that says a wake message is on its way is set and cleared without a lock. */
module WakeGate {

  type Event = int

  datatype Producer = Idle | Pushed | MustPost

  /** The consumer drains, looks whether the queue is empty, clears the flag, looks again, and may have to
      set the flag back. */
  datatype Consumer = Waiting | Draining | FirstLook | Clearing | SecondLook | Resetting | Reposting

  datatype System = System(
    queue: seq<Event>, pending: bool, messages: nat, producer: Producer, consumer: Consumer,
    pushed: seq<Event>, popped: seq<Event>)

  const START: System := System([], false, 0, Idle, Waiting, [], [])

  datatype Step =
    | Push(event: Event)
    | RequestWake
    | ProducerPost
    | Receive
    | DirectDrain
    | Pop
    | EndPass
    | Look
    | Clear
    | LookAgain
    | SetAgain
    | ConsumerPost

  function Apply(s: System, step: Step): System {
    match step
    case Push(event) =>
      if s.producer == Idle then s.(queue := s.queue + [event], pushed := s.pushed + [event], producer := Pushed) else s
    case RequestWake =>
      if s.producer != Pushed then s
      else if s.pending then s.(producer := Idle)
      else s.(pending := true, producer := MustPost)
    case ProducerPost =>
      if s.producer == MustPost then s.(messages := s.messages + 1, producer := Idle) else s
    case Receive =>
      if s.consumer == Waiting && s.messages > 0 then s.(messages := s.messages - 1, consumer := Draining) else s
    case DirectDrain =>
      if s.consumer == Waiting then s.(consumer := Draining) else s
    case Pop =>
      if s.consumer == Draining && s.queue != [] then s.(queue := s.queue[1..], popped := s.popped + [s.queue[0]])
          else s
    case EndPass =>
      if s.consumer == Draining then s.(consumer := FirstLook) else s
    case Look =>
      if s.consumer != FirstLook then s
      else s.(consumer := if s.queue != [] then Reposting else Clearing)
    case Clear =>
      if s.consumer == Clearing then s.(pending := false, consumer := SecondLook) else s
    case LookAgain =>
      if s.consumer != SecondLook then s
      else s.(consumer := if s.queue == [] then Waiting else Resetting)
    case SetAgain =>
      if s.consumer != Resetting then s
      else if s.pending then s.(consumer := Waiting)
      else s.(pending := true, consumer := Reposting)
    case ConsumerPost =>
      if s.consumer == Reposting then s.(messages := s.messages + 1, consumer := Waiting) else s
  }

  function Run(s: System, steps: seq<Step>): System {
    if steps == [] then s else Apply(Run(s, steps[..|steps| - 1]), steps[|steps| - 1])
  }

  /** A set flag means that a message is outstanding or that somebody will still post or clear; a clear flag
      over a non-empty queue means that somebody will still look at it. */
  ghost predicate Ok(s: System) {
    && (s.pending ==> s.messages > 0 || s.producer == MustPost
                      || s.consumer in {Draining, FirstLook, Clearing, Reposting})
    && (!s.pending && s.queue != [] ==> s.producer == Pushed || s.consumer == SecondLook || s.consumer == Resetting)
    && s.pushed == s.popped + s.queue
  }

  lemma StepOk(s: System, step: Step)
    requires Ok(s)
    ensures Ok(Apply(s, step))
  {
    if step.Pop? && s.consumer == Draining && s.queue != [] {
      assert s.queue == [s.queue[0]] + s.queue[1..];
    }
  }

  lemma {:induction false} RunOk(steps: seq<Step>)
    ensures Ok(Run(START, steps))
  {
    if steps != [] {
      RunOk(steps[..|steps| - 1]);
      StepOk(Run(START, steps[..|steps| - 1]), steps[|steps| - 1]);
    }
  }

  /** Main result: whenever events are queued and neither side is at work, a wake message is outstanding,
      whether the queue was drained for messages or directly; and events leave in the order they came. */
  lemma NoLostWakeup(steps: seq<Step>)
    ensures var s := Run(START, steps);
            && (s.queue != [] && s.producer == Idle && s.consumer == Waiting ==> s.messages > 0)
            && s.popped <= s.pushed && s.pushed == s.popped + s.queue
  {
    RunOk(steps);
  }

  // ---- Progress ----

  lemma RunStep(s: System, steps: seq<Step>, step: Step)
    ensures Run(s, steps + [step]) == Apply(Run(s, steps), step)
  {
    assert (steps + [step])[..|steps|] == steps;
  }

  /** Main result: an event pushed while the producer is at rest is queued last, and then a wake message is on its
      way: the one that already was, or exactly one more. */
  lemma PushWakes(s: System, event: Event)
    requires s.producer == Idle
    ensures var s' := Run(s, [Push(event), RequestWake, ProducerPost]);
            && s' == s.(queue := s.queue + [event], pushed := s.pushed + [event], pending := true,
                        messages := if s.pending then s.messages else s.messages + 1)
  {
    hide Apply;
    RunStep(s, [Push(event), RequestWake], ProducerPost);
    RunStep(s, [Push(event)], RequestWake);
    RunStep(s, [], Push(event));
    assert [] + [Push(event)] == [Push(event)] && [Push(event)] + [RequestWake] == [Push(event), RequestWake];
    assert [Push(event), RequestWake] + [ProducerPost] == [Push(event), RequestWake, ProducerPost];
    PushIs(s, event);
  }

  lemma PushIs(s: System, event: Event)
    requires s.producer == Idle
    ensures Apply(Apply(Apply(s, Push(event)), RequestWake), ProducerPost) ==
            s.(queue := s.queue + [event], pushed := s.pushed + [event], pending := true,
               messages := if s.pending then s.messages else s.messages + 1)
  {
  }

  /** A pass over n events. */
  function Pops(n: nat): seq<Step> {
    seq(n, _ => Pop)
  }

  lemma {:induction false} PopsAre(s: System, before: seq<Step>, n: nat)
    requires var s0 := Run(s, before); s0.consumer == Draining && n <= |s0.queue|
    ensures var s0 := Run(s, before);
            Run(s, before + Pops(n)) == s0.(queue := s0.queue[n..], popped := s0.popped + s0.queue[..n])
  {
    if n == 0 {
      assert before + Pops(0) == before;
    } else {
      PopsAre(s, before, n - 1);
      RunStep(s, before + Pops(n - 1), Pop);
      assert before + Pops(n) == before + Pops(n - 1) + [Pop];
      var s0 := Run(s, before);
      assert s0.queue[..n] == s0.queue[..n - 1] + [s0.queue[n - 1]];
    }
  }

  /** Main result: a wake message that arrives while both sides are at rest empties the queue: every pushed event has
      been handled, the flag is clear and the consumer waits again. */
  lemma WokenDrains(steps: seq<Step>)
    requires var s := Run(START, steps); s.producer == Idle && s.consumer == Waiting && s.messages > 0
    ensures var s := Run(START, steps);
            var s' := Run(s, [Receive] + Pops(|s.queue|) + [EndPass] + [Look] + [Clear] + [LookAgain]);
            s' == s.(queue := [], popped := s.pushed, pending := false, messages := s.messages - 1)
  {
    hide Run;
    var s := Run(START, steps);
    RunOk(steps);
    RunStep(s, [], Receive);
    assert Run(s, []) == s by { RunNone(s); }
    assert [] + [Receive] == [Receive];
    var n := |s.queue|;
    PopsAre(s, [Receive], n);
    RunStep(s, [Receive] + Pops(n), EndPass);
    RunStep(s, [Receive] + Pops(n) + [EndPass], Look);
    RunStep(s, [Receive] + Pops(n) + [EndPass] + [Look], Clear);
    RunStep(s, [Receive] + Pops(n) + [EndPass] + [Look] + [Clear], LookAgain);
    assert s.queue[n..] == [] && s.queue[..n] == s.queue;
  }

  lemma RunNone(s: System)
    ensures Run(s, []) == s
  {
  }
}
