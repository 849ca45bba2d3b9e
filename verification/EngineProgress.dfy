/** A due timer that the engine awaits reaches its handler: after five rounds of the timer thread and a drain of the
    expiry queue no brake and no overlap is left waiting for it. */
module EngineProgress {
  import opened Keys
  import opened TargetPlatform
  import opened Engine
  import opened EngineInvariant
  import opened EngineRuns
  import T = Timers
  import P = TimerProgress

  // ---- The timer thread ----

  /** The thread queues what it has in hand and then takes n rounds. */
  function ThreadRounds(target: TargetIdentity, env: Env, n: nat): seq<Action> {
    if n == 0 then [Action(EnqueueTimer, target, env)]
    else
      ThreadRounds(target, env, n - 1)
      + [Action(PickTimer, target, env), Action(FireTimer, target, env), Action(EnqueueTimer, target, env)]
  }

  lemma RunStep(w: World, actions: seq<Action>, action: Action)
    ensures Run(w, actions + [action]) == Apply(Run(w, actions), action)
  {
    assert (actions + [action])[..|actions|] == actions;
  }

  lemma {:induction false} ThreadRoundsAre(w: World, target: TargetIdentity, env: Env, n: nat)
    ensures Run(w, ThreadRounds(target, env, n)) == w.(t := P.Rounds(T.Enqueue(w.t), env.now, n))
  {
    hide P.Round;
    if n == 0 {
      RunStep(w, [], Action(EnqueueTimer, target, env));
      assert [] + [Action(EnqueueTimer, target, env)] == ThreadRounds(target, env, 0);
    } else {
      ThreadRoundsAre(w, target, env, n - 1);
      ThreadRoundIs(w, ThreadRounds(target, env, n - 1), target, env);
    }
  }

  lemma ThreadRoundIs(w: World, before: seq<Action>, target: TargetIdentity, env: Env)
    ensures var w1 := Run(w, before);
            Run(w, before + [Action(PickTimer, target, env), Action(FireTimer, target, env),
                             Action(EnqueueTimer, target, env)]) == w1.(t := P.Round(w1.t, env.now))
  {
    hide T.Pick, T.Fire, T.Enqueue, Run;
    var pick, fire := Action(PickTimer, target, env), Action(FireTimer, target, env);
    var enqueue := Action(EnqueueTimer, target, env);
    RunStep(w, before, pick);
    RunStep(w, before + [pick], fire);
    RunStep(w, before + [pick] + [fire], enqueue);
    assert before + [pick, fire, enqueue] == before + [pick] + [fire] + [enqueue];
  }

  /** What the engine awaits is queued once it is due. */
  lemma DueIsQueued(w: World, k: Key, target: TargetIdentity, env: Env)
    requires Inv(w) && w.s.Key(k).expectedTimerId != 0
    requires w.t.slots[k].active && w.t.slots[k].id == w.s.Key(k).expectedTimerId ==> w.t.slots[k].expireUs <= env.now
    ensures var w' := Run(w, ThreadRounds(target, env, T.NUM_SLOTS));
            && w' == w.(t := w'.t) && T.Expired(k, w.s.Key(k).expectedTimerId) in w'.t.queue
            && |w'.t.queue| <= |w.t.queue| + T.NUM_SLOTS + 1
  {
    hide P.Rounds;
    assert KeyOk(w.s.At(KeyAxis(k)), w.t, w.b, KeyAxis(k), SideOf(k)) && TimersOk(w.t);
    var t1, id := T.Enqueue(w.t), w.s.Key(k).expectedTimerId;
    ThreadRoundsAre(w, target, env, T.NUM_SLOTS);
    P.EveryDueFires(t1, env.now, k);
    var queue := P.Rounds(t1, env.now, T.NUM_SLOTS).queue;
    if T.Expired(k, id) !in t1.queue {
      assert w.t.slots[k].active && w.t.slots[k].id == id && w.t.slots[k].key == k;
      assert T.Expired(k, id) in queue[|t1.queue|..];
    }
  }

  lemma {:induction false} ThreadKeepsInv(w: World, target: TargetIdentity, env: Env, n: nat)
    requires Inv(w)
    ensures Inv(Run(w, ThreadRounds(target, env, n)))
  {
    hide Inv, Apply;
    RunInv(w, ThreadRounds(target, env, n)) by { ThreadDisciplined(w, target, env, n); }
  }

  lemma {:induction false} ThreadDisciplined(w: World, target: TargetIdentity, env: Env, n: nat)
    ensures DisciplinedFrom(w, ThreadRounds(target, env, n))
  {
    FreeSteps(w, ThreadRounds(target, env, n)) by { OnlyThreadSteps(target, env, n); }
  }

  /** Steps that the discipline leaves free. */
  predicate Free(step: Step) {
    !step.KeyDown? && !step.KeyUp? && !step.Rebuild?
  }

  lemma {:induction false} OnlyThreadSteps(target: TargetIdentity, env: Env, n: nat)
    ensures forall i :: 0 <= i < |ThreadRounds(target, env, n)| ==> Free(ThreadRounds(target, env, n)[i].step)
  {
    if n > 0 { OnlyThreadSteps(target, env, n - 1); }
  }

  lemma {:induction false} FreeSteps(w: World, actions: seq<Action>)
    requires forall i :: 0 <= i < |actions| ==> Free(actions[i].step)
    ensures DisciplinedFrom(w, actions)
  {
    if actions != [] { FreeSteps(w, actions[..|actions| - 1]); }
  }

  // ---- The drain ----

  ghost predicate Drains(actions: seq<Action>) {
    forall i :: 0 <= i < |actions| ==> actions[i].step == Expire
  }

  /** One turn of the drain takes the head; a key stops awaiting its timer exactly if it is the head's. */
  lemma DrainStep(w: World, k: Key, env: Env)
    requires w.s.Key(k).expectedTimerId != 0
    ensures var w', id := DrainExpired(w, env), w.s.Key(k).expectedTimerId;
            && w'.t == T.Pop(w.t)
            && w'.s.Key(k).expectedTimerId ==
               if w.t.queue != [] && w.t.queue[0] == T.Expired(k, id) then 0 else id
  {
    hide Flush;
    if w.t.queue != [] {
      var e, w1 := w.t.queue[0], w.(t := T.Pop(w.t));
      if e.key < 4 && e.id != 0 && w.s.Key(e.key).expectedTimerId == e.id {
        var a := KeyAxis(e.key);
        var wk := ExpireTimer(Work(w.s.At(a), w1.t, Empty), w.mode, a, SideOf(e.key), w.s.suspended);
        ExpireTakes(Work(w.s.At(a), w1.t, Empty), w.mode, a, SideOf(e.key), w.s.suspended);
        FinishAt(w1, w.s, a, wk, w.s.Key(e.key).expectedTimerTarget, env);
      }
    }
  }

  lemma ExpireTakes(w: Work, mode: SocdMode, a: Axis, side: Side, suspended: bool)
    ensures var w' := ExpireTimer(w, mode, a, side, suspended);
            && w'.t == w.t && w'.r.Key(side).expectedTimerId == 0
            && w'.r.Key(Flip(side)).expectedTimerId == w.r.Key(Flip(side)).expectedTimerId
  {
  }

  lemma DrainPops(w: World, env: Env)
    ensures DrainExpired(w, env).t == T.Pop(w.t)
  {
    if w.s.Key(W).expectedTimerId != 0 { DrainStep(w, W, env); } else { DrainForgets(w, W, env); }
  }

  lemma DrainForgets(w: World, k: Key, env: Env)
    requires w.s.Key(k).expectedTimerId == 0
    ensures DrainExpired(w, env).s.Key(k).expectedTimerId == 0 && DrainExpired(w, env).t == T.Pop(w.t)
  {
    hide Flush;
    if w.t.queue != [] {
      var e, w1 := w.t.queue[0], w.(t := T.Pop(w.t));
      if e.key < 4 && e.id != 0 && w.s.Key(e.key).expectedTimerId == e.id {
        var a := KeyAxis(e.key);
        var wk := ExpireTimer(Work(w.s.At(a), w1.t, Empty), w.mode, a, SideOf(e.key), w.s.suspended);
        ExpireTakes(Work(w.s.At(a), w1.t, Empty), w.mode, a, SideOf(e.key), w.s.suspended);
        FinishAt(w1, w.s, a, wk, w.s.Key(e.key).expectedTimerTarget, env);
      }
    }
  }

  /** After n turns: the rest of the queue is left, and the key awaits its timer or its expiry was handled. */
  lemma {:induction false} DrainReaches(w: World, k: Key, drains: seq<Action>, n: nat)
    requires Drains(drains) && n <= |drains| && w.s.Key(k).expectedTimerId != 0
    ensures var w', id := Run(w, drains[..n]), w.s.Key(k).expectedTimerId;
            && w'.t.queue == w.t.queue[if n < |w.t.queue| then n else |w.t.queue|..]
            && (if exists m :: 0 <= m < n && m < |w.t.queue| && w.t.queue[m] == T.Expired(k, id)
                then w'.s.Key(k).expectedTimerId == 0
                else w'.s.Key(k).expectedTimerId == id)
  {
    hide DrainExpired;
    if n == 0 {
      assert drains[..0] == [];
    } else {
      DrainReaches(w, k, drains, n - 1);
      var w1 := Run(w, drains[..n - 1]);
      RunStep(w, drains[..n - 1], drains[n - 1]);
      assert drains[..n] == drains[..n - 1] + [drains[n - 1]];
      if w1.s.Key(k).expectedTimerId != 0 {
        DrainStep(w1, k, drains[n - 1].env);
      } else {
        DrainForgets(w1, k, drains[n - 1].env);
      }
    }
  }

  function FirstOf(queue: seq<T.Expired>, e: T.Expired): (m: nat)
    requires e in queue
    ensures m < |queue| && queue[m] == e && forall i :: 0 <= i < m ==> queue[i] != e
  {
    if queue[0] == e then 0
    else
      assert queue == [queue[0]] + queue[1..];
      FirstOf(queue[1..], e) + 1
  }

  /** Main result: from every state of every disciplined run, a due timer that a key awaits is handled within
      five rounds of the thread and one turn of the drain for each expiry; after that the key awaits nothing and is
      held only if it is physically down or its release is pending. */
  lemma DueTimerIsHandled(actions: seq<Action>, k: Key, target: TargetIdentity, env: Env, drains: seq<Action>)
    requires DisciplinedRun(actions) && Drains(drains)
    requires var w := Run(START, actions);
             && w.s.Key(k).expectedTimerId != 0 && |drains| >= |w.t.queue| + 6
             && (w.t.slots[k].active && w.t.slots[k].id == w.s.Key(k).expectedTimerId ==>
                   w.t.slots[k].expireUs <= env.now)
    ensures var w := Run(START, actions);
            var fired, id := Run(w, ThreadRounds(target, env, 5)), w.s.Key(k).expectedTimerId;
            && (exists m :: 0 <= m < |drains| &&
                  var before := Run(fired, drains[..m]);
                  && before.t.queue != [] && before.t.queue[0] == T.Expired(k, id)
                  && before.s.Key(k).expectedTimerId == id
                  && Run(fired, drains[..m + 1]) == OnTimerExpired(before.(t := T.Pop(before.t)), k, id, drains[m].env))
            && var w' := Run(fired, drains);
               && w'.s.Key(k).expectedTimerId == 0 && w'.t.queue == []
               && (w'.b.held[k] ==> w'.s.Key(k).phys || w'.b.pending[k])
  {
    hide Inv, OnTimerExpired, T.Live, Apply, DisciplinedFrom;
    var w := Run(START, actions);
    var fired, id := Run(w, ThreadRounds(target, env, 5)), w.s.Key(k).expectedTimerId;
    StartInv();
    RunInv(START, actions);
    DueIsQueued(w, k, target, env);
    ThreadKeepsInv(w, target, env, 5);
    var m := FirstOf(fired.t.queue, T.Expired(k, id));
    DrainReaches(fired, k, drains, m);
    HeadIsHandled(fired, k, id, drains, m);
    DrainReaches(fired, k, drains, |drains|);
    assert drains[..|drains|] == drains;
    FreeSteps(fired, drains);
    RunInv(fired, drains);
    InvNotStuck(Run(fired, drains), k);
  }

  lemma HeadIsHandled(w: World, k: Key, id: nat, drains: seq<Action>, m: nat)
    requires Drains(drains) && m < |drains|
    requires var before := Run(w, drains[..m]); before.t.queue != [] && before.t.queue[0] == T.Expired(k, id)
    ensures var before := Run(w, drains[..m]);
            Run(w, drains[..m + 1]) == OnTimerExpired(before.(t := T.Pop(before.t)), k, id, drains[m].env)
  {
    hide OnTimerExpired, Run;
    RunStep(w, drains[..m], drains[m]);
    assert drains[..m + 1] == drains[..m] + [drains[m]];
  }
}
