/** The seqlocks that publish the target, the configuration and the engine state: writers serialised by a
    mutex, any number of words, any number of readers, every shared access one step. A reader runs either the
    do-while form, whose `continue` jumps to the loop condition, or the while-true form. */
module Seqlock {

  type Word = int
  type Value = seq<Word>

  datatype Writer = Idle | Writing(value: Value, stored: nat)

  datatype Form = DoWhile | WhileTrue

  /** Where a reader is in its loop. */
  datatype Pc = LoadBefore | LoadWord(next: nat) | LoadAfter | Test

  /** A value a reader returned, its version, and the steps at which its sequence numbers were read. */
  datatype Accepted = Accepted(value: Value, version: nat, from: nat, to: nat)

  datatype Reader = Reader(form: Form, pc: Pc, before: nat, after: nat, buffer: Value, from: nat, to: nat,
        accepted: seq<Accepted>)

  /** `history` holds every published value, the initial one first; `clock` counts the steps taken. */
  datatype System = System(sequence: nat, memory: Value, writer: Writer, readers: seq<Reader>, history: seq<Value>,
        clock: nat)

  datatype Step =
    | BeginStore(value: Value)
    | StoreWord
    | EndStore
    | Read(reader: nat)

  function FreshReader(form: Form): Reader {
    Reader(form, LoadBefore, 0, 0, [], 0, 0, [])
  }

  function Start(initial: Value, forms: seq<Form>): System {
    System(0, initial, Idle, seq(|forms|, i requires 0 <= i < |forms| => FreshReader(forms[i])), [initial], 0)
  }

  predicate Odd(n: nat) {
    n % 2 == 1
  }

  /** Return the buffer and start over for the next call. */
  function Accept(r: Reader): Reader {
    r.(accepted := r.accepted + [Accepted(r.buffer, r.before / 2, r.from, r.to)], pc := LoadBefore)
  }

  function ReadStep(s: System, r: Reader): Reader {
    match r.pc
    case LoadBefore =>
      var r := r.(before := s.sequence, from := s.clock, buffer := []);
      if !Odd(s.sequence) then r.(pc := LoadWord(0))
      else if r.form == DoWhile then r.(pc := Test)
      else r
    case LoadWord(i) =>
      if i < |s.memory| then r.(buffer := r.buffer + [s.memory[i]], pc := LoadWord(i + 1)) else r.(pc := LoadAfter)
    case LoadAfter =>
      var r := r.(after := s.sequence, to := s.clock);
      if r.form == DoWhile then r.(pc := Test)
      else if r.before == r.after then Accept(r) else r.(pc := LoadBefore)
    case Test =>
      if r.before != r.after || Odd(r.after) then r.(pc := LoadBefore) else Accept(r)
  }

  function Effect(s: System, step: Step): System {
    match step
    case BeginStore(value) =>
      if s.writer.Idle? && |value| == |s.memory| then s.(sequence := s.sequence + 1, writer := Writing(value, 0)) else s
    case StoreWord =>
      if s.writer.Writing? && s.writer.stored < |s.memory| && |s.writer.value| == |s.memory| then
        var i := s.writer.stored;
        s.(memory := s.memory[i := s.writer.value[i]], writer := Writing(s.writer.value, i + 1))
      else s
    case EndStore =>
      if s.writer.Writing? && s.writer.stored == |s.memory| then
        s.(sequence := s.sequence + 1, writer := Idle, history := s.history + [s.writer.value])
      else s
    case Read(i) =>
      if i < |s.readers| then s.(readers := s.readers[i := ReadStep(s, s.readers[i])]) else s
  }

  function Apply(s: System, step: Step): System {
    Effect(s, step).(clock := s.clock + 1)
  }

  function Run(s: System, steps: seq<Step>): System {
    if steps == [] then s else Apply(Run(s, steps[..|steps| - 1]), steps[|steps| - 1])
  }

  // ---- The invariant ----

  function Version(s: System): nat {
    s.sequence / 2
  }

  ghost predicate MemoryOk(s: System) {
    && |s.history| == Version(s) + 1
    && |s.history[Version(s)]| == |s.memory|
    && match s.writer
       case Idle => !Odd(s.sequence) && s.memory == s.history[Version(s)]
       case Writing(value, stored) =>
         && Odd(s.sequence) && |value| == |s.memory| && stored <= |s.memory|
         && s.memory == value[..stored] + s.history[Version(s)][stored..]
  }

  ghost predicate AcceptedOk(s: System, a: Accepted) {
    a.version < |s.history| && a.value == s.history[a.version] && a.from <= a.to <= s.clock
  }

  ghost predicate AllAccepted(s: System, accepted: seq<Accepted>) {
    forall j :: 0 <= j < |accepted| ==> AcceptedOk(s, accepted[j])
  }

  /** The version of the last value returned, or 0. */
  function Last(r: Reader): nat {
    if r.accepted == [] then 0 else r.accepted[|r.accepted| - 1].version
  }

  ghost predicate Ascending(accepted: seq<Accepted>) {
    forall i, j :: 0 <= i <= j < |accepted| ==> accepted[i].version <= accepted[j].version
  }

  /** While the sequence number is still the one read first, the words read are those of its version. */
  ghost predicate ReadingOk(s: System, r: Reader, i: nat) {
    && !Odd(r.before) && |r.buffer| == i <= |s.memory|
    && (r.before == s.sequence ==> r.buffer == s.memory[..i])
  }

  ghost predicate ReaderOk(s: System, r: Reader) {
    && AllAccepted(s, r.accepted) && Ascending(r.accepted) && 2 * Last(r) <= s.sequence
    && r.from <= s.clock && r.before <= s.sequence
    && (r.pc != LoadBefore ==> 2 * Last(r) <= r.before)
    && (r.pc.LoadWord? ==> ReadingOk(s, r, r.pc.next))
    && (r.pc.LoadAfter? ==> ReadingOk(s, r, |s.memory|))
    && (r.pc.Test? && r.before == r.after && !Odd(r.before) ==>
          r.from <= r.to <= s.clock && r.before / 2 < |s.history| && r.buffer == s.history[r.before / 2])
  }

  ghost predicate Ok(s: System) {
    MemoryOk(s) && forall i :: 0 <= i < |s.readers| ==> ReaderOk(s, s.readers[i])
  }

  lemma StoreOk(s: System, step: Step)
    requires MemoryOk(s) && !step.Read?
    ensures var s' := Apply(s, step);
            && MemoryOk(s') && s'.sequence >= s.sequence && s.history <= s'.history && |s'.memory| == |s.memory|
            && s'.readers == s.readers && s'.clock == s.clock + 1
            && (s'.sequence == s.sequence && !Odd(s.sequence) ==> s'.memory == s.memory)
  {
    match step
    case StoreWord =>
      if s.writer.Writing? && s.writer.stored < |s.memory| {
        var i, value := s.writer.stored, s.writer.value;
        assert s.memory[i := value[i]] == value[..i + 1] + s.history[Version(s)][i + 1..];
      }
    case EndStore =>
      if s.writer.Writing? && s.writer.stored == |s.memory| {
        assert s.memory == s.writer.value;
      }
    case _ =>
  }

  lemma ReaderStays(s: System, s': System, r: Reader)
    requires MemoryOk(s) && MemoryOk(s') && ReaderOk(s, r)
    requires s'.sequence >= s.sequence && s.history <= s'.history && |s'.memory| == |s.memory| && s'.clock >= s.clock
    requires s'.sequence == s.sequence && !Odd(s.sequence) ==> s'.memory == s.memory
    ensures ReaderOk(s', r)
  {
  }

  lemma AcceptOk(s: System, r: Reader)
    requires AllAccepted(s, r.accepted) && Ascending(r.accepted) && 2 * Last(r) <= r.before <= s.sequence
    requires AcceptedOk(s, Accepted(r.buffer, r.before / 2, r.from, r.to))
    ensures var r' := Accept(r); AllAccepted(s, r'.accepted) && Ascending(r'.accepted) && 2 * Last(r') <= s.sequence
  {
    var r' := Accept(r);
    forall i, j | 0 <= i <= j < |r'.accepted| ensures r'.accepted[i].version <= r'.accepted[j].version {
      if i < |r.accepted| { assert r.accepted[i].version <= Last(r); }
    }
  }

  lemma ReadOk(s: System, r: Reader)
    requires MemoryOk(s) && ReaderOk(s, r)
    ensures ReaderOk(s, ReadStep(s, r))
  {
    match r.pc
    case LoadBefore =>
    case LoadWord(i) =>
      if i < |s.memory| { assert s.memory[..i + 1] == s.memory[..i] + [s.memory[i]]; }
    case LoadAfter =>
      assert s.memory[..|s.memory|] == s.memory;
      if r.form == WhileTrue && r.before == s.sequence { AcceptOk(s, r.(after := s.sequence, to := s.clock)); }
    case Test =>
      if r.before == r.after && !Odd(r.after) { AcceptOk(s, r); }
  }

  lemma StepOk(s: System, step: Step)
    requires Ok(s)
    ensures Ok(Apply(s, step))
  {
    hide ReadStep, ReaderOk, MemoryOk;
    var s' := Apply(s, step);
    StepMemory(s, step);
    forall k | 0 <= k < |s'.readers| ensures ReaderOk(s', s'.readers[k]) {
      if step.Read? && k == step.reader {
        ReadOk(s, s.readers[k]);
        ReaderStays(s, s', ReadStep(s, s.readers[k]));
      } else {
        ReaderStays(s, s', s.readers[k]);
      }
    }
  }

  lemma StepMemory(s: System, step: Step)
    requires MemoryOk(s)
    ensures var s' := Apply(s, step);
            && MemoryOk(s') && s'.sequence >= s.sequence && s.history <= s'.history && |s'.memory| == |s.memory|
            && (s'.sequence == s.sequence && !Odd(s.sequence) ==> s'.memory == s.memory)
  {
    if !step.Read? { StoreOk(s, step); }
  }

  // ---- Runs ----

  lemma StartOk(initial: Value, forms: seq<Form>)
    ensures Ok(Start(initial, forms))
  {
  }

  lemma {:induction false} RunOk(initial: Value, forms: seq<Form>, steps: seq<Step>)
    ensures Ok(Run(Start(initial, forms), steps)) && Run(Start(initial, forms), steps).clock == |steps|
  {
    if steps == [] {
      StartOk(initial, forms);
    } else {
      RunOk(initial, forms, steps[..|steps| - 1]);
      StepOk(Run(Start(initial, forms), steps[..|steps| - 1]), steps[|steps| - 1]);
    }
  }

  lemma RunPrefix(s: System, steps: seq<Step>, n: nat)
    requires 0 < n <= |steps|
    ensures Run(s, steps[..n]) == Apply(Run(s, steps[..n - 1]), steps[n - 1])
  {
    assert steps[..n][..n - 1] == steps[..n - 1];
  }

  lemma {:induction false} MemoryStaysOk(s: System, steps: seq<Step>, n: nat)
    requires MemoryOk(s) && n <= |steps|
    ensures MemoryOk(Run(s, steps[..n]))
    decreases n
  {
    hide MemoryOk, Apply;
    if n > 0 {
      MemoryStaysOk(s, steps, n - 1);
      RunPrefix(s, steps, n);
      StepMemory(Run(s, steps[..n - 1]), steps[n - 1]);
    }
  }

  lemma {:induction false} SequenceGrows(s: System, steps: seq<Step>, m: nat, n: nat)
    requires MemoryOk(s) && m <= n <= |steps|
    ensures Run(s, steps[..m]).sequence <= Run(s, steps[..n]).sequence
            && Run(s, steps[..m]).history <= Run(s, steps[..n]).history
    decreases n
  {
    hide MemoryOk, Apply, Run;
    if m < n {
      SequenceGrows(s, steps, m, n - 1);
      MemoryStaysOk(s, steps, n - 1);
      RunPrefix(s, steps, n);
      StepMemory(Run(s, steps[..n - 1]), steps[n - 1]);
    }
  }

  // ---- What a reader saw, and when ----

  /** The sequence number that both reads of an accepted value returned. */
  ghost predicate SeenAt(s: System, steps: seq<Step>, a: Accepted) {
    a.from <= a.to <= |steps| && Run(s, steps[..a.from]).sequence == Run(s, steps[..a.to]).sequence == 2 * a.version
  }

  ghost predicate SeenBy(s: System, steps: seq<Step>, r: Reader) {
    && r.from <= |steps| && r.to <= |steps|
    && (r.pc != LoadBefore ==> Run(s, steps[..r.from]).sequence == r.before)
    && (r.pc.Test? && r.before == r.after && !Odd(r.before) ==>
         r.from <= r.to && Run(s, steps[..r.to]).sequence == r.after)
    && (forall j :: 0 <= j < |r.accepted| ==> SeenAt(s, steps, r.accepted[j]))
  }

  lemma SeenLater(s: System, steps: seq<Step>, step: Step, r: Reader)
    requires SeenBy(s, steps, r)
    ensures SeenBy(s, steps + [step], r)
  {
    hide Run;
    var steps' := steps + [step];
    forall n | 0 <= n <= |steps| ensures steps'[..n] == steps[..n] {}
    forall j | 0 <= j < |r.accepted| ensures SeenAt(s, steps', r.accepted[j]) {
      assert SeenAt(s, steps, r.accepted[j]);
    }
  }

  lemma SeenOnAccept(s: System, steps: seq<Step>, r: Reader)
    requires forall j :: 0 <= j < |r.accepted| ==> SeenAt(s, steps, r.accepted[j])
    requires r.from <= r.to <= |steps| && !Odd(r.before)
    requires Run(s, steps[..r.from]).sequence == Run(s, steps[..r.to]).sequence == r.before
    ensures SeenBy(s, steps, Accept(r))
  {
  }

  lemma SeenRead(s: System, steps: seq<Step>, r: Reader)
    requires var now := Run(s, steps); MemoryOk(now) && ReaderOk(now, r) && now.clock == |steps|
    requires SeenBy(s, steps, r)
    ensures SeenBy(s, steps, ReadStep(Run(s, steps), r))
  {
    hide Run, MemoryOk;
    var now := Run(s, steps);
    assert steps[..|steps|] == steps;
    match r.pc
    case LoadAfter =>
      if r.form == WhileTrue && r.before == now.sequence {
        SeenOnAccept(s, steps, r.(after := now.sequence, to := now.clock));
      }
    case Test =>
      if r.before == r.after && !Odd(r.after) { SeenOnAccept(s, steps, r); }
    case _ =>
  }

  lemma {:induction false} RunSeen(initial: Value, forms: seq<Form>, steps: seq<Step>, i: nat)
    requires i < |forms|
    ensures var s := Start(initial, forms);
            |Run(s, steps).readers| == |forms| && SeenBy(s, steps, Run(s, steps).readers[i])
  {
    var s := Start(initial, forms);
    if steps != [] {
      var before, last := steps[..|steps| - 1], steps[|steps| - 1];
      RunSeen(initial, forms, before, i);
      RunOk(initial, forms, before);
      var now := Run(s, before);
      assert before + [last] == steps;
      SeenStep(s, before, now, last, i);
    }
  }

  lemma SeenStep(s: System, before: seq<Step>, now: System, last: Step, i: nat)
    requires now == Run(s, before) && Ok(now) && now.clock == |before| && i < |now.readers|
             && SeenBy(s, before, now.readers[i])
    ensures |Apply(now, last).readers| == |now.readers| && SeenBy(s, before + [last], Apply(now, last).readers[i])
  {
    hide Run, SeenBy, ReadStep, MemoryOk, ReaderOk;
    assert ReaderOk(now, now.readers[i]);
    SeenLater(s, before, last, now.readers[i]);
    SeenRead(s, before, now.readers[i]);
    SeenLater(s, before, last, ReadStep(now, now.readers[i]));
  }

  // ---- Main results ----

  /** Every value a reader accepts is one completely published value, and in every state from its first
      sequence read to its second no writer was at work and memory held exactly that value. */
  lemma AcceptedWasCurrent(initial: Value, forms: seq<Form>, steps: seq<Step>, i: nat, j: nat, m: nat)
    requires i < |Run(Start(initial, forms), steps).readers|
    requires j < |Run(Start(initial, forms), steps).readers[i].accepted|
    requires var a := Run(Start(initial, forms), steps).readers[i].accepted[j]; a.from <= m <= a.to
    ensures var end := Run(Start(initial, forms), steps);
            var a := end.readers[i].accepted[j];
            && a.version < |end.history| && a.value == end.history[a.version]
            && m <= |steps|
            && var during := Run(Start(initial, forms), steps[..m]);
               during.writer.Idle? && during.memory == a.value && Version(during) == a.version
  {
    hide Apply, ReaderOk;
    var s := Start(initial, forms);
    RunOk(initial, forms, steps);
    ReaderCount(initial, forms, steps);
    RunSeen(initial, forms, steps, i);
    var end := Run(s, steps);
    var a := end.readers[i].accepted[j];
    assert AcceptedOk(end, a) by { AcceptedAt(end, i, j); }
    assert SeenAt(s, steps, a);
    assert MemoryOk(s) by { StartOk(initial, forms); }
    SequenceGrows(s, steps, a.from, m);
    SequenceGrows(s, steps, m, a.to);
    SequenceGrows(s, steps, m, |steps|);
    assert steps[..|steps|] == steps;
    MemoryStaysOk(s, steps, m);
  }

  lemma AcceptedAt(s: System, i: nat, j: nat)
    requires Ok(s) && i < |s.readers| && j < |s.readers[i].accepted|
    ensures AcceptedOk(s, s.readers[i].accepted[j])
  {
    assert ReaderOk(s, s.readers[i]);
  }

  lemma ReaderCount(initial: Value, forms: seq<Form>, steps: seq<Step>)
    ensures |Run(Start(initial, forms), steps).readers| == |forms|
  {
  }

  /** The versions one reader accepts never go backwards. */
  lemma VersionsNeverGoBack(initial: Value, forms: seq<Form>, steps: seq<Step>, i: nat, j: nat, k: nat)
    requires i < |Run(Start(initial, forms), steps).readers|
    requires j <= k < |Run(Start(initial, forms), steps).readers[i].accepted|
    ensures var accepted := Run(Start(initial, forms), steps).readers[i].accepted;
            accepted[j].version <= accepted[k].version
  {
    RunOk(initial, forms, steps);
    assert ReaderOk(Run(Start(initial, forms), steps), Run(Start(initial, forms), steps).readers[i]);
  }

  /** The `continue` of the do-while form cannot leave the loop: at the loop condition after it, the first
      sequence number is odd, and no odd number passes the condition, whatever an earlier round left in `after`. */
  lemma ContinueNeverExits(s: System, r: Reader)
    requires r.form == DoWhile && r.pc == LoadBefore && Odd(s.sequence)
    ensures var r1 := ReadStep(s, r);
            && r1.pc == Test
            && forall s': System :: ReadStep(s', r1).pc == LoadBefore && ReadStep(s', r1).accepted == r.accepted
  {
  }
}
