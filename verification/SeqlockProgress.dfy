/** The seqlocks at work: a store publishes its value, and a reader that is left alone accepts it. */
module SeqlockProgress {
  import opened Seqlock

  lemma RunStep(s: System, steps: seq<Step>, step: Step)
    ensures Run(s, steps + [step]) == Apply(Run(s, steps), step)
  {
    assert (steps + [step])[..|steps|] == steps;
  }

  lemma RunNone(s: System)
    ensures Run(s, []) == s
  {
  }

  // ---- Stores ----

  function Words(n: nat): seq<Step> {
    seq(n, _ => StoreWord)
  }

  lemma {:induction false} WordsAre(s: System, value: Value, n: nat)
    requires s.writer.Idle? && |value| == |s.memory| && n <= |value|
    ensures Run(s, [BeginStore(value)] + Words(n)) ==
            s.(sequence := s.sequence + 1, writer := Writing(value, n), memory := value[..n] + s.memory[n..],
               clock := s.clock + 1 + n)
  {
    if n == 0 {
      RunStep(s, [], BeginStore(value));
      RunNone(s);
      assert [] + [BeginStore(value)] == [BeginStore(value)] + Words(0);
      assert value[..0] + s.memory[0..] == s.memory;
    } else {
      WordsAre(s, value, n - 1);
      RunStep(s, [BeginStore(value)] + Words(n - 1), StoreWord);
      assert [BeginStore(value)] + Words(n) == [BeginStore(value)] + Words(n - 1) + [StoreWord];
      var m := value[..n - 1] + s.memory[n - 1..];
      assert m[n - 1 := value[n - 1]] == value[..n] + s.memory[n..];
    }
  }

  /** Main result: a store of a value of the right size ends with that value in memory and published last, and with
      the sequence number advanced by two; no reader's state changes. */
  lemma StorePublishes(s: System, value: Value)
    requires s.writer.Idle? && |value| == |s.memory|
    ensures Run(s, [BeginStore(value)] + Words(|value|) + [EndStore]) ==
            s.(sequence := s.sequence + 2, memory := value, history := s.history + [value],
               clock := s.clock + 2 + |value|)
  {
    hide Run;
    WordsAre(s, value, |value|);
    RunStep(s, [BeginStore(value)] + Words(|value|), EndStore);
    assert value[..|value|] + s.memory[|value|..] == value;
  }

  // ---- Reads ----

  function Reads(i: nat, n: nat): seq<Step> {
    seq(n, _ => Read(i))
  }

  /** The reader after its first sequence read and k words. */
  function Loaded(s: System, i: nat, k: nat): System
    requires i < |s.readers| && k <= |s.memory|
  {
    s.(readers := s.readers[i := s.readers[i].(before := s.sequence, from := s.clock, buffer := s.memory[..k],
                                               pc := LoadWord(k))],
       clock := s.clock + 1 + k)
  }

  lemma {:induction false} ReadsAre(s: System, i: nat, k: nat)
    requires i < |s.readers| && s.readers[i].pc == LoadBefore && !Odd(s.sequence) && k <= |s.memory|
    ensures Run(s, Reads(i, k + 1)) == Loaded(s, i, k)
  {
    if k == 0 {
      RunStep(s, [], Read(i));
      RunNone(s);
      assert [] + [Read(i)] == Reads(i, 1);
      assert s.memory[..0] == [];
    } else {
      ReadsAre(s, i, k - 1);
      RunStep(s, Reads(i, k), Read(i));
      assert Reads(i, k + 1) == Reads(i, k) + [Read(i)];
      assert s.memory[..k] == s.memory[..k - 1] + [s.memory[k - 1]];
      assert Loaded(s, i, k - 1).readers[i := ReadStep(Loaded(s, i, k - 1), Loaded(s, i, k - 1).readers[i])]
          == Loaded(s, i, k).readers;
    }
  }

  /** The number of steps of one undisturbed read: two of the sequence number, the words and the end of the words,
      and in the do-while form the loop condition. */
  function Attempt(form: Form, words: nat): nat {
    words + if form == DoWhile then 4 else 3
  }

  /** Main result: a reader that starts with no writer at work and meets none accepts what is in memory, under its
      version, after exactly one attempt, and is back at the start. */
  lemma UndisturbedAccepts(initial: Value, forms: seq<Form>, steps: seq<Step>, i: nat)
    requires var s := Run(Start(initial, forms), steps);
             s.writer.Idle? && i < |s.readers| && s.readers[i].pc == LoadBefore
    ensures var s := Run(Start(initial, forms), steps);
            var s' := Run(s, Reads(i, Attempt(s.readers[i].form, |s.memory|)));
            && i < |s'.readers|
            && var r, r' := s.readers[i], s'.readers[i];
            && r'.pc == LoadBefore && |r'.accepted| == |r.accepted| + 1 && r'.accepted[..|r.accepted|] == r.accepted
            && r'.accepted[|r.accepted|].value == s.memory && r'.accepted[|r.accepted|].version == Version(s)
  {
    hide Run, Ok;
    var s := Run(Start(initial, forms), steps);
    RunOk(initial, forms, steps);
    assert !Odd(s.sequence) by { IdleEven(s); }
    var n := |s.memory|;
    ReadsAre(s, i, n);
    RunStep(s, Reads(i, n + 1), Read(i));
    RunStep(s, Reads(i, n + 2), Read(i));
    RunStep(s, Reads(i, n + 3), Read(i));
    assert Reads(i, n + 2) == Reads(i, n + 1) + [Read(i)] && Reads(i, n + 3) == Reads(i, n + 2) + [Read(i)];
    assert Reads(i, n + 4) == Reads(i, n + 3) + [Read(i)];
    assert s.memory[..n] == s.memory;
  }

  lemma IdleEven(s: System)
    requires Ok(s) && s.writer.Idle?
    ensures !Odd(s.sequence)
  {
  }
}
