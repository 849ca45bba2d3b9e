/** One publication store as the object it is: a sequence number and the words of the published value. */
module PublicationStore {

  class PublicationStore {
    const words: array<int>
    var sequence: nat

    ghost const Repr: set<object> := {this, words}

    /** Between writers: module Seqlock is about what readers see while one is at work. */
    ghost predicate Valid()
      reads this
    {
      sequence % 2 == 0
    }

    constructor (initial: seq<int>)
      ensures Valid() && words[..] == initial && sequence == 0 && fresh(Repr)
    {
      words := new int[|initial|](i requires 0 <= i < |initial| => initial[i]);
      sequence := 0;
    }

    method Store(value: seq<int>)
      requires Valid() && |value| == words.Length
      modifies Repr
      ensures Valid() && words[..] == value && sequence == old(sequence) + 2
    {
      sequence := sequence + 1;
      for i := 0 to words.Length
        invariant words[..i] == value[..i] && sequence == old(sequence) + 1
      {
        words[i] := value[i];
      }
      sequence := sequence + 1;
    }

    method Load() returns (value: seq<int>)
      requires Valid()
      ensures value == words[..]
    {
      value := [];
      var before, after := 1, 0;
      while before != after || after % 2 == 1
        invariant before == after && after % 2 == 0 ==> value == words[..]
        decreases if before != after || after % 2 == 1 then 1 else 0
      {
        before := sequence;
        if before % 2 == 1 { continue; }
        value := [];
        for i := 0 to words.Length
          invariant value == words[..i]
        {
          value := value + [words[i]];
        }
        after := sequence;
      }
    }
  }
}
