/** The clock: a performance counter converted to a unit without a product that could overflow. */
module Clock {

  const INT64_LIMIT: int := 0x8000_0000_0000_0000

  /** Whole seconds and the rest of a second are converted separately; both divisions are of non-negative values. */
  function Now(counter: nat, frequency: nat, unitsPerSecond: nat): nat
    requires frequency > 0
  {
    (counter / frequency) * unitsPerSecond + (counter % frequency) * unitsPerSecond / frequency
  }

  lemma DivisionShifts(whole: nat, rest: nat, d: nat)
    requires d > 0
    ensures (whole * d + rest) / d == whole + rest / d
  {
    var n := whole * d + rest;
    var q := whole + rest / d;
    assert n == q * d + rest % d by {
      assert rest == d * (rest / d) + rest % d;
      assert q * d == whole * d + rest / d * d;
    }
    UniqueQuotient(n, d, q, rest % d);
  }

  lemma UniqueQuotient(n: nat, d: nat, q: nat, r: nat)
    requires d > 0 && r < d && n == q * d + r
    ensures n / d == q
  {
    var p := n / d;
    assert n == p * d + n % d;
    if p > q { Times(p - q, d); }
    if p < q { Times(q - p, d); }
  }

  lemma Times(n: nat, d: nat)
    requires n >= 1
    ensures n * d >= d
  {
  }

  /** The split conversion is the exact one, rounded down. */
  lemma NowIsExact(counter: nat, frequency: nat, unitsPerSecond: nat)
    requires frequency > 0
    ensures Now(counter, frequency, unitsPerSecond) == counter * unitsPerSecond / frequency
  {
    var q, r := counter / frequency, counter % frequency;
    assert counter == q * frequency + r;
    assert counter * unitsPerSecond == q * unitsPerSecond * frequency + r * unitsPerSecond by {
      assert (q * frequency + r) * unitsPerSecond == q * frequency * unitsPerSecond + r * unitsPerSecond;
      assert q * frequency * unitsPerSecond == q * unitsPerSecond * frequency;
    }
    DivisionShifts(q * unitsPerSecond, r * unitsPerSecond, frequency);
  }

  /** No intermediate product leaves 64 bits while a second of counts in that unit fits, whatever the uptime. */
  lemma SplitFits(counter: nat, frequency: nat, unitsPerSecond: nat)
    requires 0 < frequency && frequency * unitsPerSecond < INT64_LIMIT
    ensures (counter % frequency) * unitsPerSecond < INT64_LIMIT
  {
    var r := counter % frequency;
    assert (frequency - r) * unitsPerSecond >= 0;
    assert (frequency - r) * unitsPerSecond == frequency * unitsPerSecond - r * unitsPerSecond;
  }
}
