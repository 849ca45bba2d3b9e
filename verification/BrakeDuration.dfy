/** Which motion a brake simulates: the tracker's own, seen along the released key. And what timer it becomes. */
module BrakeDuration {
  import opened Movement
  import opened MovementAgreement

  // ---- The orthogonal axis can be mirrored ----

  function Mirrored(v: Vec): Vec {
    Vec(v.x, -v.y)
  }

  lemma SpeedMirrors(root: Root, v: Vec)
    ensures Speed(root, Mirrored(v)) == Speed(root, v)
  {
    assert (-v.y) * (-v.y) == v.y * v.y;
    assert SquareSum(Mirrored(v)) == SquareSum(v);
  }

  lemma ScaleMirrors(v: Vec, k: real)
    ensures Scale(Mirrored(v), k) == Mirrored(Scale(v, k))
  {
  }

  lemma PushMirrors(v: Vec, unit: Vec, wishSpeed: real, p: Physics, dt: real)
    ensures Push(Mirrored(v), Mirrored(unit), wishSpeed, p, dt) == Mirrored(Push(v, unit, wishSpeed, p, dt))
  {
    hide Gain;
    assert (-v.y) * (-unit.y) == v.y * unit.y;
    assert Dot(Mirrored(v), Mirrored(unit)) == Dot(v, unit);
    AlongMirrors(v, unit, Gain(p, dt, wishSpeed));
    AlongMirrors(v, unit, wishSpeed - Dot(v, unit));
  }

  lemma AlongMirrors(v: Vec, unit: Vec, gain: real)
    ensures Along(Mirrored(v), Mirrored(unit), gain) == Mirrored(Along(v, unit, gain))
  {
  }

  lemma StepMirrors(root: Root, v: Vec, wish: Vec, wishSpeed: real, p: Physics, dt: real)
    ensures Step(root, Mirrored(v), Mirrored(wish), wishSpeed, p, dt) == Mirrored(Step(root, v, wish, wishSpeed, p, dt))
  {
    hide Speed, Slowed, Push, Scale;
    SpeedMirrors(root, v);
    SpeedMirrors(root, wish);
    var speed, mag := Speed(root, v), Speed(root, wish);
    if speed >= 0.1 { ScaleMirrors(v, Slowed(speed, p, dt) / speed); }
    if mag >= 0.001 {
      assert Vec(wish.x / mag, (-wish.y) / mag) == Mirrored(Vec(wish.x / mag, wish.y / mag));
      PushMirrors(Friction(root, v, p, dt), Vec(wish.x / mag, wish.y / mag), wishSpeed, p, dt);
    }
  }

  lemma {:induction false} TicksMirror(root: Root, v: Vec, wish: Vec, wishSpeed: real, p: Physics, n: nat)
    ensures Ticks(root, Mirrored(v), Mirrored(wish), wishSpeed, p, n) == Mirrored(Ticks(root, v, wish, wishSpeed, p, n))
  {
    hide Step, Mirrored;
    if n > 0 {
      TicksMirror(root, v, wish, wishSpeed, p, n - 1);
      StepMirrors(root, Ticks(root, v, wish, wishSpeed, p, n - 1), wish, wishSpeed, p, 0.015625);
    }
  }

  // ---- A brake's ticks are the tracker's ----

  /** The wish of the orthogonal keys; with hardly any speed across there is none to preserve. */
  function HeldWish(brake: Brake): Wish1 {
    if -0.1 <= brake.orthogonal <= 0.1 then 0
    else (if brake.posHeld then 1 else 0) - (if brake.negHeld then 1 else 0)
  }

  /** The tracker at the moment of the release, the counter key just pressed. */
  function CounterTracker(brake: Brake, lastUs: nat): Tracker {
    Tracker(Vec(brake.along, brake.orthogonal), lastUs, -1, HeldWish(brake), 1.0)
  }

  /** The speed to fall below: the configured accuracy threshold if it is usable, else 20, and never more than
      the maximum speed. */
  function AccuracyGoal(accuracy: Num, maxSpeed: real): real {
    var wanted := if accuracy.Finite? && 1.0 <= accuracy.value <= 34.0 then accuracy.value else 20.0;
    if maxSpeed < wanted then maxSpeed else wanted
  }

  lemma CounterTicks(root: Root, brake: Brake, p: Physics, lastUs: nat, n: nat)
    requires IsRoot(root) && brake.along > 0.0 && n <= MAX_STEPS
    ensures var mode := WishMode(brake.orthogonal, brake.posHeld, brake.negHeld);
            Advance(root, CounterTracker(brake, lastUs), lastUs + n * 15625, p).v.x ==
            Advance(root, BrakingTracker(brake.along, brake.orthogonal, mode, lastUs), lastUs + n * 15625, p).v.x
  {
    hide Step, Ticks, Advance, Seconds, TickTime;
    var mode := WishMode(brake.orthogonal, brake.posHeld, brake.negHeld);
    var v, wish := Vec(Abs(brake.along), Abs(brake.orthogonal)), StopWish(Abs(brake.orthogonal), mode);
    TrackerTicks(root, brake.along, brake.orthogonal, mode, p, lastUs, n);
    CounterTrackerTicks(root, brake, p, lastUs, n);
    if brake.orthogonal < 0.0 {
      assert Vec(brake.along, brake.orthogonal) == Mirrored(v);
      assert WishOf(-1, HeldWish(brake)) == Mirrored(wish);
      TicksMirror(root, v, wish, p.maxSpeed, p, n);
    } else {
      assert Vec(brake.along, brake.orthogonal) == v;
      assert WishOf(-1, HeldWish(brake)) == wish;
    }
  }

  lemma CounterTrackerTicks(root: Root, brake: Brake, p: Physics, lastUs: nat, n: nat)
    requires IsRoot(root) && n <= MAX_STEPS
    ensures Advance(root, CounterTracker(brake, lastUs), lastUs + n * 15625, p).v
         == Ticks(root, Vec(brake.along, brake.orthogonal), WishOf(-1, HeldWish(brake)), p.maxSpeed, p, n)
  {
    hide Step, Speed, Seconds, TickTime;
    var t := CounterTracker(brake, lastUs);
    TickMicroseconds(n, 0);
    assert WishSpeed(p, 1.0) == p.maxSpeed;
    assert t.Wish() != AT_REST;
    if n > 0 { TicksTake(root, t.v, t.Wish(), p.maxSpeed, p, n, MAX_STEPS); }
  }

  lemma BrakeTicksIs(root: Root, brake: Brake, p: Physics)
    ensures BrakeTicks(root, brake, p) ==
            StopTicks(root, brake.along, brake.orthogonal, WishMode(brake.orthogonal, brake.posHeld, brake.negHeld),
                      AccuracyGoal(brake.accuracy, p.maxSpeed), p)
    ensures BrakeTicks(root, brake, p) <= STOP_TICKS_CAP
  {
    hide Step;
  }

  /** Main result: a brake lasts as many ticks as the tracker, started at the released motion with the counter key
      and the held orthogonal keys down, stays at or above the accuracy threshold, up to the tick cap. */
  lemma BrakeTicksAreTheTrackers(root: Root, brake: Brake, p: Physics, lastUs: nat, m: nat)
    requires IsRoot(root) && brake.along > 0.0
    ensures var ticks, t := BrakeTicks(root, brake, p), CounterTracker(brake, lastUs);
            var goal := AccuracyGoal(brake.accuracy, p.maxSpeed);
            && ticks <= 100
            && (m < ticks ==> Advance(root, t, lastUs + m * 15625, p).v.x >= goal)
            && (ticks < 100 ==> Advance(root, t, lastUs + ticks * 15625, p).v.x < goal)
  {
    hide BrakeTicks, StopTicks, Advance, CounterTracker, BrakingTracker, AccuracyGoal;
    var ticks, mode := BrakeTicks(root, brake, p), WishMode(brake.orthogonal, brake.posHeld, brake.negHeld);
    BrakeTicksIs(root, brake, p);
    StopTicksAreTheTrackers(root, brake.along, brake.orthogonal, mode, AccuracyGoal(brake.accuracy, p.maxSpeed), p,
                            lastUs, m);
    CounterTicks(root, brake, p, lastUs, ticks);
    if m < ticks { CounterTicks(root, brake, p, lastUs, m); }
  }

  // ---- From ticks to a timer ----

  /** Main result: no brake is needed exactly when the speed along the released key is not positive or already
      below the threshold. */
  lemma NoBrakeIff(root: Root, brake: Brake, p: Physics, s: Shaping)
    ensures CalculateTrueBrakeUs(root, brake, p, s) == 0 <==>
            brake.along <= 0.0 || brake.along < AccuracyGoal(brake.accuracy, p.maxSpeed)
  {
    hide BrakeTicks, AccuracyGoal, ShapeBrakeDurationMs, Step;
    BrakeTicksIs(root, brake, p);
  }

  /** `ms` is the whole number nearest to `wanted` within [lo, hi], halves up. */
  predicate Nearest(ms: int, wanted: real, lo: int, hi: int) {
    && lo <= ms <= hi
    && (wanted <= lo as real ==> ms == lo)
    && (wanted >= hi as real ==> ms == hi)
    && (lo as real <= wanted <= hi as real ==> -0.5 < ms as real - wanted <= 0.5)
  }

  lemma RoundsToNearest(wanted: real, lo: int, hi: int)
    requires lo <= hi
    ensures Nearest(Round(ClampReal(wanted, lo as real, hi as real)), wanted, lo, hi)
  {
  }

  /** Main result: an armed brake lasts the whole number of milliseconds nearest to the power curve's result with
      bias and without latency, but no less than its ticks or the configured minimum and no more than the
      horizon; where curve or bias are not finite it lasts the horizon. */
  lemma DurationIsNearest(root: Root, brake: Brake, p: Physics, s: Shaping)
    requires CalculateTrueBrakeUs(root, brake, p, s) != 0
    ensures var brakeUs, ms := CalculateTrueBrakeUs(root, brake, p, s), CeilMs(BrakeTicks(root, brake, p));
            var hi := if s.lutMaxMs > 1 then s.lutMaxMs else 1;
            var floor := if ms < s.minStopMs then s.minStopMs else ms;
            if brake.curve.Finite? && s.authorityBiasMs.Finite? then
              && brakeUs % 1000 == 0
              && Nearest(brakeUs / 1000,
                         brake.curve.value * 31.25 + s.authorityBiasMs.value - s.latencyMarginMs as real,
                         if floor < hi then floor else hi, hi)
            else brakeUs == if s.lutMaxMs > 0 then s.lutMaxMs * 1000 else 100
  {
    hide BrakeTicks, CeilMs, Round, Nearest, ClampReal;
    var ms, hi := CeilMs(BrakeTicks(root, brake, p)), if s.lutMaxMs > 1 then s.lutMaxMs else 1;
    var floor := if ms < s.minStopMs then s.minStopMs else ms;
    var lo := if floor < hi then floor else hi;
    if brake.curve.Finite? && s.authorityBiasMs.Finite? {
      var wanted := brake.curve.value * 31.25 + s.authorityBiasMs.value - s.latencyMarginMs as real;
      RoundsToNearest(wanted, lo, hi);
      NearestPositive(Round(ClampReal(wanted, lo as real, hi as real)), wanted, lo, hi);
      assert ShapeBrakeDurationMs(ms, brake.curve, s) == Round(ClampReal(wanted, lo as real, hi as real));
    }
  }

  lemma NearestPositive(ms: int, wanted: real, lo: int, hi: int)
    requires Nearest(ms, wanted, lo, hi) && lo >= 1
    ensures ms * 1000 >= 1000 && ms * 1000 % 1000 == 0 && ms * 1000 / 1000 == ms
  {
  }
}
