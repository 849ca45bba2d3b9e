/** The one-axis brake stops, lands close to its threshold and takes monotonically many ticks; and the timer
    that is armed for it keeps every simulated tick. */
module MovementStops {
  import opened Movement
  import opened MovementBounds
  import opened MovementOneAxis
  import opened MovementAgreement
  import E = Engine

  predicate Braking(p: Physics) {
    0.0 < p.accelerate <= 64.0 && 0.0 <= p.friction <= 64.0 && p.maxSpeed > 0.0
  }

  /** The speed one tick of braking takes off besides friction: A W / 64. */
  function TickGain(p: Physics): real {
    Gain(p, 0.015625, p.maxSpeed)
  }

  /** a w / 64 */
  function PerTick(a: real, w: real): real {
    a * w / 64.0
  }

  lemma TickGainIs(p: Physics)
    requires Braking(p)
    ensures 0.0 < TickGain(p) <= p.maxSpeed && TickGain(p) == PerTick(p.accelerate, p.maxSpeed)
  {
    hide Share, PerTick;
    ShareIs(p.accelerate, p.maxSpeed);
  }

  lemma ShareIs(a: real, w: real)
    requires 0.0 < a <= 64.0 && w > 0.0
    ensures 0.0 < Share(a, 0.015625, w) <= w && Share(a, 0.015625, w) == PerTick(a, w)
  {
    ProductPositive(a * 0.015625, w);
    ProductMonotone(a * 0.015625, 1.0, w);
    assert a * 0.015625 * w == (a * w) * 0.015625;
  }

  /** The speed after one tick of braking from speed u. */
  function Next(u: real, p: Physics): real {
    Slowed(u, p, 0.015625) - TickGain(p)
  }

  lemma TickBrakes(root: Root, u: real, p: Physics)
    requires IsRoot(root) && Braking(p) && u >= 0.1
    ensures Step(root, Vec(u, 0.0), WishOf(-1, 0), p.maxSpeed, p, 0.015625) == Vec(Next(u, p), 0.0)
  {
    hide Speed, Slowed, Gain;
    SpeedOnAxis(root, u);
    var n := Slowed(u, p, 0.015625);
    assert n >= 0.0 by { SlowedNonNegative(u, p); }
    ScaledByRatio(u, n);
    assert Friction(root, Vec(u, 0.0), p, 0.015625) == Vec(n, 0.0);
    WishOnAxis(root, -1);
    TickGainIs(p);
    assert Push(Vec(n, 0.0), Vec(-1.0, 0.0), p.maxSpeed, p, 0.015625) == Vec(n - TickGain(p), 0.0);
    assert Vec(-1.0 / 1.0, 0.0 / 1.0) == Vec(-1.0, 0.0);
  }

  lemma SlowedNonNegative(u: real, p: Physics)
    ensures Slowed(u, p, 0.015625) >= 0.0
  {
  }

  lemma NextBelow(u: real, p: Physics)
    requires Braking(p) && u >= 0.0
    ensures Next(u, p) <= u - TickGain(p)
  {
    hide Slowed, Gain, Loss;
    SlowedBound(u, p, 0.015625);
    LossNonNegative(u, p, 0.015625);
  }

  lemma SlowedMonotone(w: real, u: real, p: Physics)
    requires Braking(p) && 0.0 <= w <= u
    ensures Slowed(w, p, 0.015625) <= Slowed(u, p, 0.015625)
  {
    hide Share;
    ControlMonotone(w, u, p.stopSpeed, p.friction);
  }

  lemma ControlMonotone(w: real, u: real, s: real, f: real)
    requires 0.0 <= w <= u && 0.0 <= f <= 64.0
    ensures w - Share(if w < s then s else w, f, 0.015625) <= u - Share(if u < s then s else u, f, 0.015625)
  {
    var g := f * 0.015625;
    if w >= s {
      ProductMonotone(g, 1.0, u - w);
      assert u * f * 0.015625 - w * f * 0.015625 == g * (u - w);
    } else if u >= s {
      ProductMonotone(g, 1.0, u - s);
      assert u * f * 0.015625 - s * f * 0.015625 == g * (u - s);
    }
  }

  // ---- The simulated stop on one axis ----

  function OnAxisTicks(root: Root, v: real, p: Physics, n: nat): Vec {
    Ticks(root, Vec(v, 0.0), WishOf(-1, 0), p.maxSpeed, p, n)
  }

  function OnAxisStop(root: Root, v: real, threshold: real, p: Physics): nat {
    StopTicks(root, v, 0.0, 0, threshold, p)
  }

  lemma OnAxisStopIs(root: Root, v: real, threshold: real, p: Physics, m: nat)
    requires v >= 0.0
    ensures var ticks := OnAxisStop(root, v, threshold, p);
            && ticks <= STOP_TICKS_CAP
            && (m < ticks ==> OnAxisTicks(root, v, p, m).x >= threshold)
            && (ticks < STOP_TICKS_CAP ==> OnAxisTicks(root, v, p, ticks).x < threshold)
            && (v < threshold ==> ticks == 0)
  {
    hide Step;
    assert Vec(Abs(v), Abs(0.0)) == Vec(v, 0.0) && StopWish(0.0, 0) == WishOf(-1, 0);
    StopTicksLeast(root, Vec(v, 0.0), WishOf(-1, 0), threshold, p, 0, m);
    assert Ticks(root, Vec(v, 0.0), WishOf(-1, 0), p.maxSpeed, p, 0) == Vec(v, 0.0);
  }

  lemma TickOnAxis(root: Root, v: real, p: Physics, m: nat)
    requires IsRoot(root) && Braking(p) && OnAxisTicks(root, v, p, m).y == 0.0 && OnAxisTicks(root, v, p, m).x >= 0.1
    ensures OnAxisTicks(root, v, p, m + 1) == Vec(Next(OnAxisTicks(root, v, p, m).x, p), 0.0)
  {
    hide Step, Next;
    var u := OnAxisTicks(root, v, p, m);
    TickBrakes(root, u.x, p);
    assert u == Vec(u.x, 0.0);
  }

  /** While the stop lasts, every tick takes at least A W / 64 off. */
  lemma {:induction false} Descends(root: Root, v: real, threshold: real, p: Physics, m: nat)
    requires IsRoot(root) && Braking(p) && v >= 0.0 && threshold >= 0.1 && m <= OnAxisStop(root, v, threshold, p)
    ensures OnAxisTicks(root, v, p, m).y == 0.0
    ensures OnAxisTicks(root, v, p, m).x <= v - Taken(m, p)
  {
    hide Ticks, StopTicks, Next, TickGain, Taken;
    if m == 0 {
      assert OnAxisTicks(root, v, p, 0) == Vec(v, 0.0) by { OnAxisStart(root, v, p); }
      NothingTaken(p);
    } else {
      OnAxisStopIs(root, v, threshold, p, m - 1);
      Descends(root, v, threshold, p, m - 1);
      TickOnAxis(root, v, p, m - 1);
      NextBelow(OnAxisTicks(root, v, p, m - 1).x, p);
      TakenMore(m, p);
    }
  }

  function Times(n: nat, g: real): real {
    n as real * g
  }

  /** What m ticks of braking take off besides friction. */
  function Taken(m: nat, p: Physics): real {
    Times(m, TickGain(p))
  }

  lemma NothingTaken(p: Physics)
    ensures Taken(0, p) == 0.0
  {
  }

  lemma TakenMore(m: nat, p: Physics)
    requires m > 0
    ensures Taken(m, p) == Taken(m - 1, p) + TickGain(p)
  {
    hide Gain;
    var g := TickGain(p);
    assert (m as real) * g == (m - 1) as real * g + g;
  }

  lemma OnAxisStart(root: Root, v: real, p: Physics)
    ensures OnAxisTicks(root, v, p, 0) == Vec(v, 0.0)
  {
  }

  /** floor(d * 64 / (a w)) + 1 */
  function Budget(d: real, a: real, w: real): (n: nat)
    requires d >= 0.0 && a > 0.0 && w > 0.0
  {
    ProductPositive(a, w);
    (d * 64.0 / (a * w)).Floor + 1
  }

  function TickBudget(v: real, threshold: real, p: Physics): (n: nat)
    requires Braking(p) && v >= threshold
  {
    Budget(v - threshold, p.accelerate, p.maxSpeed)
  }

  lemma BudgetSuffices(v: real, threshold: real, p: Physics)
    requires Braking(p) && v >= threshold
    ensures Taken(TickBudget(v, threshold, p), p) > v - threshold
  {
    hide TickGain, PerTick, Budget;
    TickGainIs(p);
    BudgetArithmetic(v - threshold, p.accelerate, p.maxSpeed, TickBudget(v, threshold, p), TickGain(p));
  }

  lemma BudgetArithmetic(d: real, a: real, w: real, n: nat, g: real)
    requires d >= 0.0 && a > 0.0 && w > 0.0 && n == Budget(d, a, w) && g == PerTick(a, w)
    ensures Times(n, g) > d
  {
    var aw := a * w;
    ProductPositive(a, w);
    var q := d * 64.0 / aw;
    assert q * aw == d * 64.0;
    assert n as real > q;
    ProductPositive(n as real - q, aw);
    assert (n as real - q) * aw == n as real * aw - q * aw;
    assert n as real * (aw / 64.0) == (n as real * aw) / 64.0;
  }

  lemma TakenMonotone(m: nat, n: nat, p: Physics)
    requires Braking(p) && m <= n
    ensures Taken(m, p) <= Taken(n, p)
  {
    hide Gain;
    TickGainIs(p);
    ProductMonotone(m as real, n as real, TickGain(p));
  }

  /** Main result: the stop is over within floor((v - threshold) * 64 / (A W)) + 1 ticks. */
  lemma StopsWithinBudget(root: Root, v: real, threshold: real, p: Physics)
    requires IsRoot(root) && Braking(p) && threshold >= 0.1 && v >= threshold
    ensures var ticks, budget := OnAxisStop(root, v, threshold, p), TickBudget(v, threshold, p);
            && 1 <= ticks <= budget
            && (budget <= STOP_TICKS_CAP ==> OnAxisTicks(root, v, p, ticks).x < threshold)
  {
    hide Ticks, StopTicks, TickGain, Taken, TickBudget;
    var ticks, budget := OnAxisStop(root, v, threshold, p), TickBudget(v, threshold, p);
    BudgetSuffices(v, threshold, p);
    OnAxisStart(root, v, p);
    OnAxisStopIs(root, v, threshold, p, budget);
    if budget < ticks {
      Descends(root, v, threshold, p, budget);
      assert false;
    }
    Descends(root, v, threshold, p, ticks);
    if ticks == STOP_TICKS_CAP && budget <= STOP_TICKS_CAP { TakenMonotone(budget, ticks, p); }
  }

  /** Main result: the stop overshoots its threshold by at most one tick of friction and acceleration. */
  lemma StopLands(root: Root, v: real, threshold: real, p: Physics)
    requires IsRoot(root) && Braking(p) && threshold >= 0.1 && v >= threshold
    ensures var drop := (if threshold < p.stopSpeed then p.stopSpeed else threshold) * p.friction / 64.0;
            OnAxisTicks(root, v, p, OnAxisStop(root, v, threshold, p)).x >=
            Max(0.0, threshold - drop) - PerTick(p.accelerate, p.maxSpeed)
  {
    hide Ticks, StopTicks, TickGain, Slowed, PerTick;
    var ticks := OnAxisStop(root, v, threshold, p);
    StopsWithinBudget(root, v, threshold, p);
    OnAxisStopIs(root, v, threshold, p, ticks - 1);
    Descends(root, v, threshold, p, ticks - 1);
    var u := OnAxisTicks(root, v, p, ticks - 1).x;
    TickOnAxis(root, v, p, ticks - 1);
    SlowedMonotone(threshold, u, p);
    TickGainIs(p);
    SlowedAt(threshold, p);
  }

  lemma SlowedAt(threshold: real, p: Physics)
    ensures var drop := (if threshold < p.stopSpeed then p.stopSpeed else threshold) * p.friction / 64.0;
            Slowed(threshold, p, 0.015625) == Max(0.0, threshold - drop)
  {
    var control := if threshold < p.stopSpeed then p.stopSpeed else threshold;
    assert Share(control, p.friction, 0.015625) == control * p.friction / 64.0;
  }

  lemma {:induction false} FasterStaysFaster(root: Root, v: real, v': real, threshold: real, p: Physics, m: nat)
    requires IsRoot(root) && Braking(p) && threshold >= 0.1 && 0.0 <= v <= v'
    requires m <= OnAxisStop(root, v, threshold, p) && m <= OnAxisStop(root, v', threshold, p)
    ensures OnAxisTicks(root, v, p, m).x <= OnAxisTicks(root, v', p, m).x
  {
    hide Ticks, StopTicks, TickGain, Slowed;
    if m == 0 {
      OnAxisStart(root, v, p);
      OnAxisStart(root, v', p);
    } else {
      FasterStaysFaster(root, v, v', threshold, p, m - 1);
      OnAxisStopIs(root, v, threshold, p, m - 1);
      OnAxisStopIs(root, v', threshold, p, m - 1);
      Descends(root, v, threshold, p, m - 1);
      Descends(root, v', threshold, p, m - 1);
      TickOnAxis(root, v, p, m - 1);
      TickOnAxis(root, v', p, m - 1);
      SlowedMonotone(OnAxisTicks(root, v, p, m - 1).x, OnAxisTicks(root, v', p, m - 1).x, p);
    }
  }

  /** Main result: a faster start never needs fewer ticks. */
  lemma StopMonotoneInSpeed(root: Root, v: real, v': real, threshold: real, p: Physics)
    requires IsRoot(root) && Braking(p) && threshold >= 0.1 && 0.0 <= v <= v'
    ensures OnAxisStop(root, v, threshold, p) <= OnAxisStop(root, v', threshold, p)
  {
    hide Ticks, StopTicks;
    var ticks' := OnAxisStop(root, v', threshold, p);
    OnAxisStopIs(root, v, threshold, p, ticks');
    OnAxisStopIs(root, v', threshold, p, 0);
    if ticks' < OnAxisStop(root, v, threshold, p) {
      FasterStaysFaster(root, v, v', threshold, p, ticks');
      assert false;
    }
  }

  /** Main result: a lower threshold never needs fewer ticks, in two dimensions too. */
  lemma StopAntitoneInThreshold(root: Root, vx: real, vy: real, wishMode: int, threshold: real, threshold': real,
        p: Physics)
    requires threshold <= threshold'
    ensures StopTicks(root, vx, vy, wishMode, threshold, p) >= StopTicks(root, vx, vy, wishMode, threshold', p)
  {
    hide Ticks;
    var v, wish := Vec(Abs(vx), Abs(vy)), StopWish(Abs(vy), wishMode);
    var ticks := StopTicks(root, vx, vy, wishMode, threshold, p);
    StopTicksLeast(root, v, wish, threshold, p, 0, 0);
    StopTicksLeast(root, v, wish, threshold', p, 0, ticks);
  }

  // ---- The timer ----

  lemma ClampedRound(value: real, lo: int, hi: int)
    requires lo <= hi
    ensures lo <= Round(ClampReal(value, lo as real, hi as real)) <= hi
  {
  }

  /** Shaping never goes below the pure duration, nor above the safety cap. */
  lemma ShapedWithin(pureDurMs: int, curve: Num, s: Shaping)
    requires pureDurMs > 0 && s.lutMaxMs >= 1
    ensures var ms := ShapeBrakeDurationMs(pureDurMs, curve, s);
            (if pureDurMs < s.lutMaxMs then pureDurMs else s.lutMaxMs) <= ms <= s.lutMaxMs
  {
    if curve.Finite? && s.authorityBiasMs.Finite? {
      var compensated := curve.value * 31.25 + s.authorityBiasMs.value - s.latencyMarginMs as real;
      ClampedRound(compensated, ClampInt(MaxInt(s.minStopMs, pureDurMs), 1, s.lutMaxMs), s.lutMaxMs);
    }
  }

  /** Main result: whatever the power curve returns, an armed brake lasts at least every simulated tick or the
      configured cap, never longer than the cap, and its overlap is the longest within the requested one that ends
      at least 100 microseconds earlier. */
  lemma TimerKeepsEveryTick(root: Root, brake: Brake, p: Physics, s: Shaping, requestedOverlapUs: int, us: nat)
    requires s.lutMaxMs >= 1
    ensures var brakeUs, ticks := CalculateTrueBrakeUs(root, brake, p, s), BrakeTicks(root, brake, p);
            var overlapUs := E.ClampCounterOverlapUs(requestedOverlapUs, brakeUs);
            && (brakeUs == 0 <==> brake.along <= 0.0 || ticks == 0)
            && (brakeUs != 0 ==> ticks * 15625 <= brakeUs || brakeUs == s.lutMaxMs * 1000)
            && 0 <= brakeUs <= s.lutMaxMs * 1000
            && (overlapUs == 0 || (0 < overlapUs <= requestedOverlapUs && overlapUs + 100 <= brakeUs))
            && (us <= requestedOverlapUs && us + 100 <= brakeUs ==> us <= overlapUs)
  {
    hide BrakeTicks;
    var ticks := BrakeTicks(root, brake, p);
    if brake.along > 0.0 && CeilMs(ticks) > 0 { ShapedWithin(CeilMs(ticks), brake.curve, s); }
  }
}
