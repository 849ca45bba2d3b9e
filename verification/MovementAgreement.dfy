/** The two integrators agree: advancing the tracker in two steps that meet on a tick is advancing it once, and
    the stop simulation counts the tracker's ticks. */
module MovementAgreement {
  import opened Movement
  import opened MovementBounds

  // ---- The integration loop without its early exit ----

  function Plain(root: Root, v: Vec, wish: Vec, wishSpeed: real, p: Physics, remaining: real, steps: nat): Vec
    decreases steps
  {
    if steps == 0 || remaining <= 0.000000001 then v
    else
      var dt := StepTime(remaining);
      Plain(root, Step(root, v, wish, wishSpeed, p, dt), wish, wishSpeed, p, remaining - dt, steps - 1)
  }

  /** Without a wish, a speed too small for friction stays as it is. */
  lemma SlowStays(root: Root, v: Vec, wishSpeed: real, p: Physics, dt: real)
    requires IsRoot(root) && Speed(root, v) < 0.1
    ensures Step(root, v, AT_REST, wishSpeed, p, dt) == v
  {
    RestSpeed(root);
  }

  lemma {:induction false} SlowStaysPlain(root: Root, v: Vec, wishSpeed: real, p: Physics, remaining: real, steps: nat)
    requires IsRoot(root) && Speed(root, v) < 0.1
    ensures Plain(root, v, AT_REST, wishSpeed, p, remaining, steps) == v
    decreases steps
  {
    hide Speed, Step;
    if steps != 0 && remaining > 0.000000001 {
      SlowStays(root, v, wishSpeed, p, StepTime(remaining));
      SlowStaysPlain(root, v, wishSpeed, p, remaining - StepTime(remaining), steps - 1);
    }
  }

  /** The early exit changes nothing. */
  lemma {:induction false} EarlyExitHarmless(root: Root, v: Vec, wish: Vec, wishSpeed: real, p: Physics,
        remaining: real, steps: nat)
    requires IsRoot(root)
    ensures Integrate(root, v, wish, wishSpeed, p, remaining, steps) ==
            Plain(root, v, wish, wishSpeed, p, remaining, steps)
    decreases steps
  {
    hide Speed, Step;
    if steps != 0 && remaining > 0.000000001 {
      var dt := StepTime(remaining);
      var v' := Step(root, v, wish, wishSpeed, p, dt);
      if Still(v', wish) {
        RestSpeed(root);
        SlowStaysPlain(root, v', wishSpeed, p, remaining - dt, steps - 1);
      } else {
        EarlyExitHarmless(root, v', wish, wishSpeed, p, remaining - dt, steps - 1);
      }
    }
  }

  // ---- Ticks first, the rest after ----

  lemma {:induction false} FirstTickFirst(root: Root, v: Vec, wish: Vec, wishSpeed: real, p: Physics, n: nat)
    requires n > 0
    ensures Ticks(root, v, wish, wishSpeed, p, n) ==
            Ticks(root, Step(root, v, wish, wishSpeed, p, 0.015625), wish, wishSpeed, p, n - 1)
  {
    hide Step;
    if n > 1 { FirstTickFirst(root, v, wish, wishSpeed, p, n - 1); }
  }

  function TickTime(n: nat): real {
    n as real * 0.015625
  }

  lemma {:induction false} TicksThenRest(root: Root, v: Vec, wish: Vec, wishSpeed: real, p: Physics, n: nat,
        rest: real, steps: nat)
    requires rest >= 0.0
    ensures Plain(root, v, wish, wishSpeed, p, TickTime(n) + rest, n + steps)
         == Plain(root, Ticks(root, v, wish, wishSpeed, p, n), wish, wishSpeed, p, rest, steps)
    decreases n
  {
    hide Step;
    if n > 0 {
      var v' := Step(root, v, wish, wishSpeed, p, 0.015625);
      FirstTickFirst(root, v, wish, wishSpeed, p, n);
      TicksThenRest(root, v', wish, wishSpeed, p, n - 1, rest, steps);
      assert StepTime(TickTime(n) + rest) == 0.015625;
      assert TickTime(n) + rest - 0.015625 == TickTime(n - 1) + rest;
    }
  }

  /** More steps than the time needs make no difference. */
  lemma {:induction false} SpareSteps(root: Root, v: Vec, wish: Vec, wishSpeed: real, p: Physics, remaining: real,
        steps: nat, more: nat)
    requires steps <= more && remaining <= TickTime(steps)
    ensures Plain(root, v, wish, wishSpeed, p, remaining, steps) == Plain(root, v, wish, wishSpeed, p, remaining, more)
    decreases steps
  {
    hide Step;
    if steps != 0 && remaining > 0.000000001 {
      var dt := StepTime(remaining);
      SpareSteps(root, Step(root, v, wish, wishSpeed, p, dt), wish, wishSpeed, p, remaining - dt, steps - 1, more - 1);
    }
  }

  /** Snapping in the middle and at the end is snapping at the end. */
  lemma SnapOnce(root: Root, v: Vec, wish: Vec, wishSpeed: real, p: Physics, rest: real, steps: nat)
    requires IsRoot(root)
    ensures Snap(root, Plain(root, Snap(root, v, wish), wish, wishSpeed, p, rest, steps), wish)
         == Snap(root, Plain(root, v, wish, wishSpeed, p, rest, steps), wish)
  {
    hide Speed, Plain;
    if wish == AT_REST && Speed(root, v) < 0.1 {
      RestSpeed(root);
      SlowStaysPlain(root, v, wishSpeed, p, rest, steps);
      SlowStaysPlain(root, AT_REST, wishSpeed, p, rest, steps);
    }
  }

  lemma TicksTake(root: Root, v: Vec, wish: Vec, wishSpeed: real, p: Physics, n: nat, steps: nat)
    requires IsRoot(root) && n <= steps
    ensures Integrate(root, v, wish, wishSpeed, p, TickTime(n), steps) == Ticks(root, v, wish, wishSpeed, p, n)
  {
    hide Step;
    EarlyExitHarmless(root, v, wish, wishSpeed, p, TickTime(n), steps);
    TicksThenRest(root, v, wish, wishSpeed, p, n, 0.0, steps - n);
  }

  lemma SplitIntegrate(root: Root, v: Vec, wish: Vec, wishSpeed: real, p: Physics, n: nat, rest: real)
    requires IsRoot(root) && rest >= 0.0 && n <= MAX_STEPS && rest <= TickTime(MAX_STEPS - n)
    ensures var v1 := Snap(root, Integrate(root, v, wish, wishSpeed, p, TickTime(n), MAX_STEPS), wish);
            (Snap(root, Integrate(root, v, wish, wishSpeed, p, TickTime(n) + rest, MAX_STEPS), wish) ==
             Snap(root, Integrate(root, v1, wish, wishSpeed, p, rest, MAX_STEPS), wish))
  {
    hide Step, Snap, Integrate, Plain, Ticks;
    var u := Ticks(root, v, wish, wishSpeed, p, n);
    TicksTake(root, v, wish, wishSpeed, p, n, MAX_STEPS);
    EarlyExitHarmless(root, v, wish, wishSpeed, p, TickTime(n) + rest, MAX_STEPS);
    TicksThenRest(root, v, wish, wishSpeed, p, n, rest, MAX_STEPS - n);
    SpareSteps(root, u, wish, wishSpeed, p, rest, MAX_STEPS - n, MAX_STEPS);
    SnapOnce(root, u, wish, wishSpeed, p, rest, MAX_STEPS);
    EarlyExitHarmless(root, Snap(root, u, wish), wish, wishSpeed, p, rest, MAX_STEPS);
  }

  lemma TickMicroseconds(n: nat, r: nat)
    ensures Seconds(n * 15625) == TickTime(n) && Seconds(n * 15625 + r) == TickTime(n) + Seconds(r)
    ensures n * 15625 + r <= MAX_STEPS * 15625 ==> n <= MAX_STEPS && Seconds(r) <= TickTime(MAX_STEPS - n)
  {
  }

  /** Main result: within the step cap, advancing by n ticks and then by r microseconds is advancing once. */
  lemma AdvanceSplits(root: Root, t: Tracker, p: Physics, n: nat, r: nat)
    requires IsRoot(root) && t.lastUs >= 0 && n * 15625 + r <= MAX_STEPS * 15625
    ensures var mid, end := t.lastUs + n * 15625, t.lastUs + n * 15625 + r;
            Advance(root, Advance(root, t, mid, p), end, p) == Advance(root, t, end, p)
  {
    hide Integrate, Snap, WishSpeed, Seconds, TickTime;
    TickMicroseconds(n, r);
    if n > 0 && r > 0 {
      SplitIntegrate(root, t.v, t.Wish(), WishSpeed(p, t.speedScale), p, n, Seconds(r)) by { SecondsNonNegative(r); }
      assert t.lastUs + n * 15625 + r - t.lastUs == n * 15625 + r;
      assert t.lastUs + n * 15625 + r - (t.lastUs + n * 15625) == r;
    }
  }

  lemma SecondsNonNegative(r: nat)
    ensures Seconds(r) >= 0.0
  {
  }

  // ---- The stop simulation counts the tracker's ticks ----

  /** A tracker that starts where the stop simulation starts, braking from `lastUs` on. */
  function BrakingTracker(vx: real, vy: real, wishMode: int, lastUs: nat): Tracker {
    Tracker(Vec(Abs(vx), Abs(vy)), lastUs, -1, StopWishY(Abs(vy), wishMode), 1.0)
  }

  lemma TrackerTicks(root: Root, vx: real, vy: real, wishMode: int, p: Physics, lastUs: nat, n: nat)
    requires IsRoot(root) && n <= MAX_STEPS
    ensures Advance(root, BrakingTracker(vx, vy, wishMode, lastUs), lastUs + n * 15625, p).v
         == Ticks(root, Vec(Abs(vx), Abs(vy)), StopWish(Abs(vy), wishMode), p.maxSpeed, p, n)
  {
    hide Step, Speed, Seconds, TickTime;
    var t := BrakingTracker(vx, vy, wishMode, lastUs);
    TickMicroseconds(n, 0);
    assert WishSpeed(p, 1.0) == p.maxSpeed;
    assert t.Wish() == StopWish(Abs(vy), wishMode) && t.Wish() != AT_REST;
    if n > 0 { TicksTake(root, t.v, t.Wish(), p.maxSpeed, p, n, MAX_STEPS); }
  }

  lemma {:induction false} StopTicksLeast(root: Root, v: Vec, wish: Vec, threshold: real, p: Physics, n: nat, m: nat)
    requires n <= STOP_TICKS_CAP
    ensures var ticks := StopTicksFrom(root, v, wish, threshold, p, n);
            && (n <= m < ticks ==> Ticks(root, v, wish, p.maxSpeed, p, m).x >= threshold)
            && (ticks < STOP_TICKS_CAP ==> Ticks(root, v, wish, p.maxSpeed, p, ticks).x < threshold)
    decreases STOP_TICKS_CAP - n
  {
    hide Ticks;
    if n < STOP_TICKS_CAP && Ticks(root, v, wish, p.maxSpeed, p, n).x >= threshold {
      StopTicksLeast(root, v, wish, threshold, p, n + 1, m);
    }
  }

  /** Main result: below its cap, the stop simulation's tick count is the least number of ticks after which
      the tracker, braking with the same wish, is below the threshold. */
  lemma StopTicksAreTheTrackers(root: Root, vx: real, vy: real, wishMode: int, threshold: real, p: Physics,
        lastUs: nat, m: nat)
    requires IsRoot(root)
    ensures var ticks, t := StopTicks(root, vx, vy, wishMode, threshold, p), BrakingTracker(vx, vy, wishMode, lastUs);
            && (m < ticks ==> Advance(root, t, lastUs + m * 15625, p).v.x >= threshold)
            && (ticks < STOP_TICKS_CAP ==> Advance(root, t, lastUs + ticks * 15625, p).v.x < threshold)
  {
    hide Ticks, Advance;
    var ticks := StopTicks(root, vx, vy, wishMode, threshold, p);
    StopTicksLeast(root, Vec(Abs(vx), Abs(vy)), StopWish(Abs(vy), wishMode), threshold, p, 0, m);
    if m < ticks { TrackerTicks(root, vx, vy, wishMode, p, lastUs, m); }
    TrackerTicks(root, vx, vy, wishMode, p, lastUs, ticks);
  }

  // ---- The tracker's clock, its rest and its speed scale ----

  /** Main result: the tracker's clock starts with the first call and never goes back, a call that does not advance it
      changes nothing, and without a wish the tracker ends at rest or still at 0.1 or more. */
  lemma ClockAdvances(root: Root, t: Tracker, nowUs: nat, p: Physics)
    ensures var t' := Advance(root, t, nowUs, p);
            && t'.lastUs == (if t.lastUs < nowUs then nowUs else t.lastUs)
            && t' == t.(v := t'.v, lastUs := t'.lastUs)
            && (t.lastUs < 0 || nowUs <= t.lastUs ==> t'.v == t.v)
            && (0 <= t.lastUs < nowUs && t.Wish() == AT_REST ==> t'.v == AT_REST || Speed(root, t'.v) >= 0.1)
  {
    hide Integrate, Speed;
  }

  lemma {:induction false} MaxSpeedUnused(root: Root, v: Vec, wish: Vec, wishSpeed: real, p: Physics, maxSpeed: real,
        remaining: real, steps: nat)
    ensures Integrate(root, v, wish, wishSpeed, p, remaining, steps) ==
            Integrate(root, v, wish, wishSpeed, p.(maxSpeed := maxSpeed), remaining, steps)
    decreases steps
  {
    if steps != 0 && remaining > 0.000000001 {
      var dt := StepTime(remaining);
      StepIgnores(root, v, wish, wishSpeed, p, maxSpeed, dt);
      hide Step;
      MaxSpeedUnused(root, Step(root, v, wish, wishSpeed, p, dt), wish, wishSpeed, p, maxSpeed, remaining - dt,
                     steps - 1);
    }
  }

  lemma StepIgnores(root: Root, v: Vec, wish: Vec, wishSpeed: real, p: Physics, maxSpeed: real, dt: real)
    ensures Step(root, v, wish, wishSpeed, p, dt) == Step(root, v, wish, wishSpeed, p.(maxSpeed := maxSpeed), dt)
  {
  }

  /** Main result: the speed scale acts exactly as a scaled maximum speed. */
  lemma ScaleActsOnMaxSpeed(root: Root, t: Tracker, nowUs: int, p: Physics)
    ensures Advance(root, t, nowUs, p).v ==
            Advance(root, t.(speedScale := 1.0), nowUs, p.(maxSpeed := p.maxSpeed * t.speedScale)).v
  {
    hide Integrate, Speed;
    if 0 <= t.lastUs < nowUs {
      var w := p.maxSpeed * t.speedScale;
      MaxSpeedUnused(root, t.v, t.Wish(), w, p, w, Seconds(nowUs - t.lastUs), MAX_STEPS);
      assert WishSpeed(p, t.speedScale) == w && WishSpeed(p.(maxSpeed := w), 1.0) == w;
      assert t.(speedScale := 1.0).Wish() == t.Wish();
    }
  }
}
