/** When the maximum speed W is a bound of the two-dimensional speed: the exact condition on the physics. */
module MovementCap {
  import opened Movement
  import opened MovementBounds
  import opened MovementOneAxis

  /** No step at any wish speed up to W and of at most a tick takes a speed of at most W above W. */
  ghost predicate CapsSpeed(root: Root, p: Physics) {
    forall v, wish, wishSpeed: real, dt: real ::
      0.0 <= wishSpeed <= p.maxSpeed && 0.0 <= dt <= 0.015625 && Speed(root, v) <= p.maxSpeed ==>
        Speed(root, Step(root, v, wish, wishSpeed, p, dt)) <= p.maxSpeed
  }

  /** What friction takes in a second at speed W. */
  function Drag(p: Physics): real {
    Times(Max(p.stopSpeed, p.maxSpeed), p.friction)
  }

  /** There is no acceleration, or friction at W takes at least what acceleration adds and a tick's gain above
      friction's cutoff stays within W. */
  predicate Balanced(p: Physics) {
    p.accelerate == 0.0 || (Thrust(p) <= Drag(p) && 0.1 + FullGain(p, 0.015625) <= p.maxSpeed)
  }

  // ---- Balanced physics keep the speed within W ----

  /** Slowed speed plus a step's gain, over the share x of the speed that friction takes. */
  lemma BalanceShares(s: real, control: real, drag: real, w: real, stop: real, x: real)
    requires 0.0 <= s <= w && x >= 0.0 && control == (if s < stop then stop else s) && drag == Max(stop, w)
    requires s - control * x > 0.0
    ensures s - control * x + drag * x <= w
  {
    if s < stop {
      if stop < w {
        assert x < 1.0 by {
          if x >= 1.0 { ProductMonotone(1.0, x, stop); }
        }
        ProductMonotone(x, 1.0, w - stop);
        assert (w - stop) * x == w * x - stop * x;
      }
    } else {
      assert x < 1.0 by {
        if x >= 1.0 { ProductMonotone(1.0, x, s); }
      }
      ProductNonNegative(w - s, 1.0 - x);
      assert (w - s) * (1.0 - x) == w - s - w * x + s * x;
    }
  }

  /** In a step friction at W takes at least what acceleration adds. */
  lemma DragTakes(p: Physics, dt: real)
    requires p.friction > 0.0 && 0.0 <= dt <= 0.015625 && Thrust(p) <= Drag(p)
    ensures FullGain(p, dt) <= Max(p.stopSpeed, p.maxSpeed) * (p.friction * dt) && p.friction * dt >= 0.0
  {
    var drag := Max(p.stopSpeed, p.maxSpeed);
    ProductNonNegative(p.friction, dt);
    ProductMonotone(Thrust(p), Drag(p), dt);
    assert drag * p.friction * dt == drag * (p.friction * dt);
  }

  lemma SlowedGain(s: real, p: Physics, dt: real)
    requires p.friction > 0.0 && p.accelerate >= 0.0 && p.maxSpeed > 0.0 && 0.0 <= dt <= 0.015625
    requires 0.0 <= s <= p.maxSpeed && Thrust(p) <= Drag(p) && 0.1 + FullGain(p, 0.015625) <= p.maxSpeed
    ensures Slowed(s, p, dt) + FullGain(p, dt) <= p.maxSpeed
  {
    var control, x := if s < p.stopSpeed then p.stopSpeed else s, p.friction * dt;
    DragTakes(p, dt);
    GainArithmetic(p.accelerate, p.maxSpeed, dt, p.maxSpeed);
    assert FullGain(p, dt) <= FullGain(p, 0.015625);
    ShareBy(control, p.friction, dt);
    hide Share, Thrust, Drag, FullGain;
    if s - control * x > 0.0 {
      BalanceShares(s, control, Max(p.stopSpeed, p.maxSpeed), p.maxSpeed, p.stopSpeed, x);
    }
  }

  lemma StepCapped(root: Root, v: Vec, wish: Vec, wishSpeed: real, p: Physics, dt: real)
    requires IsRoot(root) && p.friction > 0.0 && p.accelerate >= 0.0 && p.maxSpeed > 0.0 && Balanced(p)
    requires 0.0 <= wishSpeed <= p.maxSpeed && 0.0 <= dt <= 0.015625 && Speed(root, v) <= p.maxSpeed
    ensures Speed(root, Step(root, v, wish, wishSpeed, p, dt)) <= p.maxSpeed
  {
    hide Speed, Friction, Accelerate, Slowed, Gain, FullGain, Thrust, Drag, Times;
    var s, v1 := Speed(root, v), Friction(root, v, p, dt);
    SpeedOf(root, v);
    FrictionSpeed(root, v, p, dt);
    AccelerateGain(root, v1, wish, wishSpeed, p, dt);
    if p.accelerate == 0.0 {
      NoGain(p, dt, wishSpeed);
      SlowedLess(s, p, dt);
    } else {
      GainWithin(p, dt, wishSpeed);
      SlowedGain(s, p, dt);
    }
  }

  lemma NoGain(p: Physics, dt: real, wishSpeed: real)
    requires p.accelerate == 0.0
    ensures Gain(p, dt, wishSpeed) == 0.0
  {
    assert 0.0 * dt == 0.0;
  }

  lemma GainWithin(p: Physics, dt: real, wishSpeed: real)
    requires p.accelerate >= 0.0 && 0.0 <= wishSpeed <= p.maxSpeed && 0.0 <= dt <= 0.015625
    ensures Gain(p, dt, wishSpeed) <= FullGain(p, dt) <= FullGain(p, 0.015625)
  {
    hide Share, Times;
    GainArithmetic(p.accelerate, p.maxSpeed, dt, wishSpeed);
  }

  lemma SlowedLess(s: real, p: Physics, dt: real)
    requires s >= 0.0 && p.friction > 0.0 && dt >= 0.0
    ensures Slowed(s, p, dt) <= s
  {
    var control := if s < p.stopSpeed then p.stopSpeed else s;
    ProductNonNegative(p.friction, dt);
    ProductNonNegative(control, p.friction * dt);
    assert control * p.friction * dt == control * (p.friction * dt);
  }

  // ---- Other physics take it above W ----

  /** A push along x from (c, q) that reaches W exactly leaves more than W behind. */
  lemma ReachesAbove(root: Root, c: real, q: real, p: Physics)
    requires IsRoot(root) && q > 0.0 && p.maxSpeed > 0.0 && c < p.maxSpeed <= c + FullGain(p, 0.015625)
    ensures Speed(root, Accelerate(root, Vec(c, q), WishOf(1, 0), p.maxSpeed, p, 0.015625)) > p.maxSpeed
  {
    hide Speed;
    WishOnAxis(root, 1);
    var w := p.maxSpeed;
    assert Gain(p, 0.015625, w) == FullGain(p, 0.015625) by { GainIsFull(p); }
    assert Dot(Vec(c, q), Vec(1.0, 0.0)) == c;
    assert Vec(1.0 / 1.0, 0.0 / 1.0) == Vec(1.0, 0.0);
    var room := w - c;
    assert Along(Vec(c, q), Vec(1.0, 0.0), room) == Vec(w, q);
    assert Accelerate(root, Vec(c, q), WishOf(1, 0), w, p, 0.015625) == Vec(w, q);
    var t := Speed(root, Vec(w, q));
    SpeedOf(root, Vec(w, q));
    TimesPositive(q, q);
    assert t * t == w * w + Times(q, q);
    HypotenuseExceeds(t, w, Times(q, q));
  }

  lemma TimesPositive(a: real, b: real)
    requires a > 0.0 && b > 0.0
    ensures Times(a, b) > 0.0
  {
  }

  lemma HypotenuseExceeds(t: real, w: real, qq: real)
    requires t >= 0.0 && w > 0.0 && qq > 0.0 && t * t == w * w + qq
    ensures t > w
  {
    if t <= w {
      ProductMonotone(t, w, t);
      ProductMonotone(t, w, w);
    }
  }

  lemma GainIsFull(p: Physics)
    ensures Gain(p, 0.015625, p.maxSpeed) == FullGain(p, 0.015625)
  {
    assert p.accelerate * 0.015625 * p.maxSpeed == p.accelerate * p.maxSpeed * 0.015625;
  }

  /** The other side of a right triangle. */
  lemma Leg(root: Root, c: real, s: real) returns (q: real)
    requires IsRoot(root) && 0.0 <= c < s
    ensures q > 0.0 && Speed(root, Vec(c, q)) == s
  {
    SquaresApart(c, s);
    q := root(s * s - c * c);
    assert q != 0.0 && c * c + q * q == s * s;
    SpeedIs(root, Vec(c, q), s);
  }

  lemma SquaresApart(c: real, s: real)
    requires 0.0 <= c < s
    ensures s * s - c * c > 0.0
  {
    ProductPositive(s - c, s + c);
    assert (s - c) * (s + c) == s * s - c * c;
  }

  /** Below friction's cutoff nothing brakes the sideways speed. */
  lemma SlowStartExceeds(root: Root, p: Physics) returns (v: Vec)
    requires IsRoot(root) && p.accelerate > 0.0 && p.maxSpeed > 0.0
    requires 0.1 + FullGain(p, 0.015625) > p.maxSpeed
    ensures Speed(root, v) <= p.maxSpeed
    ensures Speed(root, Step(root, v, WishOf(1, 0), p.maxSpeed, p, 0.015625)) > p.maxSpeed
  {
    hide Speed, Accelerate, FullGain;
    var w, gain := p.maxSpeed, FullGain(p, 0.015625);
    assert gain > 0.0 by { ThrustPositive(p); }
    var c := if w - gain > 0.0 then w - gain else 0.0;
    var m := if w < 0.1 then w else 0.1;
    var s := (c + m) / 2.0;
    var q := Leg(root, c, s);
    v := Vec(c, q);
    ReachesAbove(root, c, q, p);
  }

  lemma ThrustPositive(p: Physics)
    requires p.accelerate > 0.0 && p.maxSpeed > 0.0
    ensures Thrust(p) > 0.0 && FullGain(p, 0.015625) > 0.0
  {
    ProductPositive(p.accelerate, p.maxSpeed);
  }

  /** The vector that friction scales down to u. */
  lemma BeforeFriction(root: Root, u: Vec, n: real, p: Physics) returns (v: Vec)
    requires IsRoot(root) && p.maxSpeed >= 0.1 && n > 0.0
    requires Speed(root, u) == n == Slowed(p.maxSpeed, p, 0.015625)
    ensures Speed(root, v) == p.maxSpeed && Friction(root, v, p, 0.015625) == u
  {
    hide Speed, Slowed;
    var w := p.maxSpeed;
    var k := w / n;
    v := Scale(u, k);
    assert n * k == w && k > 0.0;
    SpeedOfScaled(root, u, k);
    assert k * (n / w) == 1.0 by { RatioInverse(w, n); }
    ScaledBack(u, k, n / w);
  }

  lemma CancelFactor(x: real, w: real)
    requires w > 0.0 && x * w == w
    ensures x == 1.0
  {
    if x > 1.0 {
      ProductPositive(x - 1.0, w);
    } else if x < 1.0 {
      ProductPositive(1.0 - x, w);
    }
  }

  lemma RatioInverse(w: real, n: real)
    requires w > 0.0 && n > 0.0
    ensures (w / n) * (n / w) == 1.0
  {
    var k, j := w / n, n / w;
    assert k * n == w && j * w == n;
    var x := k * j;
    calc { x * w; k * (j * w); k * n; w; }
    CancelFactor(x, w);
  }

  lemma ScaledBack(u: Vec, k: real, j: real)
    requires k * j == 1.0
    ensures Scale(Scale(u, k), j) == u
  {
    assert u.x * k * j == u.x * (k * j) && u.y * k * j == u.y * (k * j);
  }

  /** At W, friction that takes less than a tick's gain leaves a speed from which steering passes W. */
  lemma WeakFrictionExceeds(root: Root, p: Physics) returns (v: Vec)
    requires IsRoot(root) && p.friction > 0.0 && p.accelerate > 0.0 && p.maxSpeed > 0.0
    requires Thrust(p) > Drag(p) && 0.1 + FullGain(p, 0.015625) <= p.maxSpeed
    ensures Speed(root, v) <= p.maxSpeed
    ensures Speed(root, Step(root, v, WishOf(1, 0), p.maxSpeed, p, 0.015625)) > p.maxSpeed
  {
    hide Speed, Accelerate, Friction;
    var w, gain := p.maxSpeed, FullGain(p, 0.015625);
    ThrustPositive(p);
    var c, n := w - gain, w - Times(Drag(p), 0.015625);
    assert Slowed(w, p, 0.015625) == n && c < n by { SlowedAtCap(p); }
    var q := Leg(root, c, n);
    v := BeforeFriction(root, Vec(c, q), n, p);
    ReachesAbove(root, c, q, p);
  }

  lemma SlowedAtCap(p: Physics)
    requires p.maxSpeed > 0.0 && Thrust(p) > Drag(p) && 0.1 + FullGain(p, 0.015625) <= p.maxSpeed
    ensures Times(Drag(p), 0.015625) < FullGain(p, 0.015625)
    ensures Slowed(p.maxSpeed, p, 0.015625) == p.maxSpeed - Times(Drag(p), 0.015625)
  {
    var control := if p.maxSpeed < p.stopSpeed then p.stopSpeed else p.maxSpeed;
    assert Share(control, p.friction, 0.015625) == Times(Drag(p), 0.015625);
  }

  /** Unbalanced physics have a speed of at most W from which one tick of steering passes W. */
  lemma UnbalancedExceeds(root: Root, p: Physics) returns (v: Vec)
    requires IsRoot(root) && p.friction > 0.0 && p.accelerate >= 0.0 && p.maxSpeed > 0.0 && !Balanced(p)
    ensures Speed(root, v) <= p.maxSpeed
    ensures Speed(root, Step(root, v, WishOf(1, 0), p.maxSpeed, p, 0.015625)) > p.maxSpeed
  {
    hide Speed, Step;
    if 0.1 + FullGain(p, 0.015625) > p.maxSpeed {
      v := SlowStartExceeds(root, p);
    } else {
      v := WeakFrictionExceeds(root, p);
    }
  }

  // ---- Runs ----

  /** No run of key changes and elapsed times takes a tracker from a speed of at most W above W. */
  ghost predicate CapsRuns(root: Root, p: Physics) {
    forall t: Tracker, actions ::
      Scaled(t.speedScale) && ScaledRun(actions) && Speed(root, t.v) <= p.maxSpeed ==>
        Speed(root, Run(root, t, actions, p).v) <= p.maxSpeed
  }

  lemma {:induction false} IntegrateCapped(root: Root, v: Vec, wish: Vec, wishSpeed: real, p: Physics,
                                           remaining: real, steps: nat)
    requires IsRoot(root) && p.friction > 0.0 && p.accelerate >= 0.0 && p.maxSpeed > 0.0 && Balanced(p)
    requires 0.0 <= wishSpeed <= p.maxSpeed && Speed(root, v) <= p.maxSpeed
    ensures Speed(root, Integrate(root, v, wish, wishSpeed, p, remaining, steps)) <= p.maxSpeed
    decreases steps
  {
    hide Speed, Step, Balanced;
    if steps != 0 && remaining > 0.000000001 {
      var dt := StepTime(remaining);
      var v' := Step(root, v, wish, wishSpeed, p, dt);
      StepCapped(root, v, wish, wishSpeed, p, dt);
      IntegrateCapped(root, v', wish, wishSpeed, p, remaining - dt, steps - 1);
    }
  }

  lemma AdvanceCapped(root: Root, t: Tracker, nowUs: int, p: Physics)
    requires IsRoot(root) && p.friction > 0.0 && p.accelerate >= 0.0 && p.maxSpeed > 0.0 && Balanced(p)
    requires Scaled(t.speedScale) && Speed(root, t.v) <= p.maxSpeed
    ensures Speed(root, Advance(root, t, nowUs, p).v) <= p.maxSpeed
  {
    hide Speed, Integrate, Balanced, Snap, Seconds, WishSpeed;
    if 0 <= t.lastUs < nowUs {
      WishSpeedBound(p, t.speedScale);
      var wishSpeed, seconds := WishSpeed(p, t.speedScale), Seconds(nowUs - t.lastUs);
      IntegrateCapped(root, t.v, t.Wish(), wishSpeed, p, seconds, MAX_STEPS);
      SnapBound(root, Integrate(root, t.v, t.Wish(), wishSpeed, p, seconds, MAX_STEPS), t.Wish(), p.maxSpeed);
    }
  }

  lemma {:induction false} RunCapped(root: Root, t: Tracker, actions: seq<Action>, p: Physics)
    requires IsRoot(root) && p.friction > 0.0 && p.accelerate >= 0.0 && p.maxSpeed > 0.0 && Balanced(p)
    requires Scaled(t.speedScale) && ScaledRun(actions) && Speed(root, t.v) <= p.maxSpeed
    ensures Scaled(Run(root, t, actions, p).speedScale) && Speed(root, Run(root, t, actions, p).v) <= p.maxSpeed
  {
    hide Speed, Advance, Balanced;
    if actions != [] {
      var before, last := actions[..|actions| - 1], actions[|actions| - 1];
      assert forall i :: 0 <= i < |before| ==> before[i] == actions[i];
      RunCapped(root, t, before, p);
      if last.Pass? {
        AdvanceCapped(root, Run(root, t, before, p), last.nowUs, p);
        AdvanceScale(root, Run(root, t, before, p), last.nowUs, p);
      }
    }
  }

  lemma AdvanceScale(root: Root, t: Tracker, nowUs: int, p: Physics)
    ensures Advance(root, t, nowUs, p).speedScale == t.speedScale
  {
    hide Integrate, Snap;
  }

  /** One tick of steering, as a run. */
  lemma TickRuns(root: Root, v: Vec, p: Physics)
    ensures var t := Tracker(v, 0, 1, 0, 1.0);
            Run(root, t, [Pass(15625)], p).v == Step(root, v, WishOf(1, 0), p.maxSpeed, p, 0.015625)
  {
    hide Step;
    var t, actions := Tracker(v, 0, 1, 0, 1.0), [Pass(15625)];
    assert actions[..0] == [] && Run(root, t, [], p) == t;
    assert WishSpeed(p, 1.0) == p.maxSpeed && Seconds(15625) == 0.015625;
    var v' := Step(root, v, WishOf(1, 0), p.maxSpeed, p, 0.015625);
    assert Integrate(root, v', WishOf(1, 0), p.maxSpeed, p, 0.0, MAX_STEPS - 1) == v';
    assert Integrate(root, v, WishOf(1, 0), p.maxSpeed, p, 0.015625, MAX_STEPS) == v';
    assert WishOf(1, 0) != AT_REST;
  }

  // ---- The exact condition ----

  /** Main result: W bounds the two-dimensional speed, of every step and over every run, exactly when there is no
      acceleration or friction at W takes at least what acceleration adds and a tick's gain above friction's cutoff
      stays within W. */
  lemma MaxSpeedCapsIff(root: Root, p: Physics)
    requires IsRoot(root) && p.friction > 0.0 && p.accelerate >= 0.0 && p.maxSpeed > 0.0
    ensures var condition :=
              p.accelerate == 0.0 ||
              (p.accelerate * p.maxSpeed <= Max(p.stopSpeed, p.maxSpeed) * p.friction &&
               0.1 + p.accelerate * p.maxSpeed * 0.015625 <= p.maxSpeed);
            (CapsSpeed(root, p) <==> condition) && (CapsRuns(root, p) <==> condition)
  {
    hide Speed, Step, Run, ScaledRun;
    if Balanced(p) {
      forall v, wish, wishSpeed: real, dt: real
        | 0.0 <= wishSpeed <= p.maxSpeed && 0.0 <= dt <= 0.015625 && Speed(root, v) <= p.maxSpeed
        ensures Speed(root, Step(root, v, wish, wishSpeed, p, dt)) <= p.maxSpeed
      {
        StepCapped(root, v, wish, wishSpeed, p, dt);
      }
      forall t: Tracker, actions | Scaled(t.speedScale) && ScaledRun(actions) && Speed(root, t.v) <= p.maxSpeed
        ensures Speed(root, Run(root, t, actions, p).v) <= p.maxSpeed
      {
        RunCapped(root, t, actions, p);
      }
    } else {
      var v := UnbalancedExceeds(root, p);
      assert !CapsSpeed(root, p);
      TickRuns(root, v, p);
      TickIsScaled();
      assert !CapsRuns(root, p) by {
        assert Speed(root, Run(root, Tracker(v, 0, 1, 0, 1.0), [Pass(15625)], p).v) > p.maxSpeed;
      }
    }
  }

  lemma TickIsScaled()
    ensures ScaledRun([Pass(15625)])
  {
  }

  /** With a stop speed within W the condition compares the two coefficients. */
  lemma MaxSpeedCapsByCoefficients(root: Root, p: Physics)
    requires IsRoot(root) && p.friction > 0.0 && p.accelerate > 0.0 && p.maxSpeed > 0.0 && p.stopSpeed <= p.maxSpeed
    ensures CapsRuns(root, p) <==>
            p.accelerate <= p.friction && 0.1 + p.accelerate * p.maxSpeed * 0.015625 <= p.maxSpeed
  {
    hide CapsSpeed, CapsRuns;
    MaxSpeedCapsIff(root, p);
    assert Max(p.stopSpeed, p.maxSpeed) == p.maxSpeed;
    CompareProducts(p.accelerate, p.friction, p.maxSpeed);
  }

  lemma CompareProducts(a: real, f: real, w: real)
    requires w > 0.0
    ensures a * w <= w * f <==> a <= f
  {
    if a <= f {
      ProductMonotone(a, f, w);
    } else {
      ProductPositive(a - f, w);
      assert (a - f) * w == a * w - f * w;
    }
  }

  /** The default physics are not balanced. */
  lemma DefaultsExceedMaxSpeed(root: Root)
    requires IsRoot(root)
    ensures !CapsRuns(root, DEFAULTS)
  {
    MaxSpeedCapsByCoefficients(root, DEFAULTS);
  }
}
