/** How fast the tracked movement can get, over every run of key changes and sub-tick steps. */
module MovementBounds {
  import opened Movement

  // ---- Arithmetic ----

  lemma SquareMonotone(a: real, b: real)
    requires b >= 0.0 && a * a <= b * b
    ensures a <= b
  {
    if a > b {
      ProductPositive(a - b, a + b);
      assert false;
    }
  }

  lemma ProductPositive(a: real, b: real)
    requires a > 0.0 && b > 0.0
    ensures a * b > 0.0
  {
  }

  lemma ProductNonNegative(a: real, b: real)
    requires a >= 0.0 && b >= 0.0
    ensures a * b >= 0.0
  {
  }

  lemma ProductMonotone(a: real, b: real, c: real)
    requires a <= b && c >= 0.0
    ensures a * c <= b * c
  {
    assert (b - a) * c >= 0.0;
  }

  // ---- Speed of a vector ----

  lemma SpeedOf(root: Root, v: Vec)
    requires IsRoot(root)
    ensures SquareSum(v) >= 0.0 && Speed(root, v) >= 0.0 && Speed(root, v) * Speed(root, v) == SquareSum(v)
  {
    assert v.x * v.x >= 0.0 && v.y * v.y >= 0.0;
  }

  lemma SpeedIs(root: Root, v: Vec, s: real)
    requires IsRoot(root) && s >= 0.0 && SquareSum(v) == s * s
    ensures Speed(root, v) == s
  {
    SpeedOf(root, v);
    SquareMonotone(Speed(root, v), s);
    SquareMonotone(s, Speed(root, v));
  }

  lemma ScaleSquares(v: Vec, k: real)
    ensures SquareSum(Scale(v, k)) == SquareSum(v) * (k * k)
  {
    assert (v.x * k) * (v.x * k) == (v.x * v.x) * (k * k);
    assert (v.y * k) * (v.y * k) == (v.y * v.y) * (k * k);
    assert (v.x * v.x + v.y * v.y) * (k * k) == (v.x * v.x) * (k * k) + (v.y * v.y) * (k * k);
  }

  lemma SpeedOfScaled(root: Root, v: Vec, k: real)
    requires IsRoot(root) && k >= 0.0
    ensures Speed(root, Scale(v, k)) == Speed(root, v) * k
  {
    SpeedOf(root, v);
    var s := Speed(root, v);
    ScaleSquares(v, k);
    assert (s * k) * (s * k) == (s * s) * (k * k);
    ProductNonNegative(s, k);
    SpeedIs(root, Scale(v, k), s * k);
  }

  lemma ScaledByRatio(s: real, n: real)
    requires s > 0.0 && n >= 0.0
    ensures n / s >= 0.0 && s * (n / s) == n
  {
  }

  /** Friction takes its share of the speed and nothing else. */
  lemma FrictionSpeed(root: Root, v: Vec, p: Physics, dt: real)
    requires IsRoot(root)
    ensures var s := Speed(root, v);
            Speed(root, Friction(root, v, p, dt)) == if s < 0.1 then s else Slowed(s, p, dt)
  {
    var s := Speed(root, v);
    if s >= 0.1 {
      var n := Slowed(s, p, dt);
      ScaledByRatio(s, n);
      SpeedOfScaled(root, v, n / s);
    }
  }

  /** A rate of at most 64 per second takes at most the whole in a tick. */
  lemma ShareOfTick(rate: real, dt: real)
    requires 0.0 <= dt <= 0.015625 && 0.0 <= rate <= 64.0
    ensures 0.0 <= rate * dt <= 1.0
  {
    ProductMonotone(dt, 0.015625, rate);
    ProductNonNegative(rate, dt);
    assert dt * rate <= 0.015625 * rate;
  }

  /** What friction takes at least from speed s. */
  function Loss(s: real, p: Physics, dt: real): real {
    Share(s, p.friction, dt)
  }

  lemma ShareMonotone(s: real, c: real, f: real, dt: real)
    requires 0.0 <= s <= c && 0.0 <= f <= 64.0 && 0.0 <= dt <= 0.015625
    ensures 0.0 <= Share(s, f, dt) <= Share(c, f, dt) && Share(s, f, dt) <= s
  {
    var g := f * dt;
    ShareOfTick(f, dt);
    ShareBy(s, f, dt);
    ShareBy(c, f, dt);
    hide Share;
    ShareBelow(s, c, g);
  }

  lemma ShareBy(s: real, f: real, dt: real)
    ensures Share(s, f, dt) == s * (f * dt)
  {
  }

  lemma ShareBelow(s: real, c: real, g: real)
    requires 0.0 <= s <= c && 0.0 <= g <= 1.0
    ensures 0.0 <= s * g <= c * g && s * g <= s
  {
    ProductNonNegative(s, g);
    ProductMonotone(s, c, g);
    ProductMonotone(g, 1.0, s);
  }

  lemma SlowedBound(s: real, p: Physics, dt: real)
    requires s >= 0.0 && 0.0 <= dt <= 0.015625 && 0.0 <= p.friction <= 64.0
    ensures 0.0 <= Slowed(s, p, dt) <= s - Loss(s, p, dt)
  {
    hide Share;
    ShareMonotone(s, if s < p.stopSpeed then p.stopSpeed else s, p.friction, dt);
  }

  // ---- Cauchy and the triangle inequality for a push along a unit direction ----

  ghost predicate IsUnit(u: Vec) {
    SquareSum(u) == 1.0
  }

  lemma Cauchy(root: Root, v: Vec, u: Vec)
    requires IsRoot(root) && IsUnit(u)
    ensures -Speed(root, v) <= Dot(v, u) <= Speed(root, v)
  {
    SpeedOf(root, v);
    var d, c, s := Dot(v, u), v.x * u.y - v.y * u.x, Speed(root, v);
    Lagrange(v.x, v.y, u.x, u.y);
    assert d * d <= s * s by { assert c * c >= 0.0; }
    SquareMonotone(d, s);
    assert (-d) * (-d) == d * d;
    SquareMonotone(-d, s);
  }

  lemma Lagrange(a: real, b: real, c: real, d: real)
    ensures (a * c + b * d) * (a * c + b * d) + (a * d - b * c) * (a * d - b * c) == (a * a + b * b) * (c * c + d * d)
  {
  }

  lemma PushedSquare(v: Vec, u: Vec, g: real)
    requires IsUnit(u)
    ensures SquareSum(Along(v, u, g)) == SquareSum(v) + 2.0 * (g * Dot(v, u)) + g * g
  {
    assert (v.x + g * u.x) * (v.x + g * u.x) == v.x * v.x + 2.0 * (g * (v.x * u.x)) + (g * g) * (u.x * u.x);
    assert (v.y + g * u.y) * (v.y + g * u.y) == v.y * v.y + 2.0 * (g * (v.y * u.y)) + (g * g) * (u.y * u.y);
    assert (g * g) * (u.x * u.x) + (g * g) * (u.y * u.y) == (g * g) * SquareSum(u);
    assert g * (v.x * u.x) + g * (v.y * u.y) == g * Dot(v, u);
  }

  lemma Triangle(root: Root, v: Vec, u: Vec, g: real)
    requires IsRoot(root) && IsUnit(u) && g >= 0.0
    ensures Speed(root, Along(v, u, g)) <= Speed(root, v) + g
  {
    hide Speed, Dot, SquareSum, Along;
    var w := Along(v, u, g);
    var s, t, d := Speed(root, v), Speed(root, w), Dot(v, u);
    SpeedOf(root, v);
    SpeedOf(root, w);
    Cauchy(root, v, u);
    PushedSquare(v, u, g);
    assert t * t == s * s + 2.0 * (g * d) + g * g;
    assert g * d <= g * s by { ProductMonotone(d, s, g); }
    assert (s + g) * (s + g) == s * s + 2.0 * (g * s) + g * g;
    SquareMonotone(t, s + g);
  }

  lemma UnitWish(root: Root, wish: Vec)
    requires IsRoot(root) && Speed(root, wish) > 0.0
    ensures IsUnit(Vec(wish.x / Speed(root, wish), wish.y / Speed(root, wish)))
  {
    var mag := Speed(root, wish);
    SpeedOf(root, wish);
    var k := 1.0 / mag;
    ScaleSquares(wish, k);
    assert mag * k == 1.0;
    assert (mag * mag) * (k * k) == (mag * k) * (mag * k);
    assert wish.x / mag == wish.x * k && wish.y / mag == wish.y * k;
  }

  lemma GainNonNegative(p: Physics, dt: real, wishSpeed: real)
    requires wishSpeed >= 0.0 && p.accelerate >= 0.0 && dt >= 0.0
    ensures Gain(p, dt, wishSpeed) >= 0.0
  {
    ProductNonNegative(p.accelerate, dt);
    ProductNonNegative(p.accelerate * dt, wishSpeed);
  }

  lemma PushGain(root: Root, v: Vec, u: Vec, wishSpeed: real, p: Physics, dt: real)
    requires IsRoot(root) && IsUnit(u) && wishSpeed >= 0.0 && p.accelerate >= 0.0 && dt >= 0.0
    ensures Speed(root, Push(v, u, wishSpeed, p, dt)) <= Speed(root, v) + Gain(p, dt, wishSpeed)
  {
    hide Speed, Dot, SquareSum, Along, Gain;
    var room, most := wishSpeed - Dot(v, u), Gain(p, dt, wishSpeed);
    GainNonNegative(p, dt, wishSpeed);
    if room > 0.0 {
      var gain := if most < room then most else room;
      Triangle(root, v, u, gain);
    }
  }

  /** Accelerating adds at most its own share to the speed. */
  lemma AccelerateGain(root: Root, v: Vec, wish: Vec, wishSpeed: real, p: Physics, dt: real)
    requires IsRoot(root) && wishSpeed >= 0.0 && p.accelerate >= 0.0 && dt >= 0.0
    ensures Speed(root, Accelerate(root, v, wish, wishSpeed, p, dt)) <= Speed(root, v) + Gain(p, dt, wishSpeed)
  {
    hide Speed, Push, SquareSum, Gain;
    var mag := Speed(root, wish);
    GainNonNegative(p, dt, wishSpeed);
    if mag >= 0.001 {
      UnitWish(root, wish);
      PushGain(root, v, Vec(wish.x / mag, wish.y / mag), wishSpeed, p, dt);
    }
  }

  // ---- The bound in two dimensions ----

  predicate Sane(p: Physics) {
    0.0 < p.friction <= 64.0 && p.accelerate >= 0.0 && p.maxSpeed >= 0.0
  }

  /** What acceleration adds in a second at full wish. */
  function Thrust(p: Physics): real {
    Times(p.accelerate, p.maxSpeed)
  }

  function Times(a: real, b: real): real {
    a * b
  }

  /** What one step adds at full wish. */
  function FullGain(p: Physics, dt: real): real {
    Times(Thrust(p), dt)
  }

  /** The speed where friction and acceleration balance. */
  function Balance(p: Physics): real
    requires Sane(p)
  {
    Thrust(p) / p.friction
  }

  /** No step leaves a speed above this bound once the speed is below it. */
  predicate Bounds(bound: real, p: Physics)
    requires Sane(p)
  {
    bound >= Balance(p) && bound >= 0.1 + FullGain(p, 0.015625)
  }

  lemma GainBound(p: Physics, dt: real, wishSpeed: real)
    requires Sane(p) && 0.0 <= dt <= 0.015625 && 0.0 <= wishSpeed <= p.maxSpeed
    ensures 0.0 <= Gain(p, dt, wishSpeed) <= FullGain(p, dt) <= FullGain(p, 0.015625)
  {
    hide Share, Times;
    GainArithmetic(p.accelerate, p.maxSpeed, dt, wishSpeed);
  }

  lemma GainArithmetic(a: real, w: real, dt: real, wish: real)
    requires a >= 0.0 && w >= 0.0 && 0.0 <= dt <= 0.015625 && 0.0 <= wish <= w
    ensures 0.0 <= Share(a, dt, wish) <= Times(Times(a, w), dt) <= Times(Times(a, w), 0.015625)
  {
    ProductNonNegative(a, dt);
    ProductNonNegative(a * dt, wish);
    ProductMonotone(wish, w, a * dt);
    ProductNonNegative(a, w);
    ProductMonotone(dt, 0.015625, a * w);
    assert (a * dt) * w == (a * w) * dt;
  }

  /** Friction at a higher speed takes at least what acceleration adds. */
  lemma BalancedStep(s: real, bound: real, p: Physics, dt: real)
    requires Sane(p) && Bounds(bound, p) && 0.0 <= s <= bound && 0.0 <= dt <= 0.015625
    ensures s - Loss(s, p, dt) + FullGain(p, dt) <= bound
  {
    hide Times, Thrust, Share;
    BalanceArithmetic(s, bound, p.friction, Thrust(p), dt);
  }

  lemma BalanceArithmetic(s: real, bound: real, f: real, thrust: real, dt: real)
    requires 0.0 < f <= 64.0 && thrust / f <= bound && 0.0 <= s <= bound && 0.0 <= dt <= 0.015625
    ensures s - Share(s, f, dt) + Times(thrust, dt) <= bound
  {
    var fd, balance := f * dt, thrust / f;
    assert balance * f == thrust;
    ProductMonotone(balance, bound, f);
    ProductMonotone(thrust, bound * f, dt);
    assert bound * f * dt == bound * fd && s * f * dt == s * fd;
    ShareOfTick(f, dt);
    ProductNonNegative(bound - s, 1.0 - fd);
    assert (bound - s) * (1.0 - fd) == bound - s - bound * fd + s * fd;
  }

  lemma StepBound(root: Root, v: Vec, wish: Vec, wishSpeed: real, p: Physics, dt: real, bound: real)
    requires IsRoot(root) && Sane(p) && Bounds(bound, p) && 0.0 <= wishSpeed <= p.maxSpeed && 0.0 <= dt <= 0.015625
    requires Speed(root, v) <= bound
    ensures Speed(root, Step(root, v, wish, wishSpeed, p, dt)) <= bound
  {
    hide Speed, Friction, Accelerate, Slowed, Balance, Gain, FullGain, Loss;
    var s, v1 := Speed(root, v), Friction(root, v, p, dt);
    SpeedOf(root, v);
    FrictionSpeed(root, v, p, dt);
    AccelerateGain(root, v1, wish, wishSpeed, p, dt);
    GainBound(p, dt, wishSpeed);
    if s >= 0.1 {
      SlowedBound(s, p, dt);
      BalancedStep(s, bound, p, dt);
    }
  }

  lemma {:induction false} IntegrateBound(root: Root, v: Vec, wish: Vec, wishSpeed: real, p: Physics, remaining: real,
        steps: nat, bound: real)
    requires IsRoot(root) && Sane(p) && Bounds(bound, p) && 0.0 <= wishSpeed <= p.maxSpeed && Speed(root, v) <= bound
    ensures Speed(root, Integrate(root, v, wish, wishSpeed, p, remaining, steps)) <= bound
    decreases steps
  {
    hide Speed, Step, Bounds;
    if steps != 0 && remaining > 0.000000001 {
      var dt := StepTime(remaining);
      var v' := Step(root, v, wish, wishSpeed, p, dt);
      StepBound(root, v, wish, wishSpeed, p, dt, bound);
      IntegrateBound(root, v', wish, wishSpeed, p, remaining - dt, steps - 1, bound);
    }
  }

  // ---- Runs of the tracker ----

  /** The keys change, or time passes; the speed scale is that of running, walking or crouching. */
  datatype Action = Wish(x: Wish1, y: Wish1, scale: real) | Pass(nowUs: int)

  function Do(root: Root, t: Tracker, a: Action, p: Physics): Tracker {
    match a
    case Wish(x, y, scale) => t.(wishX := x, wishY := y, speedScale := scale)
    case Pass(nowUs) => Advance(root, t, nowUs, p)
  }

  function Run(root: Root, t: Tracker, actions: seq<Action>, p: Physics): Tracker {
    if actions == [] then t
    else Do(root, Run(root, t, actions[..|actions| - 1], p), actions[|actions| - 1], p)
  }

  predicate Scaled(scale: real) {
    0.0 <= scale <= 1.0
  }

  ghost predicate ScaledRun(actions: seq<Action>) {
    forall i :: 0 <= i < |actions| && actions[i].Wish? ==> Scaled(actions[i].scale)
  }

  function Max(a: real, b: real): real {
    if a < b then b else a
  }

  function SpeedLimit(initial: real, p: Physics): real
    requires Sane(p)
  {
    Max(initial, Max(Balance(p), 0.1 + FullGain(p, 0.015625)))
  }

  lemma RestSpeed(root: Root)
    requires IsRoot(root)
    ensures Speed(root, AT_REST) == 0.0
  {
    SpeedIs(root, AT_REST, 0.0);
  }

  lemma SnapBound(root: Root, v: Vec, wish: Vec, bound: real)
    requires IsRoot(root) && Speed(root, v) <= bound
    ensures Speed(root, Snap(root, v, wish)) <= bound
  {
    hide Speed;
    SpeedOf(root, v);
    RestSpeed(root);
  }

  lemma AdvanceBound(root: Root, t: Tracker, nowUs: int, p: Physics, bound: real)
    requires IsRoot(root) && Sane(p) && Bounds(bound, p) && Scaled(t.speedScale) && Speed(root, t.v) <= bound
    ensures Speed(root, Advance(root, t, nowUs, p).v) <= bound
  {
    hide Speed, Integrate, Bounds, Snap, Seconds, WishSpeed;
    if 0 <= t.lastUs < nowUs {
      WishSpeedBound(p, t.speedScale);
      var v := Integrate(root, t.v, t.Wish(), WishSpeed(p, t.speedScale), p, Seconds(nowUs - t.lastUs), MAX_STEPS);
      IntegrateBound(root, t.v, t.Wish(), WishSpeed(p, t.speedScale), p, Seconds(nowUs - t.lastUs), MAX_STEPS, bound);
      SnapBound(root, v, t.Wish(), bound);
    }
  }

  lemma WishSpeedBound(p: Physics, scale: real)
    requires p.maxSpeed >= 0.0 && Scaled(scale)
    ensures 0.0 <= WishSpeed(p, scale) <= p.maxSpeed
  {
    ProductNonNegative(p.maxSpeed, scale);
    ProductMonotone(scale, 1.0, p.maxSpeed);
  }

  /** Main result: over every run of key changes and elapsed times the speed never exceeds the larger of the
      initial speed, the balance of friction and acceleration, and one tick's gain above friction's cutoff. */
  lemma {:induction false} SpeedStaysBounded(root: Root, t: Tracker, actions: seq<Action>, p: Physics)
    requires IsRoot(root) && Sane(p) && Scaled(t.speedScale) && ScaledRun(actions)
    ensures Scaled(Run(root, t, actions, p).speedScale)
    ensures Speed(root, Run(root, t, actions, p).v) <= SpeedLimit(Speed(root, t.v), p)
  {
    if actions != [] {
      var before, last := actions[..|actions| - 1], actions[|actions| - 1];
      assert forall i :: 0 <= i < |before| ==> before[i] == actions[i];
      SpeedStaysBounded(root, t, before, p);
      if last.Pass? { AdvanceBound(root, Run(root, t, before, p), last.nowUs, p, SpeedLimit(Speed(root, t.v), p)); }
    }
  }
}
