/** Source-style 2-D movement over the reals: friction, acceleration, the tracker's sub-tick integration, the
    stop simulation and the chain from ticks (0.015625 s) to a timer duration. The square root is a parameter: any
    non-negative function whose square is its argument. */
module Movement {

  datatype Vec = Vec(x: real, y: real)

  datatype Physics = Physics(friction: real, accelerate: real, stopSpeed: real, maxSpeed: real)

  type Root = real -> real

  ghost predicate IsRoot(root: Root) {
    forall x: real :: x >= 0.0 ==> root(x) >= 0.0 && root(x) * root(x) == x
  }

  const MAX_STEPS := 256
  const STOP_TICKS_CAP := 100
  const AT_REST: Vec := Vec(0.0, 0.0)

  function SquareSum(v: Vec): real {
    v.x * v.x + v.y * v.y
  }

  function Speed(root: Root, v: Vec): real {
    root(SquareSum(v))
  }

  function Scale(v: Vec, k: real): Vec {
    Vec(v.x * k, v.y * k)
  }

  function Dot(v: Vec, w: Vec): real {
    v.x * w.x + v.y * w.y
  }

  function Share(a: real, b: real, c: real): real {
    a * b * c
  }

  /** Speed after friction: never below zero. */
  function Slowed(speed: real, p: Physics, dt: real): real {
    var control := if speed < p.stopSpeed then p.stopSpeed else speed;
    var left := speed - Share(control, p.friction, dt);
    if left > 0.0 then left else 0.0
  }

  function Friction(root: Root, v: Vec, p: Physics, dt: real): Vec {
    var speed := Speed(root, v);
    if speed < 0.1 then v else Scale(v, Slowed(speed, p, dt) / speed)
  }

  /** What one step adds at most. */
  function Gain(p: Physics, dt: real, wishSpeed: real): real {
    Share(p.accelerate, dt, wishSpeed)
  }

  function Along(v: Vec, unit: Vec, gain: real): Vec {
    Vec(v.x + gain * unit.x, v.y + gain * unit.y)
  }

  /** Acceleration towards a unit direction. */
  function Push(v: Vec, unit: Vec, wishSpeed: real, p: Physics, dt: real): Vec {
    var room := wishSpeed - Dot(v, unit);
    if room <= 0.0 then v
    else
      var most := Gain(p, dt, wishSpeed);
      var gain := if most < room then most else room;
      Along(v, unit, gain)
  }

  function Accelerate(root: Root, v: Vec, wish: Vec, wishSpeed: real, p: Physics, dt: real): Vec {
    var mag := Speed(root, wish);
    if mag < 0.001 then v else Push(v, Vec(wish.x / mag, wish.y / mag), wishSpeed, p, dt)
  }

  /** One integration step: friction first. */
  function Step(root: Root, v: Vec, wish: Vec, wishSpeed: real, p: Physics, dt: real): Vec {
    Accelerate(root, Friction(root, v, p, dt), wish, wishSpeed, p, dt)
  }

  // ---- The tracker ----

  /** Which keys the wish comes from: -1, 0 or 1 on each axis. */
  type Wish1 = w: int | -1 <= w <= 1

  function WishOf(x: Wish1, y: Wish1): Vec {
    Vec(x as real, y as real)
  }

  predicate Still(v: Vec, wish: Vec) {
    wish == AT_REST && v == AT_REST
  }

  /** A tick of the game is 1/64 of a second; the last step takes what is left. */
  function StepTime(remaining: real): real {
    if remaining < 0.015625 then remaining else 0.015625
  }

  /** The integration loop over `remaining` seconds with at most `steps` steps left. */
  function Integrate(root: Root, v: Vec, wish: Vec, wishSpeed: real, p: Physics, remaining: real, steps: nat): Vec
    decreases steps
  {
    if steps == 0 || remaining <= 0.000000001 then v
    else
      var dt := StepTime(remaining);
      var v' := Step(root, v, wish, wishSpeed, p, dt);
      if Still(v', wish) then v' else Integrate(root, v', wish, wishSpeed, p, remaining - dt, steps - 1)
  }

  /** A residue too small for friction becomes exactly zero when nothing is wished for. */
  function Snap(root: Root, v: Vec, wish: Vec): Vec {
    if wish == AT_REST && Speed(root, v) < 0.1 then AT_REST else v
  }

  datatype Tracker = Tracker(v: Vec, lastUs: int, wishX: Wish1, wishY: Wish1, speedScale: real) {
    function Wish(): Vec {
      WishOf(wishX, wishY)
    }
  }

  function Seconds(us: int): real {
    us as real * 0.000001
  }

  function WishSpeed(p: Physics, scale: real): real {
    p.maxSpeed * scale
  }

  function Advance(root: Root, t: Tracker, nowUs: int, p: Physics): Tracker {
    if t.lastUs < 0 then t.(lastUs := nowUs)
    else if nowUs <= t.lastUs then t
    else
      var v := Integrate(root, t.v, t.Wish(), WishSpeed(p, t.speedScale), p, Seconds(nowUs - t.lastUs), MAX_STEPS);
      t.(v := Snap(root, v, t.Wish()), lastUs := nowUs)
  }

  /** The tracker as the object it is. */
  class VelocityTracker {
    var vx: real
    var vy: real
    var lastUs: int
    var wishX: Wish1
    var wishY: Wish1
    var speedScale: real

    ghost function State(): Tracker
      reads this
    {
      Tracker(Vec(vx, vy), lastUs, wishX, wishY, speedScale)
    }

    constructor ()
      ensures State() == Tracker(AT_REST, -1, 0, 0, 1.0)
    {
      vx, vy, lastUs, wishX, wishY, speedScale := 0.0, 0.0, -1, 0, 0, 1.0;
    }

    method AdvanceVelocity(root: Root, nowUs: int, p: Physics)
      modifies this
      ensures State() == Advance(root, old(State()), nowUs, p)
    {
      hide Step, Speed;
      if lastUs < 0 {
        lastUs := nowUs;
        return;
      }
      if nowUs <= lastUs { return; }
      var remaining := Seconds(nowUs - lastUs);
      lastUs := nowUs;
      var wishSpeed, wish := WishSpeed(p, speedScale), WishOf(wishX, wishY);
      ghost var v0, total := Vec(vx, vy), remaining;
      var i := 0;
      while i < MAX_STEPS && remaining > 0.000000001
        invariant 0 <= i <= MAX_STEPS
        invariant State() == old(State()).(v := Vec(vx, vy), lastUs := nowUs)
        invariant Integrate(root, v0, wish, wishSpeed, p, total, MAX_STEPS)
               == Integrate(root, Vec(vx, vy), wish, wishSpeed, p, remaining, MAX_STEPS - i)
      {
        var dt := StepTime(remaining);
        remaining := remaining - dt;
        var v := Step(root, Vec(vx, vy), wish, wishSpeed, p, dt);
        vx, vy := v.x, v.y;
        i := i + 1;
        if Still(v, wish) { break; }
      }
      assert Integrate(root, v0, wish, wishSpeed, p, total, MAX_STEPS) == Vec(vx, vy);
      if wishX == 0 && wishY == 0 && Speed(root, Vec(vx, vy)) < 0.1 { vx, vy := 0.0, 0.0; }
    }
  }

  // ---- The stop simulation ----

  function Abs(r: real): real {
    if r < 0.0 then -r else r
  }

  /** The wish of the simulated stop: against +X, and along, against or off the orthogonal speed. */
  function StopWishY(vy: real, wishMode: int): Wish1 {
    if wishMode == 1 && vy > 0.0 then 1
    else if wishMode == 2 && vy > 0.0 then -1
    else if wishMode == 3 then (if vy > 0.0 then -1 else 1)
    else 0
  }

  function StopWish(vy: real, wishMode: int): Vec {
    WishOf(-1, StopWishY(vy, wishMode))
  }

  /** n whole ticks. */
  function Ticks(root: Root, v: Vec, wish: Vec, wishSpeed: real, p: Physics, n: nat): Vec {
    if n == 0 then v else Step(root, Ticks(root, v, wish, wishSpeed, p, n - 1), wish, wishSpeed, p, 0.015625)
  }

  /** The tick count of the stop simulation, from tick n on. */
  function StopTicksFrom(root: Root, v: Vec, wish: Vec, threshold: real, p: Physics, n: nat): (ticks: nat)
    requires n <= STOP_TICKS_CAP
    ensures n <= ticks <= STOP_TICKS_CAP
    decreases STOP_TICKS_CAP - n
  {
    if n == STOP_TICKS_CAP || Ticks(root, v, wish, p.maxSpeed, p, n).x < threshold then n
    else StopTicksFrom(root, v, wish, threshold, p, n + 1)
  }

  function StopTicks(root: Root, vx: real, vy: real, wishMode: int, threshold: real, p: Physics): nat {
    StopTicksFrom(root, Vec(Abs(vx), Abs(vy)), StopWish(Abs(vy), wishMode), threshold, p, 0)
  }

  /** Whole milliseconds, rounded up. */
  function CeilMs(ticks: nat): (ms: nat)
    ensures ms * 1000 >= ticks * 15625 > (ms - 1) * 1000
  {
    (ticks * 15625 + 999) / 1000
  }

  method SimulateStopDurationMs(root: Root, vx: real, vy: real, wishMode: int, threshold: real,
        p: Physics) returns (ms: nat)
    ensures ms == CeilMs(StopTicks(root, vx, vy, wishMode, threshold, p))
  {
    var v, wish := Vec(Abs(vx), Abs(vy)), StopWish(Abs(vy), wishMode);
    if v.x < threshold { return 0; }
    var ticks := 0;
    while ticks < STOP_TICKS_CAP && v.x >= threshold
      invariant 0 <= ticks <= STOP_TICKS_CAP
      invariant v == Ticks(root, Vec(Abs(vx), Abs(vy)), wish, p.maxSpeed, p, ticks)
      invariant StopTicks(root, vx, vy, wishMode, threshold, p)
             == StopTicksFrom(root, Vec(Abs(vx), Abs(vy)), wish, threshold, p, ticks)
    {
      v := Step(root, v, wish, p.maxSpeed, p, 0.015625);
      ticks := ticks + 1;
    }
    ms := CeilMs(ticks);
  }

  // ---- From ticks to a timer ----

  /** A double: a finite value, or none (infinite or not a number). */
  datatype Num = Finite(value: real) | NonFinite

  function ClampInt(value: int, lo: int, hi: int): int {
    if value < lo then lo else if value > hi then hi else value
  }

  function ClampReal(value: real, lo: real, hi: real): real {
    if value < lo then lo else if value > hi then hi else value
  }

  function MaxInt(a: int, b: int): int {
    if a < b then b else a
  }

  /** Nearest integer of a positive value, halves away from zero. */
  function Round(value: real): int {
    (value + 0.5).Floor
  }

  datatype Shaping = Shaping(lutMaxMs: int, minStopMs: int, latencyMarginMs: int, authorityBiasMs: Num)

  /** `curve` is what the power curve returned for this duration. */
  function ShapeBrakeDurationMs(pureDurMs: int, curve: Num, s: Shaping): int {
    if pureDurMs <= 0 then 0
    else if curve.NonFinite? || s.authorityBiasMs.NonFinite? then s.lutMaxMs
    else
      var compensated := curve.value * 31.25 + s.authorityBiasMs.value - s.latencyMarginMs as real;
      var safeMaxMs := MaxInt(1, s.lutMaxMs);
      var safeMinMs := ClampInt(MaxInt(s.minStopMs, pureDurMs), 1, safeMaxMs);
      Round(ClampReal(compensated, safeMinMs as real, safeMaxMs as real))
  }

  const RELEASE_VELOCITY_WINDOW: real := 17.0

  /** The threshold the simulation is given: the configured one when it is usable. */
  function StopThreshold(accuracy: Num): real {
    if accuracy.NonFinite? || accuracy.value > 34.0 || accuracy.value < 1.0 then 20.0 else accuracy.value
  }

  function CalculateStopTicks2D(root: Root, vx: real, vy: real, wishMode: int, window: Num, p: Physics): nat {
    var threshold := if window.Finite? then ClampReal(window.value, 0.0, p.maxSpeed) else RELEASE_VELOCITY_WINDOW;
    StopTicks(root, vx, vy, ClampInt(wishMode, 0, 3), threshold, p)
  }

  /** How the orthogonal keys are held relative to the orthogonal speed. */
  function WishMode(orthogonal: real, posHeld: bool, negHeld: bool): int {
    if Abs(orthogonal) <= 0.1 || posHeld == negHeld then 0
    else if posHeld then (if orthogonal > 0.0 then 1 else 2)
    else (if orthogonal < 0.0 then 1 else 2)
  }

  /** What the engine knows when it computes a brake: the speed along the released key, the orthogonal
      speed and keys, and the active profile. */
  datatype Brake = Brake(along: real, orthogonal: real, posHeld: bool, negHeld: bool, accuracy: Num, curve: Num)

  function BrakeTicks(root: Root, brake: Brake, p: Physics): nat {
    CalculateStopTicks2D(root, brake.along, brake.orthogonal, WishMode(brake.orthogonal, brake.posHeld, brake.negHeld),
                         Finite(StopThreshold(brake.accuracy)), p)
  }

  function CalculateTrueBrakeUs(root: Root, brake: Brake, p: Physics, s: Shaping): int {
    if brake.along <= 0.0 then 0
    else
      var pureDurMs := CeilMs(BrakeTicks(root, brake, p));
      if pureDurMs <= 0 then 0 else MaxInt(100, ShapeBrakeDurationMs(pureDurMs, brake.curve, s) * 1000)
  }
}
