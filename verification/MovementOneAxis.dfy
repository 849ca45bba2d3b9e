/** Movement along one axis never exceeds the larger of the initial and the maximum speed; across two axes
    steering can. */
module MovementOneAxis {
  import opened Movement
  import opened MovementBounds

  lemma SpeedOnAxis(root: Root, x: real)
    requires IsRoot(root)
    ensures Speed(root, Vec(x, 0.0)) == Abs(x)
  {
    assert Abs(x) * Abs(x) == x * x;
    SpeedIs(root, Vec(x, 0.0), Abs(x));
  }

  lemma FrictionOnAxis(root: Root, x: real, p: Physics, dt: real)
    requires IsRoot(root) && Sane(p) && 0.0 <= dt <= 0.015625
    ensures var v := Friction(root, Vec(x, 0.0), p, dt);
            v.y == 0.0 && Abs(v.x) <= Abs(x) && v.x * x >= 0.0
  {
    hide Speed, Slowed;
    var s := Abs(x);
    SpeedOnAxis(root, x);
    if s >= 0.1 {
      var n := Slowed(s, p, dt);
      SlowedBound(s, p, dt);
      LossNonNegative(s, p, dt);
      RatioBound(x, s, n);
    }
  }

  lemma LossNonNegative(s: real, p: Physics, dt: real)
    requires s >= 0.0 && 0.0 <= p.friction <= 64.0 && 0.0 <= dt <= 0.015625
    ensures Loss(s, p, dt) >= 0.0
  {
    ShareMonotone(s, s, p.friction, dt);
  }

  lemma RatioBound(x: real, s: real, n: real)
    requires s == Abs(x) > 0.0 && 0.0 <= n <= s
    ensures Abs(x * (n / s)) == n && (x * (n / s)) * x >= 0.0
  {
    var k := n / s;
    assert s * k == n;
    if x < 0.0 {
      assert x == -s && x * k == -n;
      ProductNonNegative(n, s);
    } else {
      assert x == s && x * k == n;
      ProductNonNegative(n, s);
    }
  }

  lemma WishOnAxis(root: Root, wx: Wish1)
    requires IsRoot(root)
    ensures Speed(root, WishOf(wx, 0)) == if wx == 0 then 0.0 else 1.0
  {
    SpeedOnAxis(root, wx as real);
  }

  lemma AlongAxis(x: real, sign: real, g: real)
    requires sign == 1.0 || sign == -1.0
    ensures Dot(Vec(x, 0.0), Vec(sign, 0.0)) == (if sign == 1.0 then x else -x)
    ensures Along(Vec(x, 0.0), Vec(sign, 0.0), g) == Vec(if sign == 1.0 then x + g else x - g, 0.0)
  {
    if sign == 1.0 {
      assert x * 1.0 == x && g * 1.0 == g;
    } else {
      assert x * -1.0 == -x && g * -1.0 == -g;
    }
  }

  lemma PushOnAxis(x: real, sign: real, wishSpeed: real, p: Physics, dt: real)
    requires (sign == 1.0 || sign == -1.0) && Gain(p, dt, wishSpeed) >= 0.0 && 0.0 <= wishSpeed <= p.maxSpeed
    ensures var v := Push(Vec(x, 0.0), Vec(sign, 0.0), wishSpeed, p, dt);
            v.y == 0.0 && Abs(v.x) <= Max(Abs(x), p.maxSpeed)
  {
    hide Gain, Dot, Along;
    var most, room := Gain(p, dt, wishSpeed), wishSpeed - Dot(Vec(x, 0.0), Vec(sign, 0.0));
    AlongAxis(x, sign, if most < room then most else room);
  }

  lemma AccelerateOnAxis(root: Root, x: real, wx: Wish1, wishSpeed: real, p: Physics, dt: real)
    requires IsRoot(root) && Sane(p) && 0.0 <= dt <= 0.015625 && 0.0 <= wishSpeed <= p.maxSpeed
    ensures var v := Accelerate(root, Vec(x, 0.0), WishOf(wx, 0), wishSpeed, p, dt);
            v.y == 0.0 && Abs(v.x) <= Max(Abs(x), p.maxSpeed)
  {
    hide Speed, Push, Gain;
    WishOnAxis(root, wx);
    GainNonNegative(p, dt, wishSpeed);
    if wx != 0 {
      PushOnAxis(x, wx as real, wishSpeed, p, dt);
      assert Vec(wx as real / 1.0, 0.0 / 1.0) == Vec(wx as real, 0.0);
    }
  }

  lemma StepOnAxis(root: Root, v: Vec, wx: Wish1, wishSpeed: real, p: Physics, dt: real)
    requires IsRoot(root) && Sane(p) && v.y == 0.0 && 0.0 <= dt <= 0.015625 && 0.0 <= wishSpeed <= p.maxSpeed
    ensures var v' := Step(root, v, WishOf(wx, 0), wishSpeed, p, dt);
            v'.y == 0.0 && Abs(v'.x) <= Max(Abs(v.x), p.maxSpeed)
  {
    hide Friction, Accelerate;
    FrictionOnAxis(root, v.x, p, dt);
    assert v == Vec(v.x, 0.0);
    var v1 := Friction(root, v, p, dt);
    assert v1 == Vec(v1.x, 0.0);
    AccelerateOnAxis(root, v1.x, wx, wishSpeed, p, dt);
  }

  lemma {:induction false} IntegrateOnAxis(root: Root, v: Vec, wx: Wish1, wishSpeed: real, p: Physics,
        remaining: real, steps: nat)
    requires IsRoot(root) && Sane(p) && v.y == 0.0 && 0.0 <= wishSpeed <= p.maxSpeed
    ensures var v' := Integrate(root, v, WishOf(wx, 0), wishSpeed, p, remaining, steps);
            v'.y == 0.0 && Abs(v'.x) <= Max(Abs(v.x), p.maxSpeed)
    decreases steps
  {
    hide Step;
    if steps != 0 && remaining > 0.000000001 {
      var dt := StepTime(remaining);
      StepOnAxis(root, v, wx, wishSpeed, p, dt);
      IntegrateOnAxis(root, Step(root, v, WishOf(wx, 0), wishSpeed, p, dt), wx, wishSpeed, p, remaining - dt,
          steps - 1);
    }
  }

  ghost predicate OneAxisRun(actions: seq<Action>) {
    ScaledRun(actions) && forall i :: 0 <= i < |actions| && actions[i].Wish? ==> actions[i].y == 0
  }

  ghost predicate OnAxis(t: Tracker) {
    t.v.y == 0.0 && t.wishY == 0 && Scaled(t.speedScale)
  }

  lemma AdvanceOnAxis(root: Root, t: Tracker, nowUs: int, p: Physics)
    requires IsRoot(root) && Sane(p) && OnAxis(t)
    ensures var t' := Advance(root, t, nowUs, p);
            OnAxis(t') && Abs(t'.v.x) <= Max(Abs(t.v.x), p.maxSpeed)
  {
    hide Integrate, Speed, WishSpeed, Seconds;
    if 0 <= t.lastUs < nowUs {
      WishSpeedBound(p, t.speedScale);
      IntegrateOnAxis(root, t.v, t.wishX, WishSpeed(p, t.speedScale), p, Seconds(nowUs - t.lastUs), MAX_STEPS);
    }
  }

  /** Main result: on one axis alone the speed stays at most the larger of the initial speed and W. */
  lemma {:induction false} OneAxisStaysBounded(root: Root, t: Tracker, actions: seq<Action>, p: Physics)
    requires IsRoot(root) && Sane(p) && OnAxis(t) && OneAxisRun(actions)
    ensures OnAxis(Run(root, t, actions, p))
    ensures Speed(root, Run(root, t, actions, p).v) <= Max(Speed(root, t.v), p.maxSpeed)
  {
    hide Speed, Advance;
    if actions != [] {
      var before, last := actions[..|actions| - 1], actions[|actions| - 1];
      assert forall i :: 0 <= i < |before| ==> before[i] == actions[i];
      var t1 := Run(root, t, before, p);
      OneAxisStaysBounded(root, t, before, p);
      SpeedOnAxis(root, t1.v.x);
      assert t1.v == Vec(t1.v.x, 0.0);
      if last.Pass? {
        AdvanceOnAxis(root, t1, last.nowUs, p);
        var t2 := Advance(root, t1, last.nowUs, p);
        SpeedOnAxis(root, t2.v.x);
        assert t2.v == Vec(t2.v.x, 0.0);
      }
    }
  }

  const DEFAULTS := Physics(5.2, 5.5, 80.0, 250.0)

  /** W is not a bound in two dimensions: at W, steering by a right angle's worth for one tick exceeds it. */
  lemma SteeringExceedsMaxSpeed(root: Root)
    requires IsRoot(root)
    ensures var v := Vec(240.0, 70.0);
            && Speed(root, v) == DEFAULTS.maxSpeed
            && Step(root, v, WishOf(1, 0), DEFAULTS.maxSpeed, DEFAULTS, 0.015625) == Vec(241.984375, 64.3125)
            && Speed(root, Vec(241.984375, 64.3125)) > DEFAULTS.maxSpeed
  {
    hide Speed;
    var v, w := Vec(240.0, 70.0), Vec(241.984375, 64.3125);
    SpeedIs(root, v, 250.0);
    WishOnAxis(root, 1);
    assert Friction(root, v, DEFAULTS, 0.015625) == Vec(220.5, 64.3125);
    SpeedOf(root, w);
    if Speed(root, w) <= 250.0 { SpeedBelow(Speed(root, w), 250.0); }
  }

  lemma SpeedBelow(s: real, limit: real)
    requires 0.0 <= s <= limit
    ensures s * s <= limit * limit
  {
    ProductMonotone(s, limit, s);
    ProductMonotone(s, limit, limit);
  }
}
