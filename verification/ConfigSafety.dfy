/** Sanitising is idempotent, the published configuration is always the sanitised user configuration, and Safe
    Mode is a round trip. */
module ConfigSafety {
  import opened M = Movement
  import opened RuntimeConfig

  // ---- Sanitising ----

  lemma GroupsIdempotent(c: Config)
    ensures CleanStrafe(CleanStrafe(c.strafe)) == CleanStrafe(c.strafe)
    ensures CleanWalk(CleanWalk(c.walk)) == CleanWalk(c.walk)
    ensures CleanIntent(CleanIntent(c.intent)) == CleanIntent(c.intent)
    ensures CleanMotion(CleanMotion(c.motion)) == CleanMotion(c.motion)
    ensures CleanPenalty(CleanPenalty(c.penalty)) == CleanPenalty(c.penalty)
    ensures CleanBhop(CleanBhop(c.bhop)) == CleanBhop(c.bhop)
  {
  }

  lemma ProfileIdempotent(p: BrakeProfile, fallback: BrakeProfile, maxSpeed: Num)
    requires maxSpeed.Finite? && maxSpeed.value >= 1.0
    ensures CleanProfile(CleanProfile(p, fallback, maxSpeed), fallback, maxSpeed) == CleanProfile(p, fallback, maxSpeed)
  {
  }

  lemma TimingsIdempotent(m: ModeTimings)
    ensures CleanTimings(CleanTimings(m)) == CleanTimings(m)
  {
  }

  lemma {:induction false} CleanProfilesAt(ps: Profiles, maxSpeed: Num, n: nat, i: nat)
    requires n <= 5 && i < 5
    ensures CleanProfiles(ps, maxSpeed, n)[i] ==
            if i < n then CleanProfile(ps[i], DEFAULT_PROFILES[i], maxSpeed) else ps[i]
  {
    hide CleanProfile;
    if n > 0 { CleanProfilesAt(ps, maxSpeed, n - 1, i); }
  }

  lemma {:induction false} CleanModesAt(ms: Timings, n: nat, i: nat)
    requires n <= 4 && i < 5
    ensures CleanModes(ms, n)[i] == if 1 <= i <= n then CleanTimings(ms[i]) else ms[i]
  {
    hide CleanTimings;
    if n > 0 { CleanModesAt(ms, n - 1, i); }
  }

  lemma ProfilesIdempotent(ps: Profiles, maxSpeed: Num)
    requires maxSpeed.Finite? && maxSpeed.value >= 1.0
    ensures CleanProfiles(CleanProfiles(ps, maxSpeed, 5), maxSpeed, 5) == CleanProfiles(ps, maxSpeed, 5)
  {
    hide CleanProfile, CleanProfiles;
    var once := CleanProfiles(ps, maxSpeed, 5);
    forall i | 0 <= i < 5 ensures CleanProfiles(once, maxSpeed, 5)[i] == once[i] {
      CleanProfilesAt(ps, maxSpeed, 5, i);
      CleanProfilesAt(once, maxSpeed, 5, i);
      ProfileIdempotent(ps[i], DEFAULT_PROFILES[i], maxSpeed);
    }
  }

  lemma ModesIdempotent(ms: Timings)
    ensures CleanModes(CleanModes(ms, 4), 4) == CleanModes(ms, 4)
  {
    hide CleanTimings, CleanModes;
    var once := CleanModes(ms, 4);
    forall i | 0 <= i < 5 ensures CleanModes(once, 4)[i] == once[i] {
      CleanModesAt(ms, 4, i);
      CleanModesAt(once, 4, i);
      TimingsIdempotent(ms[i]);
    }
  }

  lemma CleanIdempotent(c: Config)
    ensures Clean(Clean(c)) == Clean(c)
  {
    hide CleanStrafe, CleanWalk, CleanIntent, CleanMotion, CleanPenalty, CleanBhop, CleanProfiles, CleanModes;
    GroupsIdempotent(c);
    MotionBounds(c.motion);
    ProfilesIdempotent(c.brakeProfiles, CleanMotion(c.motion).maxSpeed);
    ModesIdempotent(c.modeCfg);
  }

  lemma MotionBounds(m: Motion)
    ensures var m' := CleanMotion(m);
            && m'.maxSpeed.Finite? && 1.0 <= m'.maxSpeed.value <= 10000.0
            && m'.friction.Finite? && 0.01 <= m'.friction.value <= 100.0
            && m'.stopSpeed.Finite? && 1.0 <= m'.stopSpeed.value <= 10000.0
            && m'.accelerate.Finite? && 0.01 <= m'.accelerate.value <= 100.0
  {
  }

  /** The overrides are stable under the bounds: cleaning an overridden clean configuration and overriding it
      again changes nothing. */
  lemma OverrideStable(c: Config)
    requires Clean(c) == c
    ensures Override(Clean(Override(c))) == Override(c)
  {
    hide CleanMotion, CleanProfiles, CleanModes;
    assert Clean(c).strafe == CleanStrafe(c.strafe) && Clean(c).walk == CleanWalk(c.walk)
      && Clean(c).bhop == CleanBhop(c.bhop);
  }

  /** Main result: sanitising a sanitised configuration changes nothing. */
  lemma SanitizeIdempotent(c: Config)
    ensures Sanitize(Sanitize(c)) == Sanitize(c)
  {
    hide Clean, Override;
    CleanIdempotent(c);
    CleanKeepsFlag(c);
    OverrideKeepsFlag(Clean(c));
    if c.safeModeEnabled {
      OverrideStable(Clean(c));
      CleanKeepsFlag(Override(Clean(c)));
    }
  }

  lemma CleanKeepsFlag(c: Config)
    ensures Clean(c).safeModeEnabled == c.safeModeEnabled
    ensures forall enabled: bool :: Clean(WithSafe(c, enabled)) == WithSafe(Clean(c), enabled)
  {
  }

  lemma OverrideKeepsFlag(c: Config)
    ensures Override(c).safeModeEnabled == c.safeModeEnabled && Override(Override(c)) == Override(c)
  {
  }

  // ---- What the bounds are ----

  /** `r` is the integer nearest to `v` within [lo, hi]. */
  predicate NearestInt(v: int, r: int, lo: int, hi: int) {
    lo <= r <= hi && (r < v ==> r == hi) && (r > v ==> r == lo)
  }

  /** `r` is the real nearest to `v` within [lo, hi], and `lo` for want of a finite value. */
  predicate NearestNum(v: Num, r: Num, lo: real, hi: real) {
    && r.Finite? && lo <= r.value <= hi
    && (v.Finite? && r.value < v.value ==> r.value == hi)
    && (v.NonFinite? || r.value > v.value ==> r.value == lo)
  }

  /** `r` is what a profile entry becomes: a value that is not finite gives way to the default one first. */
  predicate NearestOr(v: Num, fallback: Num, r: Num, lo: real, hi: real) {
    NearestNum(if v.NonFinite? then fallback else v, r, lo, hi)
  }

  lemma MovementBounded(c: Config)
    ensures var s, w, i, m := c.strafe, c.walk, c.intent, c.motion;
            var s', w', i', m' := Clean(c).strafe, Clean(c).walk, Clean(c).intent, Clean(c).motion;
            && NearestInt(s.quickTapMs, s'.quickTapMs, 1, 1000) && NearestInt(s.maxScaleMs, s'.maxScaleMs, 1, 2000)
            && NearestNum(s.crouchMult, s'.crouchMult, 0.05, 5.0)
            && NearestInt(s.latencyMarginMs, s'.latencyMarginMs, 0, 500)
            && NearestInt(s.lutMaxMs, s'.lutMaxMs, 1, 2000)
            && NearestInt(s.minStopMs, s'.minStopMs, 1, if s'.lutMaxMs < 1000 then s'.lutMaxMs else 1000)
            && NearestInt(s.minTapUs, s'.minTapUs, 1, 1000000)
            && NearestInt(w.walkMemoryMs, w'.walkMemoryMs, 1, 2000)
            && NearestNum(w.walkRatioSkip, w'.walkRatioSkip, 0.01, 5.0)
            && NearestNum(w.walkRatioLight, w'.walkRatioLight, 0.01, 5.0)
            && NearestInt(w.minWalkStopMs, w'.minWalkStopMs, 1, 1000)
            && NearestInt(w.walkMaxStopMs, w'.walkMaxStopMs, 1, 1000)
            && NearestNum(i.decayK, i'.decayK, 0.00001, 1.0)
            && NearestInt(i.dirChangePenaltyMs, i'.dirChangePenaltyMs, 1, 1000)
            && NearestInt(i.tapSpamWindowMs, i'.tapSpamWindowMs, 1, 1000)
            && NearestNum(i.stopStrengthMin, i'.stopStrengthMin, 0.01, 2.0)
            && NearestNum(i.tapSpamAlpha, i'.tapSpamAlpha, 0.01, 1.0)
            && NearestInt(i.tapSpamHalfLifeMs, i'.tapSpamHalfLifeMs, 1, 5000)
            && NearestNum(m.maxSpeed, m'.maxSpeed, 1.0, 10000.0) && NearestNum(m.friction, m'.friction, 0.01, 100.0)
            && NearestNum(m.stopSpeed, m'.stopSpeed, 1.0, 10000.0)
            && NearestNum(m.accelerate, m'.accelerate, 0.01, 100.0)
  {
    hide CleanPenalty, CleanBhop, CleanProfiles, CleanModes;
  }

  lemma TimingBounded(c: Config, i: nat)
    requires i < 5
    ensures var p, b, m := c.penalty, c.bhop, c.modeCfg[i];
            var p', b', m' := Clean(c).penalty, Clean(c).bhop, Clean(c).modeCfg[i];
            && NearestNum(p.conflictIncrement, p'.conflictIncrement, 0.01, 10.0)
            && NearestNum(p.conflictDecrement, p'.conflictDecrement, 0.01, 10.0)
            && NearestInt(p.conflictHalfLifeMs, p'.conflictHalfLifeMs, 1, 5000)
            && NearestInt(p.humanizeMinUs, p'.humanizeMinUs, -1000000, 1000000)
            && NearestInt(p.humanizeMaxUs, p'.humanizeMaxUs, p'.humanizeMinUs, 1000000)
            && b'.bhopEnabled == b.bhopEnabled && b'.bhopMode == (if b.bhopMode in {1, 2, 3, 4} then b.bhopMode else 4)
            && NearestInt(b.airborneDelayMs, b'.airborneDelayMs, 1, 5000)
            && NearestInt(b.scrollBurstGapMs, b'.scrollBurstGapMs, 1, 1000)
            && NearestInt(b.landingScanMs, b'.landingScanMs, 1, 5000)
            && NearestInt(b.airborneLockMs, b'.airborneLockMs, 1, 5000)
            && NearestInt(b.spamIntervalMs, b'.spamIntervalMs, 1, 1000)
            && (if i == 0 then m' == m else
                  && NearestInt(m.hMin, m'.hMin, 0, 1000) && NearestInt(m.hMax, m'.hMax, m'.hMin, 2000)
                  && NearestInt(m.dMin, m'.dMin, 0, 1000) && NearestInt(m.dMax, m'.dMax, m'.dMin, 2000))
  {
    hide CleanStrafe, CleanWalk, CleanIntent, CleanMotion, CleanProfiles, CleanModes;
    CleanModesAt(c.modeCfg, 4, i);
  }

  lemma ProfileBounded(c: Config, i: nat)
    requires i < 5
    ensures var p, p', d := c.brakeProfiles[i], Clean(c).brakeProfiles[i], DEFAULT_PROFILES[i];
            var maxSpeed := Clean(c).motion.maxSpeed;
            && NearestInt(p.overlapDurationUs, p'.overlapDurationUs, 0, 1000000)
            && NearestOr(p.brakeBiasMultiplier, d.brakeBiasMultiplier, p'.brakeBiasMultiplier, 0.1, 2.0)
            && NearestOr(p.authorityBiasMs, d.authorityBiasMs, p'.authorityBiasMs, -100.0, 100.0)
            && NearestOr(p.aggressivenessCurve, d.aggressivenessCurve, p'.aggressivenessCurve, 0.25, 4.0)
            && NearestOr(p.momentumMemoryMs, d.momentumMemoryMs, p'.momentumMemoryMs, 0.0, 1000.0)
            && maxSpeed.Finite?
            && NearestOr(p.accuracyThreshold, d.accuracyThreshold, p'.accuracyThreshold, 1.0, maxSpeed.value)
            && DefaultsFinite(d)
  {
    hide CleanStrafe, CleanWalk, CleanIntent, CleanPenalty, CleanBhop, CleanProfiles, CleanModes;
    CleanProfilesAt(c.brakeProfiles, CleanMotion(c.motion).maxSpeed, 5, i);
  }

  predicate DefaultsFinite(p: BrakeProfile) {
    && p.brakeBiasMultiplier.Finite? && p.authorityBiasMs.Finite? && p.aggressivenessCurve.Finite?
    && p.momentumMemoryMs.Finite? && p.accuracyThreshold.Finite?
  }

  lemma RestBounded(c: Config)
    ensures var c' := Clean(c);
            && c'.socdMode == (if c.socdMode in {0, 1, 2} then c.socdMode else 2)
            && c'.activeBrakeProfileIndex == (if c.activeBrakeProfileIndex in {1, 2, 3, 4}
                                              then c.activeBrakeProfileIndex else 1)
            && NearestInt(c.dashboardRefreshMs, c'.dashboardRefreshMs, 10, 10000)
            && c'.free == c.free && c'.safeModeEnabled == c.safeModeEnabled
  {
    hide CleanStrafe, CleanWalk, CleanIntent, CleanMotion, CleanPenalty, CleanBhop, CleanProfiles, CleanModes;
  }

  /** What Safe Mode publishes in place of the bounded values; everything else stays as it is. */
  lemma SafeModeValues(c: Config)
    ensures var s, c' := Sanitize(c), Clean(c);
            if !c.safeModeEnabled then s == c' else
              && s.strafe.latencyMarginMs == 4 && s.strafe.minStopMs == 6 && s.walk.walkMemoryMs == 80
              && s.intent.tapSpamWindowMs == 40 && s.intent.stopStrengthMin == Finite(0.4)
              && s.penalty.conflictIncrement == s.penalty.conflictDecrement == Finite(0.15)
              && s.penalty.humanizeMinUs == s.penalty.humanizeMaxUs == 0
              && s.bhop.spamIntervalMs >= 4 && (s.bhop.spamIntervalMs > 4 ==> s.bhop == c'.bhop)
              && (c'.bhop.spamIntervalMs >= 4 ==> s.bhop == c'.bhop)
              && s.(strafe := c'.strafe, walk := c'.walk, intent := c'.intent, penalty := c'.penalty,
                    bhop := c'.bhop) == c'
              && s.strafe.(latencyMarginMs := c'.strafe.latencyMarginMs, minStopMs := c'.strafe.minStopMs) == c'.strafe
              && s.walk.(walkMemoryMs := c'.walk.walkMemoryMs) == c'.walk
              && s.intent.(tapSpamWindowMs := c'.intent.tapSpamWindowMs,
                           stopStrengthMin := c'.intent.stopStrengthMin) == c'.intent
              && s.penalty.conflictHalfLifeMs == c'.penalty.conflictHalfLifeMs
              && s.bhop.(spamIntervalMs := c'.bhop.spamIntervalMs) == c'.bhop
  {
    hide Clean;
    CleanKeepsFlag(c);
  }

  /** The stop bounds are ordered exactly when Safe Mode does not raise the minimum over the horizon. */
  lemma StopBoundsOrderedIff(c: Config)
    ensures var s := Sanitize(c).strafe;
            s.minStopMs <= s.lutMaxMs <==> !(c.safeModeEnabled && c.strafe.lutMaxMs < 6)
  {
    hide CleanWalk, CleanIntent, CleanMotion, CleanPenalty, CleanBhop, CleanProfiles, CleanModes;
  }

  lemma DefaultIsSanitized()
    ensures Sanitize(DEFAULT) == DEFAULT
  {
    hide CleanProfiles, CleanModes;
    forall i | 0 <= i < 5
      ensures CleanProfiles(DEFAULT_PROFILES, Finite(250.0), 5)[i] == DEFAULT_PROFILES[i]
              && CleanModes(DEFAULT_TIMINGS, 4)[i] == DEFAULT_TIMINGS[i]
    {
      CleanProfilesAt(DEFAULT_PROFILES, Finite(250.0), 5, i);
      CleanModesAt(DEFAULT_TIMINGS, 4, i);
    }
    assert CleanProfiles(DEFAULT_PROFILES, Finite(250.0), 5) == DEFAULT_PROFILES;
    assert CleanModes(DEFAULT_TIMINGS, 4) == DEFAULT_TIMINGS;
  }

  // ---- The store ----

  /** Published is what sanitising the user configuration gives; the snapshot is a sanitised configuration
      outside Safe Mode, and outside Safe Mode it is the user configuration. */
  ghost predicate Ok(s: Store) {
    && s.hasSnapshot
    && s.published == Effective(s.user) == Sanitize(s.user)
    && !s.snapshot.safeModeEnabled && Sanitize(s.snapshot) == s.snapshot
    && (!s.user.safeModeEnabled ==> s.snapshot == s.user)
  }

  lemma SwitchedOn(c: Config)
    requires !c.safeModeEnabled && Sanitize(c) == c
    ensures Sanitize(WithSafe(c, true)) == Override(WithSafe(c, true))
  {
    hide Clean, Override;
    CleanKeepsFlag(c);
    assert Clean(WithSafe(c, true)) == WithSafe(Clean(c), true);
  }

  lemma StepOk(s: Store, step: Step)
    requires Ok(s)
    ensures Ok(Do(s, step))
  {
    hide Clean, Override;
    assert WithSafe(s.snapshot, false) == s.snapshot;
    match step
    case Apply(c) =>
      SanitizeIdempotent(c);
      CleanKeepsFlag(c);
      OverrideKeepsFlag(Clean(c));
      assert WithSafe(Sanitize(c), c.safeModeEnabled) == Sanitize(c);
    case SetSafeMode(enabled) => if enabled && !s.user.safeModeEnabled { SwitchedOn(s.user); }
    case Revert =>
  }

  lemma {:induction false} RunOk(steps: seq<Step>)
    ensures Ok(Run(INITIAL, steps))
  {
    if steps == [] {
      DefaultIsSanitized();
    } else {
      RunOk(steps[..|steps| - 1]);
      StepOk(Run(INITIAL, steps[..|steps| - 1]), steps[|steps| - 1]);
    }
  }

  /** Main result: over every run the published configuration is the sanitised user configuration, and outside
      Safe Mode the snapshot is the user configuration. */
  lemma PublishedIsSanitized(steps: seq<Step>)
    ensures var s := Run(INITIAL, steps);
            && s.published == Sanitize(s.user) && Sanitize(s.published) == s.published
            && (!s.user.safeModeEnabled ==> s.snapshot == s.user == s.published)
  {
    RunOk(steps);
    SanitizeIdempotent(Run(INITIAL, steps).user);
  }

  /** Main result: over every run, an applied configuration takes effect. Without Safe Mode before and after, its
      sanitised form becomes the user, the snapshot and the published configuration; on entering or in Safe Mode
      it becomes the user and the published one, while the snapshot is the user configuration at entry; and on
      leaving Safe Mode all three become the snapshot. */
  lemma AppliedTakesEffect(before: seq<Step>, c: Config)
    ensures var s, s' := Run(INITIAL, before), ApplyConfig(Run(INITIAL, before), c);
            && s'.user.safeModeEnabled == c.safeModeEnabled && s'.hasSnapshot
            && s'.user == s'.published == (if s.user.safeModeEnabled && !c.safeModeEnabled then s.snapshot
                                           else Sanitize(c))
            && s'.snapshot == (if !c.safeModeEnabled then s'.user
                               else if s.user.safeModeEnabled then s.snapshot
                               else s.user)
  {
    hide Clean, Override;
    var s := Run(INITIAL, before);
    RunOk(before);
    StepOk(s, Apply(c));
    CleanKeepsFlag(c);
    OverrideKeepsFlag(Clean(c));
    assert WithSafe(s.snapshot, false) == s.snapshot && WithSafe(Sanitize(c), c.safeModeEnabled) == Sanitize(c);
  }

  /** Main result: over every run, switching Safe Mode on keeps the user configuration as the snapshot and publishes
      it under the overrides; switching it off, and a revert, bring the snapshot back everywhere. */
  lemma SwitchTakesEffect(before: seq<Step>, enabled: bool)
    ensures var s := Run(INITIAL, before);
            var s', back := SwitchSafeMode(s, enabled), RevertToSnapshot(s);
            && (s.user.safeModeEnabled == enabled ==> s' == s)
            && (enabled && !s.user.safeModeEnabled ==>
                  s'.user == WithSafe(s.user, true) && s'.snapshot == s.user && s'.published == Sanitize(s'.user))
            && (!enabled && s.user.safeModeEnabled ==> s' == back)
            && back.user == back.snapshot == back.published == s.snapshot && s'.hasSnapshot && back.hasSnapshot
  {
    hide Clean, Override;
    var s := Run(INITIAL, before);
    RunOk(before);
    StepOk(s, SetSafeMode(enabled));
    StepOk(s, Revert);
    assert WithSafe(s.snapshot, false) == s.snapshot;
  }

  /** The store stays in Safe Mode throughout. */
  ghost predicate StaysSafe(s: Store, steps: seq<Step>) {
    && s.user.safeModeEnabled
    && (steps == [] || (StaysSafe(s, steps[..|steps| - 1]) && Run(s, steps).user.safeModeEnabled))
  }

  lemma {:induction false} SnapshotKept(s: Store, steps: seq<Step>)
    requires Ok(s) && StaysSafe(s, steps)
    ensures Ok(Run(s, steps)) && Run(s, steps).snapshot == s.snapshot
  {
    hide Ok, Clean, Override;
    if steps != [] {
      var before := steps[..|steps| - 1];
      SnapshotKept(s, before);
      StillSafe(s, before);
      StepOk(Run(s, before), steps[|steps| - 1]);
    }
  }

  lemma StillSafe(s: Store, steps: seq<Step>)
    requires StaysSafe(s, steps)
    ensures Run(s, steps).user.safeModeEnabled
  {
  }

  /** Main result: whatever is applied while Safe Mode is on, every way of leaving it restores exactly the user
      configuration at entry. */
  lemma SafeModeRoundTrip(before: seq<Step>, enter: Step, during: seq<Step>, leave: Step)
    requires var s := Run(INITIAL, before);
             && !s.user.safeModeEnabled && StaysSafe(Do(s, enter), during)
             && !Do(Run(Do(s, enter), during), leave).user.safeModeEnabled
    ensures var s := Run(INITIAL, before);
            Do(Run(Do(s, enter), during), leave).user == s.user
  {
    hide Clean, Override, Sanitize;
    var s := Run(INITIAL, before);
    RunOk(before);
    StepOk(s, enter);
    SnapshotKept(Do(s, enter), during);
    StillSafe(Do(s, enter), during);
    assert Do(s, enter).snapshot == s.user;
    var s2 := Run(Do(s, enter), during);
    LeavingRestores(s2, leave);
  }

  lemma LeavingRestores(s: Store, leave: Step)
    requires Ok(s) && s.user.safeModeEnabled && !Do(s, leave).user.safeModeEnabled
    ensures Do(s, leave).user == s.snapshot
  {
    hide Clean, Override;
    assert WithSafe(s.snapshot, false) == s.snapshot;
    if leave.Apply? {
      CleanKeepsFlag(leave.c);
      OverrideKeepsFlag(Clean(leave.c));
    }
  }
}
