/** The runtime configuration: what sanitising makes of one, and the user, snapshot and published copies that
    Safe Mode switches between. */
module RuntimeConfig {
  import opened M = Movement

  datatype BrakeProfile = BrakeProfile(
    overlapDurationUs: int, brakeBiasMultiplier: Num, authorityBiasMs: Num, aggressivenessCurve: Num,
    momentumMemoryMs: Num, accuracyThreshold: Num)

  datatype ModeTimings = ModeTimings(hMin: int, hMax: int, dMin: int, dMax: int)

  type Profiles = s: seq<BrakeProfile> | |s| == 5 witness DEFAULT_PROFILES
  type Timings = s: seq<ModeTimings> | |s| == 5 witness DEFAULT_TIMINGS

  datatype Strafe = Strafe(
    quickTapMs: int, maxScaleMs: int, crouchMult: Num, latencyMarginMs: int, minStopMs: int, lutMaxMs: int,
        minTapUs: int)

  datatype Walk = Walk(walkMemoryMs: int, walkRatioSkip: Num, walkRatioLight: Num, minWalkStopMs: int,
        walkMaxStopMs: int)

  datatype Intent = Intent(
    decayK: Num, dirChangePenaltyMs: int, tapSpamWindowMs: int, stopStrengthMin: Num, tapSpamAlpha: Num,
        tapSpamHalfLifeMs: int)

  datatype Motion = Motion(maxSpeed: Num, friction: Num, stopSpeed: Num, accelerate: Num)

  datatype Penalty = Penalty(conflictIncrement: Num, conflictDecrement: Num, conflictHalfLifeMs: int,
        humanizeMinUs: int, humanizeMaxUs: int)

  datatype Bhop = Bhop(
    bhopEnabled: bool, bhopMode: int, airborneDelayMs: int, scrollBurstGapMs: int, landingScanMs: int,
        airborneLockMs: int,
    spamIntervalMs: int)

  /** Settings that sanitising leaves alone. */
  datatype Free = Free(watchdogStuckMs: int, noiseMin: int, noiseMax: int, hardwareDebounceUs: int,
        minimizeToTray: bool, debugMode: bool)

  datatype Config = Config(
    socdMode: int, strafe: Strafe, walk: Walk, intent: Intent, motion: Motion, penalty: Penalty,
    brakeProfiles: Profiles, activeBrakeProfileIndex: int, bhop: Bhop, modeCfg: Timings,
    dashboardRefreshMs: int, free: Free, safeModeEnabled: bool)

  // ---- Defaults ----

  function DefaultProfile(momentum: real, threshold: real): BrakeProfile {
    BrakeProfile(0, Finite(1.0), Finite(0.0), Finite(1.0), Finite(momentum), Finite(threshold))
  }

  const DEFAULT_PROFILES: seq<BrakeProfile> :=
    [DefaultProfile(40.0, 34.0), DefaultProfile(35.0, 34.0), DefaultProfile(25.0, 34.0), DefaultProfile(40.0, 17.0),
     DefaultProfile(20.0, 34.0)]

  const DEFAULT_TIMINGS: seq<ModeTimings> :=
    [ModeTimings(0, 0, 0, 0), ModeTimings(12, 18, 18, 25), ModeTimings(5, 8, 4, 8), ModeTimings(8, 15, 12, 22),
        ModeTimings(0, 0, 4, 8)]

  const DEFAULT: Config := Config(
    0,
    Strafe(30, 80, Finite(0.75), 6, 4, 350, 2500),
    Walk(130, Finite(0.65), Finite(0.35), 15, 22),
    Intent(Finite(0.005), 60, 60, Finite(0.25), Finite(0.15), 150),
    Motion(Finite(250.0), Finite(5.2), Finite(80.0), Finite(5.5)),
    Penalty(Finite(0.3), Finite(0.1), 400, -100, 200),
    DEFAULT_PROFILES, 1,
    Bhop(false, 4, 350, 2, 450, 350, 2),
    DEFAULT_TIMINGS, 250,
    Free(500, 0, 0, 2000, true, false), false)

  // ---- Sanitising ----

  function ClampFinite(value: Num, lo: real, hi: real): Num {
    if value.NonFinite? || value.value < lo then Finite(lo) else if value.value > hi then Finite(hi) else value
  }

  function FiniteOr(value: Num, fallback: Num): Num {
    if value.Finite? then value else fallback
  }

  function CleanStrafe(s: Strafe): Strafe {
    var lutMaxMs := ClampInt(s.lutMaxMs, 1, 2000);
    var minStopMs := ClampInt(s.minStopMs, 1, 1000);
    Strafe(ClampInt(s.quickTapMs, 1, 1000), ClampInt(s.maxScaleMs, 1, 2000), ClampFinite(s.crouchMult, 0.05, 5.0),
           ClampInt(s.latencyMarginMs, 0, 500), if minStopMs > lutMaxMs then lutMaxMs else minStopMs, lutMaxMs,
           ClampInt(s.minTapUs, 1, 1000000))
  }

  function CleanWalk(w: Walk): Walk {
    Walk(ClampInt(w.walkMemoryMs, 1, 2000), ClampFinite(w.walkRatioSkip, 0.01, 5.0),
        ClampFinite(w.walkRatioLight, 0.01, 5.0),
         ClampInt(w.minWalkStopMs, 1, 1000), ClampInt(w.walkMaxStopMs, 1, 1000))
  }

  function CleanIntent(i: Intent): Intent {
    Intent(ClampFinite(i.decayK, 0.00001, 1.0), ClampInt(i.dirChangePenaltyMs, 1, 1000),
           ClampInt(i.tapSpamWindowMs, 1, 1000),
           ClampFinite(i.stopStrengthMin, 0.01, 2.0), ClampFinite(i.tapSpamAlpha, 0.01, 1.0),
           ClampInt(i.tapSpamHalfLifeMs, 1, 5000))
  }

  function CleanMotion(m: Motion): Motion {
    Motion(ClampFinite(m.maxSpeed, 1.0, 10000.0), ClampFinite(m.friction, 0.01, 100.0),
        ClampFinite(m.stopSpeed, 1.0, 10000.0),
           ClampFinite(m.accelerate, 0.01, 100.0))
  }

  function CleanPenalty(p: Penalty): Penalty {
    var lo, hi := ClampInt(p.humanizeMinUs, -1000000, 1000000), ClampInt(p.humanizeMaxUs, -1000000, 1000000);
    Penalty(ClampFinite(p.conflictIncrement, 0.01, 10.0), ClampFinite(p.conflictDecrement, 0.01, 10.0),
            ClampInt(p.conflictHalfLifeMs, 1, 5000), lo, if hi < lo then lo else hi)
  }

  function CleanBhop(b: Bhop): Bhop {
    Bhop(b.bhopEnabled, if b.bhopMode < 1 || b.bhopMode > 4 then 4 else b.bhopMode,
         ClampInt(b.airborneDelayMs, 1, 5000),
         ClampInt(b.scrollBurstGapMs, 1, 1000), ClampInt(b.landingScanMs, 1, 5000), ClampInt(b.airborneLockMs, 1, 5000),
         ClampInt(b.spamIntervalMs, 1, 1000))
  }

  /** One profile; a non-finite value falls back to the default profile's. */
  function CleanProfile(p: BrakeProfile, fallback: BrakeProfile, maxSpeed: Num): BrakeProfile {
    BrakeProfile(
      ClampInt(p.overlapDurationUs, 0, 1000000),
      ClampFinite(FiniteOr(p.brakeBiasMultiplier, fallback.brakeBiasMultiplier), 0.1, 2.0),
      ClampFinite(FiniteOr(p.authorityBiasMs, fallback.authorityBiasMs), -100.0, 100.0),
      ClampFinite(FiniteOr(p.aggressivenessCurve, fallback.aggressivenessCurve), 0.25, 4.0),
      ClampFinite(FiniteOr(p.momentumMemoryMs, fallback.momentumMemoryMs), 0.0, 1000.0),
      ClampFinite(FiniteOr(p.accuracyThreshold, fallback.accuracyThreshold), 1.0,
          if maxSpeed.Finite? then maxSpeed.value else 1.0))
  }

  function CleanTimings(m: ModeTimings): ModeTimings {
    var hMin, dMin := ClampInt(m.hMin, 0, 1000), ClampInt(m.dMin, 0, 1000);
    ModeTimings(hMin, ClampInt(m.hMax, hMin, 2000), dMin, ClampInt(m.dMax, dMin, 2000))
  }

  /** The first n profiles cleaned. */
  function CleanProfiles(ps: Profiles, maxSpeed: Num, n: nat): Profiles
    requires n <= 5
  {
    if n == 0 then ps
    else CleanProfiles(ps, maxSpeed, n - 1)[n - 1 := CleanProfile(ps[n - 1], DEFAULT_PROFILES[n - 1], maxSpeed)]
  }

  /** Modes 1 to n cleaned; mode 0 is unused. */
  function CleanModes(ms: Timings, n: nat): Timings
    requires n <= 4
  {
    if n == 0 then ms else CleanModes(ms, n - 1)[n := CleanTimings(ms[n])]
  }

  /** The bounds layer. */
  function Clean(c: Config): Config {
    var motion := CleanMotion(c.motion);
    Config(
      if 0 <= c.socdMode <= 2 then c.socdMode else 2,
      CleanStrafe(c.strafe), CleanWalk(c.walk), CleanIntent(c.intent), motion, CleanPenalty(c.penalty),
      CleanProfiles(c.brakeProfiles, motion.maxSpeed, 5),
      if c.activeBrakeProfileIndex < 1 || c.activeBrakeProfileIndex > 4 then 1 else c.activeBrakeProfileIndex,
      CleanBhop(c.bhop), CleanModes(c.modeCfg, 4),
      ClampInt(c.dashboardRefreshMs, 10, 10000), c.free, c.safeModeEnabled)
  }

  /** The Safe Mode override layer. */
  function Override(c: Config): Config {
    c.(strafe := c.strafe.(latencyMarginMs := 4, minStopMs := 6),
       walk := c.walk.(walkMemoryMs := 80),
       intent := c.intent.(tapSpamWindowMs := 40, stopStrengthMin := Finite(0.40)),
       penalty := c.penalty.(conflictIncrement := Finite(0.15), conflictDecrement := Finite(0.15), humanizeMinUs := 0,
           humanizeMaxUs := 0),
       bhop := if c.bhop.spamIntervalMs < 4 then c.bhop.(spamIntervalMs := 4) else c.bhop)
  }

  function Effective(c: Config): Config {
    if c.safeModeEnabled then Override(c) else c
  }

  function Sanitize(c: Config): Config {
    Effective(Clean(c))
  }

  // ---- The store ----

  datatype Store = Store(user: Config, snapshot: Config, hasSnapshot: bool, published: Config)

  const INITIAL: Store := Store(DEFAULT, DEFAULT, true, DEFAULT)

  datatype Step = Apply(c: Config) | SetSafeMode(enabled: bool) | Revert

  function WithSafe(c: Config, enabled: bool): Config {
    c.(safeModeEnabled := enabled)
  }

  function ApplyConfig(s: Store, c: Config): Store {
    var sanitized := Sanitize(c);
    var s :=
      if c.safeModeEnabled && !s.user.safeModeEnabled then
        s.(snapshot := s.user, hasSnapshot := true, user := WithSafe(sanitized, true))
      else if !c.safeModeEnabled && s.user.safeModeEnabled then
        s.(user := WithSafe(if s.hasSnapshot then s.snapshot else sanitized, false))
      else if sanitized.safeModeEnabled then s.(user := sanitized)
      else s.(user := sanitized, snapshot := sanitized, hasSnapshot := true);
    s.(published := Effective(s.user))
  }

  function SwitchSafeMode(s: Store, enabled: bool): Store {
    if s.user.safeModeEnabled == enabled then s
    else if enabled then
      var user := WithSafe(s.user, true);
      Store(user, s.user, true, Override(user))
    else
      var user := WithSafe(if s.hasSnapshot then s.snapshot else s.user, false);
      s.(user := user, published := user)
  }

  function RevertToSnapshot(s: Store): Store {
    if !s.hasSnapshot then s
    else
      var user := WithSafe(s.snapshot, false);
      s.(user := user, published := user)
  }

  function Do(s: Store, step: Step): Store {
    match step
    case Apply(c) => ApplyConfig(s, c)
    case SetSafeMode(enabled) => SwitchSafeMode(s, enabled)
    case Revert => RevertToSnapshot(s)
  }

  function Run(s: Store, steps: seq<Step>): Store {
    if steps == [] then s else Do(Run(s, steps[..|steps| - 1]), steps[|steps| - 1])
  }

  /** The static state of the configuration, updated in place under the writer lock. */
  class ConfigStore {
    var userConfig: Config
    var snapshotConfig: Config
    var hasSnapshot: bool
    var published: Config

    ghost function State(): Store
      reads this
    {
      Store(userConfig, snapshotConfig, hasSnapshot, published)
    }

    constructor Init()
      ensures State() == INITIAL
    {
      userConfig, snapshotConfig, hasSnapshot, published := DEFAULT, DEFAULT, true, DEFAULT;
    }

    static method SanitizeCopy(c: Config) returns (validated: Config)
      ensures validated == Sanitize(c)
    {
      hide CleanProfile, CleanTimings, CleanMotion, CleanStrafe, CleanWalk, CleanIntent, CleanPenalty, CleanBhop,
          Override;
      validated := c.(
        socdMode := if 0 <= c.socdMode <= 2 then c.socdMode else 2,
        strafe := CleanStrafe(c.strafe), walk := CleanWalk(c.walk), intent := CleanIntent(c.intent),
        motion := CleanMotion(c.motion), penalty := CleanPenalty(c.penalty));
      for index := 0 to 5
        invariant validated.brakeProfiles == CleanProfiles(c.brakeProfiles, CleanMotion(c.motion).maxSpeed, index)
        invariant forall i :: index <= i < 5 ==> validated.brakeProfiles[i] == c.brakeProfiles[i]
        invariant validated == c.(
          socdMode := validated.socdMode, strafe := CleanStrafe(c.strafe), walk := CleanWalk(c.walk),
              intent := CleanIntent(c.intent),
          motion := CleanMotion(c.motion), penalty := CleanPenalty(c.penalty), brakeProfiles := validated.brakeProfiles)
        invariant validated.socdMode == if 0 <= c.socdMode <= 2 then c.socdMode else 2
      {
        validated := validated.(brakeProfiles := validated.brakeProfiles[
          index := CleanProfile(validated.brakeProfiles[index], DEFAULT_PROFILES[index], validated.motion.maxSpeed)]);
      }
      validated := validated.(
        bhop := CleanBhop(c.bhop),
        activeBrakeProfileIndex :=
          if c.activeBrakeProfileIndex < 1 || c.activeBrakeProfileIndex > 4 then 1 else c.activeBrakeProfileIndex);
      ghost var cleaned := validated;
      for i := 1 to 5
        invariant validated == cleaned.(modeCfg := CleanModes(c.modeCfg, i - 1))
        invariant forall j :: i <= j < 5 ==> validated.modeCfg[j] == c.modeCfg[j]
      {
        validated := validated.(modeCfg := validated.modeCfg[i := CleanTimings(validated.modeCfg[i])]);
      }
      validated := validated.(dashboardRefreshMs := ClampInt(c.dashboardRefreshMs, 10, 10000));
      if validated.safeModeEnabled { validated := Override(validated); }
    }

    method Apply(c: Config)
      modifies this
      ensures State() == ApplyConfig(old(State()), c)
    {
      var sanitized := SanitizeCopy(c);
      if c.safeModeEnabled && !userConfig.safeModeEnabled {
        snapshotConfig, hasSnapshot := userConfig, true;
        userConfig := sanitized.(safeModeEnabled := true);
      } else if !c.safeModeEnabled && userConfig.safeModeEnabled {
        userConfig := if hasSnapshot then snapshotConfig else sanitized;
        userConfig := userConfig.(safeModeEnabled := false);
      } else {
        userConfig := sanitized;
        if !userConfig.safeModeEnabled { snapshotConfig, hasSnapshot := userConfig, true; }
      }
      published := userConfig;
      if userConfig.safeModeEnabled { published := Override(published); }
    }

    method SetSafeMode(enabled: bool)
      modifies this
      ensures State() == SwitchSafeMode(old(State()), enabled)
    {
      if userConfig.safeModeEnabled == enabled { return; }
      if enabled {
        snapshotConfig, hasSnapshot := userConfig, true;
        userConfig := userConfig.(safeModeEnabled := true);
        published := Override(userConfig);
      } else {
        if hasSnapshot { userConfig := snapshotConfig; }
        userConfig := userConfig.(safeModeEnabled := false);
        published := userConfig;
      }
    }

    method Revert() returns (reverted: bool)
      modifies this
      ensures State() == RevertToSnapshot(old(State())) && reverted == old(hasSnapshot)
    {
      if !hasSnapshot { return false; }
      userConfig := snapshotConfig;
      userConfig := userConfig.(safeModeEnabled := false);
      published := userConfig;
      reverted := true;
    }
  }
}
