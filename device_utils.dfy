/**
 * The frontend's device tiers: whether animations are reduced, whether the
 * device counts as a tablet, and how many particles and how long an interval
 * an effect uses on it. The browser queries (the reduced-motion media query,
 * the user-agent patterns, touch support, the window width) are inputs.
 * Particle counts are integers, for which multiplying by 0.25 or 0.5 and
 * taking the floor is exact in doubles; intervals are reals.
 */
module DeviceUtils {

  import opened JsText

  /** What the browser reports. */
  datatype Env = Env(prefersReducedMotion: bool,
                     mobileAgent: bool,   // the user agent matches the mobile pattern
                     tabletAgent: bool,   // the user agent matches the tablet pattern
                     touch: bool,         // 'ontouchstart' in window or navigator.maxTouchPoints > 0
                     width: int)          // window.innerWidth

  const SmallScreenMax: int := 768
  const MediumScreenMax: int := 1024

  /** isMobileDevice */
  predicate IsMobile(env: Env)
  {
    env.mobileAgent || (env.touch && env.width <= SmallScreenMax)
  }

  /** isTabletDevice */
  predicate IsTablet(env: Env)
  {
    env.tabletAgent || (SmallScreenMax < env.width <= MediumScreenMax)
  }

  /** shouldReduceAnimations */
  predicate ShouldReduce(env: Env)
  {
    env.prefersReducedMotion || IsMobile(env)
  }

  /** getOptimalParticleCount; a missing or null mobileCount is None. */
  function ParticleCount(env: Env, desktopCount: int, mobileCount: Option<int>): int
  {
    if ShouldReduce(env) then
      (if mobileCount.Some? then mobileCount.value else desktopCount / 4)
    else if IsTablet(env) then desktopCount / 2
    else desktopCount
  }

  /** getOptimalInterval */
  function Interval(env: Env, desktopInterval: real): real
  {
    if ShouldReduce(env) then desktopInterval * 3.0
    else if IsTablet(env) then desktopInterval * 1.5
    else desktopInterval
  }

  /** Reduced exactly when the user asks for less motion or the device is mobile. */
  lemma ReduceCases(env: Env)
    ensures ShouldReduce(env) <==> env.prefersReducedMotion || env.mobileAgent || (env.touch && env.width <= 768)
  {
  }

  /** By width alone, a screen is never both small enough for mobile and medium enough for tablet. */
  lemma WidthWindowsDisjoint(env: Env)
    requires !env.mobileAgent && !env.tabletAgent
    ensures !(IsMobile(env) && IsTablet(env))
  {
  }

  /**
   * The tiers in order: reduced mode first (a given mobileCount, even 0, or a
   * quarter of the desktop count), then tablet (half), then the desktop count.
   */
  lemma ParticleTiers(env: Env, desktopCount: int, mobileCount: Option<int>)
    ensures ShouldReduce(env) && mobileCount.Some? ==> ParticleCount(env, desktopCount, mobileCount) == mobileCount.value
    ensures ShouldReduce(env) && mobileCount.None? ==>
      4 * ParticleCount(env, desktopCount, mobileCount) <= desktopCount < 4 * ParticleCount(env, desktopCount, mobileCount) + 4
    ensures !ShouldReduce(env) && IsTablet(env) ==>
      2 * ParticleCount(env, desktopCount, mobileCount) <= desktopCount < 2 * ParticleCount(env, desktopCount, mobileCount) + 2
    ensures !ShouldReduce(env) && !IsTablet(env) ==> ParticleCount(env, desktopCount, mobileCount) == desktopCount
  {
  }

  /** Without a mobileCount, a non-negative desktop count is never exceeded and never goes negative. */
  lemma ParticleCountBounded(env: Env, desktopCount: int)
    requires desktopCount >= 0
    ensures 0 <= ParticleCount(env, desktopCount, None) <= desktopCount
  {
  }

  /** A tablet that is also mobile, or whose user asks for less motion, gets the reduced count. */
  lemma ReducedBeatsTablet(env: Env, desktopCount: int, mobileCount: Option<int>)
    requires IsTablet(env) && ShouldReduce(env)
    ensures ParticleCount(env, desktopCount, mobileCount)
            == (if mobileCount.Some? then mobileCount.value else desktopCount / 4)
    ensures Interval(env, 1.0) == 3.0
  {
  }

  /** Intervals only stretch: three times when reduced, one and a half on a tablet, unchanged otherwise. */
  lemma IntervalNeverShorter(env: Env, desktopInterval: real)
    requires desktopInterval >= 0.0
    ensures Interval(env, desktopInterval) >= desktopInterval
    ensures Interval(env, desktopInterval) <= 3.0 * desktopInterval
    ensures Interval(env, desktopInterval) == desktopInterval <==>
      desktopInterval == 0.0 || (!ShouldReduce(env) && !IsTablet(env))
  {
  }
}
