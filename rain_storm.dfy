/**
 * The rain storm weather event: its severity formulas (screen brightness,
 * crop dry rate, time between lightning strikes and strike length) and the
 * rule that schedules the next lightning strike only if it lands before the
 * storm is over. Severity runs from 0 to 1.5. The random draws are
 * parameters `u` in [0, 1), the strikes waiting in the controller's event
 * queue are a ghost map from handle to delay, and the signals, particle and
 * light-service calls are an abstract trace.
 */
module RainStorm {
  import opened Wrappers
  import WeatherEvents

  /** The highest severity an event can have. */
  const MaxSeverity: real := 1.5

  /** The brightness multiplier a storm of this severity sets when it starts. */
  function BrightnessMultiplier(severity: real): (r: real)
    ensures 0.0 <= severity <= MaxSeverity ==> 0.6 <= r <= 0.9
  {
    (1.0 - severity / 1.5) * 0.3 + 0.6
  }

  /**
   * The calmest storm dims the screen to 0.9, the fiercest to 0.6, and a
   * severity of 1.2 to 0.66.
   */
  lemma BrightnessAtKnownSeverities()
    ensures BrightnessMultiplier(0.0) == 0.9
    ensures BrightnessMultiplier(MaxSeverity) == 0.6
    ensures BrightnessMultiplier(1.2) == 0.66
  {
  }

  /** A fiercer storm is never brighter. */
  lemma BrightnessDecreasing(s1: real, s2: real)
    requires s1 <= s2
    ensures BrightnessMultiplier(s2) <= BrightnessMultiplier(s1)
  {
  }

  /** The rate at which crop tiles dry during the storm: negative, so they are watered. */
  function DryRate(severity: real): (r: real)
    ensures severity >= 0.0 ==> r <= 0.0
    ensures severity <= MaxSeverity ==> r >= -0.002
    ensures severity == 0.0 <==> r == 0.0
  {
    -0.002 * severity / 1.5
  }

  /** A severity of 1.2 waters at 0.0016 per unit of time. */
  lemma DryRateAtKnownSeverity()
    ensures DryRate(1.2) == -0.0016
    ensures DryRate(MaxSeverity) == -0.002
  {
  }

  /** The range a random draw is taken from. */
  datatype Bounds = Bounds(min: real, max: real)

  /** The range of the delay, in seconds, before the next lightning strike. */
  function StrikeDelayBounds(severity: real): (b: Bounds)
    ensures severity <= MaxSeverity ==> 2.0 <= b.min <= b.max
    ensures 0.0 <= severity ==> b.max <= 14.0
  {
    Bounds(2.0 + 3.0 * (1.5 - severity) / 1.5, 6.0 + 8.0 * (1.5 - severity) / 1.5)
  }

  /** A fiercer storm strikes more often: both ends of the delay range shrink. */
  lemma StrikeDelayShrinks(s1: real, s2: real)
    requires s1 <= s2
    ensures StrikeDelayBounds(s2).min <= StrikeDelayBounds(s1).min
    ensures StrikeDelayBounds(s2).max <= StrikeDelayBounds(s1).max
  {
  }

  /** The range of a lightning flash's length, in seconds. */
  function StrikeDurationBounds(severity: real): (b: Bounds)
    ensures 0.0 <= severity ==> 0.6 <= b.min <= b.max
    ensures severity <= MaxSeverity ==> b.max <= 3.8
  {
    Bounds(0.6 + 0.6 * severity / 1.5, 1.8 + 2.0 * severity / 1.5)
  }

  /** A fiercer storm flashes longer: both ends of the length range grow. */
  lemma StrikeDurationGrows(s1: real, s2: real)
    requires s1 <= s2
    ensures StrikeDurationBounds(s1).min <= StrikeDurationBounds(s2).min
    ensures StrikeDurationBounds(s1).max <= StrikeDurationBounds(s2).max
  {
  }

  /** A fraction in [0, 1) of a width is at most that width, and below it when the width is positive. */
  lemma FractionOfWidth(u: real, w: real)
    ensures 0.0 <= u < 1.0 && w >= 0.0 ==> 0.0 <= u * w <= w
    ensures 0.0 <= u < 1.0 && w > 0.0 ==> u * w < w
  {
    if 0.0 <= u < 1.0 && w >= 0.0 {
      assert w - u * w == (1.0 - u) * w;
      if w > 0.0 {
        assert (1.0 - u) * w > 0.0;
      }
    }
  }

  /** A uniform draw from `b`, given the underlying draw `u` in [0, 1). */
  function Draw(b: Bounds, u: real): (r: real)
    ensures 0.0 <= u < 1.0 && b.min <= b.max ==> b.min <= r <= b.max
    ensures 0.0 <= u < 1.0 && b.min < b.max ==> r < b.max
  {
    var w := b.max - b.min;
    FractionOfWidth(u, w);
    b.min + u * w
  }

  /** The delay before the next strike, drawn from the severity's range. */
  function NextTimeToLightningStrike(severity: real, u: real): (r: real)
    ensures 0.0 <= severity <= MaxSeverity && 0.0 <= u < 1.0 ==> 2.0 <= r <= 14.0
  {
    Draw(StrikeDelayBounds(severity), u)
  }

  /** The length of the next flash, drawn from the severity's range. */
  function NextLightningStrikeDuration(severity: real, u: real): (r: real)
    ensures 0.0 <= severity <= MaxSeverity && 0.0 <= u < 1.0 ==> 0.6 <= r <= 3.8
  {
    Draw(StrikeDurationBounds(severity), u)
  }

  /**
   * Seconds left until the storm ends, at `minute` of the current hour with
   * `duration` hours left (the current one included): one in-game hour is
   * 30 seconds.
   */
  function TimeToEndOfEvent(minute: int, duration: int): (r: real)
    ensures 0 <= minute <= 59 && duration >= 1 ==> r >= 0.0
    ensures 0 <= minute <= 59 ==> 30.0 * (duration - 1) as real <= r <= 30.0 * duration as real
    ensures minute == 59 ==> r == 30.0 * (duration - 1) as real
  {
    ((59 - minute) as real / 60.0 + duration as real - 1.0) * 30.0
  }

  /** A strike after `delay` seconds lands before the storm ends. */
  predicate StrikeFits(minute: int, duration: int, delay: real)
  {
    delay <= TimeToEndOfEvent(minute, duration)
  }

  /**
   * Before its last hour (two or more hours left) a storm of any severity
   * always has room for its next strike.
   */
  lemma StrikeFitsBeforeLastHour(minute: int, duration: int, severity: real, u: real)
    requires 0 <= minute <= 59 && duration >= 2
    requires 0.0 <= severity <= MaxSeverity && 0.0 <= u < 1.0
    ensures StrikeFits(minute, duration, NextTimeToLightningStrike(severity, u))
  {
  }

  /** In the last minute of its last hour a storm has no room for another strike. */
  lemma NoStrikeAtTheEnd(severity: real, u: real)
    requires 0.0 <= severity <= MaxSeverity && 0.0 <= u < 1.0
    ensures !StrikeFits(59, 1, NextTimeToLightningStrike(severity, u))
  {
  }

  /** A signal, service call or event the storm issues. */
  datatype StormEffect =
    | StartWaterLevelEffect(rate: real)
    | DouseFlames
    | StartAcidRainParticles
    | SetBrightness(multiplier: real)
    | StopWaterLevelEffect
    | ReigniteFlames
    | StopAcidRainParticles
    | StartPanicEffect
    | LightingEffect(duration: real, gradientSeverity: real)

  /** The calls a storm makes when it starts, before it schedules its first strike. */
  function StartCalls(severity: real): (r: seq<StormEffect>)
    ensures |r| == 4 && r[0] == StartWaterLevelEffect(DryRate(severity)) && r[1] == DouseFlames
    ensures r[2] == StartAcidRainParticles
    ensures r[3] == SetBrightness(BrightnessMultiplier(severity))
  {
    [StartWaterLevelEffect(DryRate(severity)), DouseFlames, StartAcidRainParticles, SetBrightness(BrightnessMultiplier(severity))]
  }

  /** The calls a storm makes when it stops, before it cancels its pending strike. */
  function StopCalls(): (r: seq<StormEffect>)
    ensures |r| == 4 && r[0] == StopWaterLevelEffect && r[1] == ReigniteFlames
    ensures r[2] == StopAcidRainParticles
    ensures r[3] == SetBrightness(1.0)
  {
    [StopWaterLevelEffect, ReigniteFlames, StopAcidRainParticles, SetBrightness(1.0)]
  }

  class RainStormEvent {
    /** The timers, priority and severity every weather event has. */
    var event: WeatherEvents.WeatherEvent
    /** The handle of the last strike this storm scheduled, if any. */
    var nextLightningStrike: Option<nat>
    /** How many strikes have been scheduled; the next handle. */
    var strikesScheduled: nat
    /** The strikes waiting in the controller's queue: handle to delay. */
    ghost var pending: map<nat, real>
    /** The calls made so far. */
    var effects: seq<StormEffect>

    /** The storm's severity. */
    function Severity(): real
      reads this
    {
      event.severity
    }

    /** The hours the storm has left, the current one included. */
    function Duration(): int
      reads this
    {
      event.duration
    }

    /** The event is a rain storm, and every handle in use was issued by this storm. */
    ghost predicate Valid()
      reads this
    {
      && event.kind == WeatherEvents.RainStorm
      && (forall h :: h in pending ==> h < strikesScheduled)
      && (nextLightningStrike.Some? ==> nextLightningStrike.value < strikesScheduled)
    }

    /** A storm that has not started: nothing scheduled, nothing issued. */
    constructor (hoursUntil: int, duration: int, priority: int, severity: real)
      ensures Valid()
      ensures event == WeatherEvents.WeatherEvent(WeatherEvents.RainStorm, hoursUntil, duration, priority, severity)
      ensures nextLightningStrike == None && strikesScheduled == 0 && pending == map[] && effects == []
    {
      event := WeatherEvents.WeatherEvent(WeatherEvents.RainStorm, hoursUntil, duration, priority, severity);
      nextLightningStrike := None;
      strikesScheduled := 0;
      pending := map[];
      effects := [];
    }

    /**
     * Schedules the next strike, `u` being the random draw, at `minute` of
     * the current hour: a strike whose delay would land after the storm's end
     * is not scheduled at all.
     */
    method ScheduleNextLightningStrike(minute: int, u: real)
      requires Valid()
      modifies this
      ensures Valid()
      ensures event == old(event) && effects == old(effects)
      ensures var delay := NextTimeToLightningStrike(Severity(), u);
              if StrikeFits(minute, Duration(), delay) then
                && nextLightningStrike == Some(old(strikesScheduled))
                && strikesScheduled == old(strikesScheduled) + 1
                && pending == old(pending)[old(strikesScheduled) := delay]
              else
                && nextLightningStrike == old(nextLightningStrike)
                && strikesScheduled == old(strikesScheduled)
                && pending == old(pending)
    {
      var timeToEndOfEvent := TimeToEndOfEvent(minute, event.duration);
      var timeToStrike := NextTimeToLightningStrike(event.severity, u);
      if timeToEndOfEvent < timeToStrike {
        return;
      }
      nextLightningStrike := Some(strikesScheduled);
      pending := pending[strikesScheduled := timeToStrike];
      strikesScheduled := strikesScheduled + 1;
    }

    /**
     * Starts the storm: water the crops at the dry rate, douse fires, start
     * the rain, dim the screen, then schedule the first strike.
     */
    method StartEffect(minute: int, u: real)
      requires Valid()
      modifies this
      ensures Valid()
      ensures effects == old(effects) + StartCalls(Severity())
      ensures event == old(event)
      ensures var delay := NextTimeToLightningStrike(Severity(), u);
              if StrikeFits(minute, Duration(), delay) then
                nextLightningStrike == Some(old(strikesScheduled)) && pending == old(pending)[old(strikesScheduled) := delay]
              else
                nextLightningStrike == old(nextLightningStrike) && pending == old(pending)
    {
      effects := effects + StartCalls(event.severity);
      ScheduleNextLightningStrike(minute, u);
    }

    /**
     * Stops the storm: stop watering, relight fires, stop the rain, restore
     * full brightness and cancel the pending strike.
     */
    method StopEffect()
      requires Valid()
      modifies this
      ensures Valid()
      ensures effects == old(effects) + StopCalls()
      ensures nextLightningStrike == old(nextLightningStrike) && strikesScheduled == old(strikesScheduled)
      ensures event == old(event)
      ensures nextLightningStrike.Some? ==> pending == old(pending) - {nextLightningStrike.value}
      ensures nextLightningStrike.None? ==> pending == old(pending)
    {
      effects := effects + StopCalls();
      if nextLightningStrike.Some? {
        pending := pending - {nextLightningStrike.value};
      }
    }

    /**
     * The pending strike fires: the queue drops it, animals panic, a flash of
     * drawn length (`uDuration`) plays, and the next strike is scheduled with
     * the draw `uDelay`.
     */
    method TriggerStrike(minute: int, uDuration: real, uDelay: real)
      requires Valid()
      modifies this
      ensures Valid()
      ensures effects == old(effects) + [StartPanicEffect,
                LightingEffect(NextLightningStrikeDuration(Severity(), uDuration), Severity())]
      ensures event == old(event)
      ensures var fired := if old(nextLightningStrike).Some? then old(pending) - {old(nextLightningStrike).value}
                           else old(pending);
              var delay := NextTimeToLightningStrike(Severity(), uDelay);
              if StrikeFits(minute, Duration(), delay) then
                nextLightningStrike == Some(old(strikesScheduled)) && pending == fired[old(strikesScheduled) := delay]
              else
                nextLightningStrike == old(nextLightningStrike) && pending == fired
    {
      if nextLightningStrike.Some? {
        pending := pending - {nextLightningStrike.value};
      }
      effects := effects + [StartPanicEffect,
                            LightingEffect(NextLightningStrikeDuration(event.severity, uDuration), event.severity)];
      ScheduleNextLightningStrike(minute, uDelay);
    }

    /**
     * One in-game hour passes for the storm, as for every weather event:
     * its countdown ticks first and then its duration; see
     * `WeatherEvents.UpdateTime`.
     */
    method UpdateTime()
      requires Valid()
      modifies this
      ensures Valid()
      ensures event == WeatherEvents.UpdateTime(old(event))
      ensures Duration() <= old(Duration()) && Severity() == old(Severity())
      ensures nextLightningStrike == old(nextLightningStrike) && pending == old(pending) && effects == old(effects)
      ensures strikesScheduled == old(strikesScheduled)
    {
      event := WeatherEvents.UpdateTime(event);
    }
  }

  /**
   * Starting a storm and stopping it again, with no strike firing in
   * between, leaves no strike of it pending and the screen at full
   * brightness.
   */
  method StartThenStop(storm: RainStormEvent, minute: int, u: real)
    requires storm.Valid() && storm.pending == map[]
    modifies storm
    ensures storm.Valid() && storm.pending == map[]
    ensures storm.effects == old(storm.effects) + StartCalls(storm.Severity()) + StopCalls()
  {
    storm.StartEffect(minute, u);
    storm.StopEffect();
  }
}
