/**
 * A weather event as the climate controller sees it: a countdown to its start,
 * a remaining duration, a priority and a severity. The event classes
 * themselves (their base class and the three variants other than the rain
 * storm) are not part of this model; their lifecycle is the one the
 * controller's tests rely on.
 */
module WeatherEvents {
  import opened Wrappers

  /** The four concrete weather event classes. */
  datatype EventKind = RainStorm | Blizzard | SolarSurge | AcidShower

  /** A weather event's state; `kind` stands for its concrete class. */
  datatype WeatherEvent = WeatherEvent(
    kind: EventKind,
    hoursUntil: int,
    duration: int,
    priority: int,
    severity: real)

  /** The class name under which an event of this kind is saved. */
  function KindName(k: EventKind): string
  {
    match k
    case RainStorm => "RainStormEvent"
    case Blizzard => "BlizzardEvent"
    case SolarSurge => "SolarSurgeEvent"
    case AcidShower => "AcidShowerEvent"
  }

  /** The kind a saved class name denotes; any other name is unknown. */
  function KindOfName(name: string): (r: Option<EventKind>)
    ensures r.Some? ==> KindName(r.value) == name
    ensures r.None? <==> forall k :: KindName(k) != name
  {
    if name == "AcidShowerEvent" then Some(AcidShower)
    else if name == "RainStormEvent" then Some(RainStorm)
    else if name == "BlizzardEvent" then Some(Blizzard)
    else if name == "SolarSurgeEvent" then Some(SolarSurge)
    else None
  }

  /** Saving an event's kind by name and reading the name back gives the kind. */
  lemma KindNameRoundTrip(k: EventKind)
    ensures KindOfName(KindName(k)) == Some(k)
  {
  }

  /** The event has not started yet. */
  predicate IsScheduled(e: WeatherEvent)
  {
    e.hoursUntil > 0
  }

  /** The event's effect should be live now. */
  predicate IsActive(e: WeatherEvent)
  {
    e.hoursUntil == 0 && e.duration > 0
  }

  /** The event has run its course and may be discarded. */
  predicate IsExpired(e: WeatherEvent)
  {
    e.hoursUntil == 0 && e.duration <= 0
  }

  /**
   * One in-game hour passes: the countdown to the start ticks while it is
   * positive, and only after that does the duration tick.
   */
  function UpdateTime(e: WeatherEvent): (r: WeatherEvent)
    ensures r.kind == e.kind && r.priority == e.priority && r.severity == e.severity
    ensures r.hoursUntil + r.duration == e.hoursUntil + e.duration - 1
    ensures r.hoursUntil <= e.hoursUntil && r.duration <= e.duration
    ensures r.duration < e.duration ==> e.hoursUntil <= 0
    ensures e.hoursUntil >= 0 ==> r.hoursUntil >= 0
  {
    if e.hoursUntil > 0 then e.(hoursUntil := e.hoursUntil - 1)
    else e.(duration := e.duration - 1)
  }

  /** Exactly one of scheduled, active and expired holds of an event whose countdown is not negative. */
  lemma LifecycleTrichotomy(e: WeatherEvent)
    requires e.hoursUntil >= 0
    ensures IsScheduled(e) || IsActive(e) || IsExpired(e)
    ensures !(IsScheduled(e) && IsActive(e)) && !(IsScheduled(e) && IsExpired(e)) && !(IsActive(e) && IsExpired(e))
  {
  }

  /** A scheduled event's next hour counts down its start and leaves its duration. */
  lemma ScheduledTick(e: WeatherEvent)
    requires IsScheduled(e)
    ensures UpdateTime(e).hoursUntil == e.hoursUntil - 1 && UpdateTime(e).duration == e.duration
  {
  }

  /** An active event's next hour uses up one hour of its duration and keeps it started. */
  lemma ActiveTick(e: WeatherEvent)
    requires IsActive(e)
    ensures UpdateTime(e).hoursUntil == 0 && UpdateTime(e).duration == e.duration - 1
    ensures IsActive(UpdateTime(e)) || IsExpired(UpdateTime(e))
  {
  }

  /** An expired event stays expired through the next hour. */
  lemma ExpiredTick(e: WeatherEvent)
    requires IsExpired(e)
    ensures IsExpired(UpdateTime(e))
  {
  }

  /** The event after `n` hourly ticks. */
  function TickN(e: WeatherEvent, n: nat): WeatherEvent
  {
    if n == 0 then e else UpdateTime(TickN(e, n - 1))
  }

  /**
   * Where the timers stand after `n` hours: the countdown absorbs the first
   * `hoursUntil` ticks and the duration all later ones.
   */
  lemma {:induction false} TickNTimers(e: WeatherEvent, n: nat)
    requires e.hoursUntil >= 0
    ensures TickN(e, n) == if n <= e.hoursUntil then e.(hoursUntil := e.hoursUntil - n)
                           else e.(hoursUntil := 0, duration := e.duration - (n - e.hoursUntil))
  {
    if n > 0 {
      TickNTimers(e, n - 1);
    }
  }

  /**
   * An event created with countdown `h` and duration `d` is active exactly
   * during ticks h .. h + d - 1 and expired from tick h + d on.
   */
  lemma ActiveWindow(e: WeatherEvent, n: nat)
    requires e.hoursUntil >= 0 && e.duration >= 0
    ensures IsActive(TickN(e, n)) <==> e.hoursUntil <= n < e.hoursUntil + e.duration
    ensures IsExpired(TickN(e, n)) <==> n >= e.hoursUntil + e.duration
  {
    TickNTimers(e, n);
  }
}
