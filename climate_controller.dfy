/**
 * The climate controller as the object the game holds: a list of weather
 * events, the current one, the lighting overlay, and the calls it makes on
 * the events' effect hooks. Each method is proved to follow the function of
 * module ClimateSpec that describes it, to keep the current event one of
 * the active events in the list and, while no priority is negative, to keep
 * it the earliest of the highest-priority active events.
 */
module Climate {
  import opened Wrappers
  import opened WeatherEvents
  import opened ClimateSpec

  /** Why adding an event can fail: the event is missing (null). */
  datatype ClimateError = NullEvent

  class ClimateController {
    /** The events that are occurring or about to occur, in insertion order. */
    var events: seq<WeatherEvent>
    /** The position in `events` of the event that is occurring now. */
    var current: Option<nat>
    /** The effect calls made on events so far. */
    var effects: seq<EffectCall>
    /** Time since the lighting effect started. */
    var lightingProgress: real
    /** Length of the lighting effect; -1 once one has been cancelled. */
    var lightingDuration: real
    /** The lighting effect's colour gradient; None until one is set. */
    var lightingGradient: Option<Gradient>

    /** The controller's state as a value. */
    ghost function State(): ClimateState
      reads this
    {
      ClimateState(events, current, effects, Overlay(lightingProgress, lightingDuration, lightingGradient))
    }

    /**
     * The current event, if any, is an active event of the list; while no
     * event has a negative priority, it is the earliest of the
     * highest-priority active events.
     */
    ghost predicate Valid()
      reads this
    {
      CurrentActive(State()) && Arbitrated(State())
    }

    /** A controller with no events and no lighting effect set. */
    constructor ()
      ensures Valid()
      ensures State() == ClimateState([], None, [], Overlay(0.0, 0.0, None))
    {
      events := [];
      current := None;
      effects := [];
      lightingProgress := 0.0;
      lightingDuration := 0.0;
      lightingGradient := None;
    }

    /** Registers the listeners (not modelled) and marks the lighting effect as cancelled. */
    method InitialiseEvents()
      requires Valid()
      modifies this
      ensures Valid()
      ensures State() == old(State()).(overlay := old(State()).overlay.(duration := NoLightingEffect))
    {
      lightingDuration := NoLightingEffect;
    }

    /** The event occurring now, if any: always an active event of the list. */
    method GetCurrentWeatherEvent() returns (r: Option<WeatherEvent>)
      requires Valid()
      ensures r.None? <==> current.None?
      ensures r.Some? ==> r.value in events && IsActive(r.value)
      ensures r.Some? ==> r.value == events[current.value]
    {
      r := if current.None? then None else Some(events[current.value]);
    }

    /**
     * Adds an event, failing on a missing one; see `ClimateSpec.AddEvent` for
     * what happens to the current event.
     */
    method AddWeatherEvent(event: Option<WeatherEvent>) returns (r: Outcome<ClimateError>)
      requires Valid()
      modifies this
      ensures Valid()
      ensures event.None? ==> r == Fail(NullEvent) && State() == old(State())
      ensures event.Some? ==> r == Pass && State() == AddEvent(old(State()), event.value)
    {
      if event.None? {
        return Fail(NullEvent);
      }
      var e := event.value;
      AddEventKeepsCurrentActive(State(), e);
      AddEventKeepsArbitrated(State(), e);
      events := events + [e];
      if !IsActive(e) {
        return Pass;
      }
      if current.Some? {
        effects := effects + [StopEffect(events[current.value])];
      }
      if current.None? || e.priority > events[current.value].priority {
        current := Some(|events| - 1);
      }
      effects := effects + [StartEffect(events[current.value])];
      return Pass;
    }

    /**
     * The daily draw, with the random draws as parameters in the order the
     * controller makes them.
     */
    method AddDailyEvent(roll: real, kindDraw: int, hoursDraw: int, durationDraw: int, priorityDraw: int,
                         severityDraw: real)
      requires Valid()
      modifies this
      ensures Valid()
      ensures State() == match DailyEvent(roll, kindDraw, hoursDraw, durationDraw, priorityDraw, severityDraw)
                         case None => old(State())
                         case Some(e) => AddEvent(old(State()), e)
    {
      var event := DailyEvent(roll, kindDraw, hoursDraw, durationDraw, priorityDraw, severityDraw);
      if event.Some? {
        var _ := AddWeatherEvent(event);
      }
    }

    /** The hourly update; see `ClimateSpec.HourlyUpdate`. */
    method UpdateWeatherEvent()
      requires Valid()
      modifies this
      ensures Valid()
      ensures State() == HourlyUpdate(old(State()))
    {
      HourlyUpdateSpec(State());
      HourlyUpdateArbitrated(State());
      if current.Some? {
        effects := effects + [StopEffect(events[current.value])];
        lightingDuration := NoLightingEffect;
      }
      ghost var before := events;
      ghost var stopped := State();
      var i := 0;
      while i < |events|
        invariant State() == stopped.(events := events)
        invariant |events| == |before| && 0 <= i <= |events|
        invariant forall j :: 0 <= j < i ==> events[j] == UpdateTime(before[j])
        invariant forall j :: i <= j < |events| ==> events[j] == before[j]
      {
        events := events[i := UpdateTime(events[i])];
        i := i + 1;
      }
      assert events == Ticked(before);
      events := Unexpired(events);
      RecalculateCurrentWeatherEvent();
      if current.Some? {
        effects := effects + [StartEffect(events[current.value])];
      }
    }

    /**
     * Picks the current event afresh: the first active event, in list order,
     * whose priority beats every earlier pick, starting from priority -1.
     */
    method RecalculateCurrentWeatherEvent()
      modifies this
      ensures current == Rescan(events)
      ensures events == old(events) && effects == old(effects)
      ensures lightingProgress == old(lightingProgress) && lightingDuration == old(lightingDuration)
      ensures lightingGradient == old(lightingGradient)
    {
      current := None;
      var priority := -1;
      var i := 0;
      while i < |events|
        invariant events == old(events) && effects == old(effects)
        invariant lightingProgress == old(lightingProgress) && lightingDuration == old(lightingDuration)
        invariant lightingGradient == old(lightingGradient)
        invariant 0 <= i <= |events|
        invariant current == Rescan(events[..i])
        invariant priority == if current.None? then -1 else events[current.value].priority
      {
        assert events[..i + 1][..i] == events[..i];
        if IsActive(events[i]) && events[i].priority > priority {
          current := Some(i);
          priority := events[i].priority;
        }
        i := i + 1;
      }
      assert events[..i] == events;
    }

    /** The records the controller saves, one per event under the key "Event". */
    method Write() returns (r: seq<EventRecord>)
      ensures r == Save(events)
    {
      r := [];
      var i := 0;
      while i < |events|
        invariant 0 <= i <= |events|
        invariant r == Save(events[..i])
      {
        r := r + [SaveEvent(events[i])];
        i := i + 1;
      }
      assert events[..i] == events;
    }

    /**
     * Replaces the events by the saved ones; `recs` are the children of the
     * saved "Events" object. See `ClimateSpec.SetValues`.
     */
    method SetValues(recs: seq<EventRecord>)
      requires Valid()
      modifies this
      ensures Valid()
      ensures State() == ClimateSpec.SetValues(old(State()), recs)
    {
      if current.Some? {
        effects := effects + [StopEffect(events[current.value])];
        lightingDuration := NoLightingEffect;
        current := None;
      }
      events := [];
      assert State() == Cleared(old(State()));
      EmptyIsArbitrated(State());
      if HasEventChild(recs) {
        LoadAll(recs);
      }
    }

    /** Loads every record in order, adding each known one; see `ClimateSpec.LoadRecords`. */
    method LoadAll(recs: seq<EventRecord>)
      requires Valid()
      modifies this
      ensures Valid()
      ensures State() == LoadRecords(old(State()), recs)
    {
      ghost var start := State();
      var i := 0;
      while i < |recs|
        invariant 0 <= i <= |recs|
        invariant Valid()
        invariant State() == LoadRecords(start, recs[..i])
      {
        assert recs[..i + 1][..i] == recs[..i];
        var loaded := LoadedEvent(recs[i]);
        if loaded.Some? {
          var _ := AddWeatherEvent(loaded);
        }
        i := i + 1;
      }
      assert recs[..i] == recs;
    }

    /** Starts a lighting effect of the given length and gradient. */
    method SetLightingEffect(duration: real, gradient: Gradient)
      requires Valid()
      modifies this
      ensures Valid()
      ensures State() == old(State()).(overlay := Overlay(0.0, duration, Some(gradient)))
    {
      lightingProgress := 0.0;
      lightingDuration := duration;
      lightingGradient := Some(gradient);
    }

    /**
     * One frame: advance the lighting effect by the frame time `delta` and
     * return the colour offset it asks for. The controller's own event queue,
     * which also runs here, is not modelled.
     */
    method UpdateClimate(delta: real) returns (r: LightingOutput)
      requires Valid()
      modifies this
      ensures Valid()
      ensures State() == old(State()).(overlay := old(State()).overlay.(progress := old(lightingProgress) + delta))
      ensures r == LightingOffset(State().overlay)
    {
      lightingProgress := lightingProgress + delta;
      r := LightingOffset(Overlay(lightingProgress, lightingDuration, lightingGradient));
    }
  }
}
