/**
 * The climate controller's behaviour as functions of its state: the priority
 * arbitration applied when an event is added, the hourly tick, the daily
 * draw, loading saved events and the lighting overlay. The class in module
 * Climate is proved to follow these functions; the lemmas here state what
 * they promise.
 */
module ClimateSpec {
  import opened Wrappers
  import opened WeatherEvents

  /** A call the controller makes on an event's effect hooks. */
  datatype EffectCall = StartEffect(event: WeatherEvent) | StopEffect(event: WeatherEvent)

  /**
   * A colour gradient the lighting overlay can play. Its only producer is a
   * rain storm's lightning strike, whose curve depends on the storm's severity.
   */
  datatype Gradient = LightningFlash(severity: real)

  /** The one-shot lighting overlay: elapsed time, length and gradient (None until one is set). */
  datatype Overlay = Overlay(progress: real, duration: real, gradient: Option<Gradient>)

  /**
   * Everything the controller holds: its events in insertion order, the
   * position of the current event among them, the effect calls made so far
   * and the lighting overlay.
   */
  datatype ClimateState = ClimateState(
    events: seq<WeatherEvent>,
    current: Option<nat>,
    effects: seq<EffectCall>,
    overlay: Overlay)

  /** The overlay duration that means "no lighting effect". */
  const NoLightingEffect: real := -1.0

  /** The current event, if any, is one of the controller's events. */
  predicate CurrentInRange(s: ClimateState)
  {
    s.current.Some? ==> s.current.value < |s.events|
  }

  /** The current event, if any, is one of the controller's events and is active. */
  predicate CurrentActive(s: ClimateState)
  {
    CurrentInRange(s) && (s.current.Some? ==> IsActive(s.events[s.current.value]))
  }

  /** The state of a controller that holds no events. */
  predicate IsEmpty(s: ClimateState)
  {
    s.events == [] && s.current == None
  }

  // ---------------------------------------------------------------------------
  // Arbitration

  /** No event of `evs` is active. */
  predicate NoneActive(evs: seq<WeatherEvent>)
  {
    forall j :: 0 <= j < |evs| ==> !IsActive(evs[j])
  }

  /** Every active event of `evs` has a negative priority. */
  predicate NoneEligible(evs: seq<WeatherEvent>)
  {
    forall j :: 0 <= j < |evs| && IsActive(evs[j]) ==> evs[j].priority < 0
  }

  /**
   * Position `i` holds an active event whose priority no active event beats,
   * and every active event before it has a strictly lower priority: it is the
   * earliest of the highest-priority active events.
   */
  predicate IsFirstMaximal(evs: seq<WeatherEvent>, i: nat)
  {
    && i < |evs|
    && IsActive(evs[i])
    && (forall j :: 0 <= j < |evs| && IsActive(evs[j]) ==> evs[j].priority <= evs[i].priority)
    && (forall j :: 0 <= j < i && IsActive(evs[j]) ==> evs[j].priority < evs[i].priority)
  }

  /**
   * The event that a run of additions makes current: each active event
   * becomes current when nothing is current or when it beats the current
   * event's priority strictly.
   */
  function Leader(evs: seq<WeatherEvent>): (r: Option<nat>)
    ensures r.Some? ==> r.value < |evs|
  {
    if |evs| == 0 then None
    else
      var prev := Leader(evs[..|evs| - 1]);
      var last := evs[|evs| - 1];
      if IsActive(last) && (prev.None? || last.priority > evs[prev.value].priority) then Some(|evs| - 1)
      else prev
  }

  /**
   * The hourly rescan: start from no event and priority -1, and take each
   * active event, in list order, whose priority beats the best so far.
   */
  function Rescan(evs: seq<WeatherEvent>): (r: Option<nat>)
    ensures r.Some? ==> r.value < |evs|
  {
    if |evs| == 0 then None
    else
      var prev := Rescan(evs[..|evs| - 1]);
      var best := if prev.None? then -1 else evs[prev.value].priority;
      var last := evs[|evs| - 1];
      if IsActive(last) && last.priority > best then Some(|evs| - 1) else prev
  }

  /** The add-path arbitration picks the earliest highest-priority active event. */
  lemma {:induction false} LeaderIsFirstMaximal(evs: seq<WeatherEvent>)
    ensures Leader(evs).None? <==> NoneActive(evs)
    ensures Leader(evs).Some? ==> IsFirstMaximal(evs, Leader(evs).value)
  {
    if |evs| > 0 {
      var p := evs[..|evs| - 1];
      LeaderIsFirstMaximal(p);
      assert forall j :: 0 <= j < |p| ==> p[j] == evs[j];
    }
  }

  /**
   * The hourly rescan picks the earliest highest-priority active event, and
   * never an event whose priority is negative.
   */
  lemma {:induction false} RescanIsFirstMaximal(evs: seq<WeatherEvent>)
    ensures Rescan(evs).None? <==> NoneEligible(evs)
    ensures Rescan(evs).Some? ==> IsFirstMaximal(evs, Rescan(evs).value) && evs[Rescan(evs).value].priority >= 0
  {
    if |evs| > 0 {
      var p := evs[..|evs| - 1];
      RescanIsFirstMaximal(p);
      assert forall j :: 0 <= j < |p| ==> p[j] == evs[j];
    }
  }

  /** At most one position is the earliest highest-priority active event. */
  lemma FirstMaximalUnique(evs: seq<WeatherEvent>, i: nat, k: nat)
    requires IsFirstMaximal(evs, i) && IsFirstMaximal(evs, k)
    ensures i == k
  {
  }

  /**
   * The two arbitration rules agree except that the rescan refuses a winner
   * whose priority is negative.
   */
  lemma RescanAgreesWithLeader(evs: seq<WeatherEvent>)
    ensures Rescan(evs) == if Leader(evs).Some? && evs[Leader(evs).value].priority >= 0 then Leader(evs) else None
  {
    LeaderIsFirstMaximal(evs);
    RescanIsFirstMaximal(evs);
    if Leader(evs).Some? && Rescan(evs).Some? {
      FirstMaximalUnique(evs, Leader(evs).value, Rescan(evs).value);
    }
  }

  // ---------------------------------------------------------------------------
  // Adding an event

  /**
   * Adding an event: it is appended; an event that is not active changes
   * nothing else. Otherwise the current event (if any) is stopped, the new
   * event becomes current if nothing was current or its priority is strictly
   * higher, and whichever event is now current is started, so that a tie
   * restarts the existing current event.
   */
  function AddEvent(s: ClimateState, e: WeatherEvent): (r: ClimateState)
    requires CurrentInRange(s)
    ensures CurrentInRange(r)
  {
    var events := s.events + [e];
    if !IsActive(e) then s.(events := events)
    else
      var stopped := if s.current.Some? then s.effects + [StopEffect(s.events[s.current.value])] else s.effects;
      var chosen := if s.current.None? || e.priority > s.events[s.current.value].priority then |s.events|
                    else s.current.value;
      s.(events := events, current := Some(chosen), effects := stopped + [StartEffect(events[chosen])])
  }

  /** What adding an event does to the list, the current event and the effect calls. */
  lemma AddEventArbitration(s: ClimateState, e: WeatherEvent)
    requires CurrentInRange(s)
    ensures AddEvent(s, e).events == s.events + [e] && AddEvent(s, e).overlay == s.overlay
    ensures !IsActive(e) ==> AddEvent(s, e).current == s.current && AddEvent(s, e).effects == s.effects
    ensures IsActive(e) && s.current.None? ==>
              AddEvent(s, e).current == Some(|s.events|) && AddEvent(s, e).effects == s.effects + [StartEffect(e)]
    ensures IsActive(e) && s.current.Some? && e.priority > s.events[s.current.value].priority ==>
              && AddEvent(s, e).current == Some(|s.events|)
              && AddEvent(s, e).effects == s.effects + [StopEffect(s.events[s.current.value]), StartEffect(e)]
    ensures IsActive(e) && s.current.Some? && e.priority <= s.events[s.current.value].priority ==>
              && AddEvent(s, e).current == s.current
              && AddEvent(s, e).effects == s.effects + [StopEffect(s.events[s.current.value]), StartEffect(s.events[s.current.value])]
  {
  }

  /** Adding an event keeps the current event one of the active events. */
  lemma AddEventKeepsCurrentActive(s: ClimateState, e: WeatherEvent)
    requires CurrentActive(s)
    ensures CurrentActive(AddEvent(s, e))
  {
    var evs := s.events + [e];
    assert forall j :: 0 <= j < |s.events| ==> evs[j] == s.events[j];
  }

  /** Adding an event keeps the current event the add-path leader of the list. */
  lemma AddEventKeepsLeader(s: ClimateState, e: WeatherEvent)
    requires CurrentInRange(s) && s.current == Leader(s.events)
    ensures AddEvent(s, e).current == Leader(s.events + [e])
  {
    assert (s.events + [e])[..|s.events|] == s.events;
  }

  /** Adding the events `es` one after the other. */
  function AddAll(s: ClimateState, es: seq<WeatherEvent>): (r: ClimateState)
    requires CurrentInRange(s)
    ensures CurrentInRange(r)
    decreases |es|
  {
    if |es| == 0 then s else AddEvent(AddAll(s, es[..|es| - 1]), es[|es| - 1])
  }

  /**
   * Adding events one by one keeps them in order and keeps the current event
   * the add-path leader of the list.
   */
  lemma {:induction false} AddAllKeepsLeader(s: ClimateState, es: seq<WeatherEvent>)
    requires CurrentInRange(s) && s.current == Leader(s.events)
    ensures AddAll(s, es).events == s.events + es
    ensures AddAll(s, es).current == Leader(s.events + es)
    decreases |es|
  {
    if |es| > 0 {
      var init := es[..|es| - 1];
      var last := es[|es| - 1];
      var prev := AddAll(s, init);
      AddAllKeepsLeader(s, init);
      AddEventKeepsLeader(prev, last);
      assert AddAll(s, es) == AddEvent(prev, last);
      assert AddEvent(prev, last).events == prev.events + [last];
      assert s.events + init + [last] == s.events + es;
    }
  }

  /**
   * After any run of additions to an empty controller the list holds the
   * added events in order, and the current event is the earliest of the
   * highest-priority active ones (none when no event is active).
   */
  lemma AddAllFromEmpty(s: ClimateState, es: seq<WeatherEvent>)
    requires IsEmpty(s)
    ensures AddAll(s, es).events == es
    ensures AddAll(s, es).current.None? <==> NoneActive(es)
    ensures AddAll(s, es).current.Some? ==> IsFirstMaximal(es, AddAll(s, es).current.value)
  {
    AddAllKeepsLeader(s, es);
    assert s.events + es == es;
    LeaderIsFirstMaximal(es);
  }

  // ---------------------------------------------------------------------------
  // The hourly update

  /** Every event after one hourly tick. */
  function Ticked(evs: seq<WeatherEvent>): seq<WeatherEvent>
  {
    seq(|evs|, i requires 0 <= i < |evs| => UpdateTime(evs[i]))
  }

  /** The events that are not expired, in their original order. */
  function Unexpired(evs: seq<WeatherEvent>): seq<WeatherEvent>
  {
    if |evs| == 0 then []
    else
      var rest := Unexpired(evs[..|evs| - 1]);
      if IsExpired(evs[|evs| - 1]) then rest else rest + [evs[|evs| - 1]]
  }

  /** Pruning removes exactly the expired events. */
  lemma {:induction false} UnexpiredFilters(evs: seq<WeatherEvent>)
    ensures forall x :: x in Unexpired(evs) <==> x in evs && !IsExpired(x)
    ensures |Unexpired(evs)| <= |evs|
  {
    if |evs| > 0 {
      var p := evs[..|evs| - 1];
      UnexpiredFilters(p);
      assert evs == p + [evs[|evs| - 1]];
    }
  }

  /** Pruning a list without expired events leaves it as it is. */
  lemma {:induction false} UnexpiredKeepsLive(evs: seq<WeatherEvent>)
    requires forall x :: x in evs ==> !IsExpired(x)
    ensures Unexpired(evs) == evs
  {
    if |evs| > 0 {
      var p := evs[..|evs| - 1];
      UnexpiredKeepsLive(p);
      assert evs == p + [evs[|evs| - 1]];
    }
  }

  /**
   * The hourly update: stop the current event and cancel the lighting effect
   * if something is current, tick every event once, drop the expired ones,
   * rescan for the current event and start it.
   */
  function HourlyUpdate(s: ClimateState): (r: ClimateState)
    requires CurrentInRange(s)
    ensures CurrentInRange(r)
  {
    var stopped := if s.current.Some? then s.effects + [StopEffect(s.events[s.current.value])] else s.effects;
    var overlay := if s.current.Some? then s.overlay.(duration := NoLightingEffect) else s.overlay;
    var events := Unexpired(Ticked(s.events));
    var current := Rescan(events);
    var effects := if current.Some? then stopped + [StartEffect(events[current.value])] else stopped;
    ClimateState(events, current, effects, overlay)
  }

  /**
   * After the hourly update no expired event remains, the remaining events
   * are the unexpired ones among the ticked events, and the current event is
   * the earliest highest-priority active one with a priority of at least 0.
   * An event that was current is stopped first and the lighting effect
   * cancelled; the new current event is started last.
   */
  lemma HourlyUpdateSpec(s: ClimateState)
    requires CurrentInRange(s)
    ensures forall x :: x in HourlyUpdate(s).events ==> !IsExpired(x)
    ensures forall x :: x in HourlyUpdate(s).events <==> x in Ticked(s.events) && !IsExpired(x)
    ensures CurrentActive(HourlyUpdate(s))
    ensures HourlyUpdate(s).current.None? <==> NoneEligible(HourlyUpdate(s).events)
    ensures HourlyUpdate(s).current.Some? ==>
              && IsFirstMaximal(HourlyUpdate(s).events, HourlyUpdate(s).current.value)
              && HourlyUpdate(s).events[HourlyUpdate(s).current.value].priority >= 0
    ensures s.current.Some? ==>
              && HourlyUpdate(s).overlay == s.overlay.(duration := NoLightingEffect)
              && HourlyUpdate(s).effects[..|s.effects| + 1] == s.effects + [StopEffect(s.events[s.current.value])]
    ensures s.current.None? ==>
              && HourlyUpdate(s).overlay == s.overlay
              && HourlyUpdate(s).effects[..|s.effects|] == s.effects
    ensures HourlyUpdate(s).current.Some? ==>
              var r := HourlyUpdate(s); r.effects[|r.effects| - 1] == StartEffect(r.events[r.current.value])
  {
    UnexpiredFilters(Ticked(s.events));
    RescanIsFirstMaximal(Unexpired(Ticked(s.events)));
  }

  // ---------------------------------------------------------------------------
  // The daily draw

  /**
   * The kind of event a day's draws produce: none when the first draw is at
   * most 0.07; otherwise draws 0-3, 4-6, 7-8 and 9 select the four kinds and
   * anything else selects none.
   */
  function DailyKind(roll: real, kindDraw: int): (r: Option<EventKind>)
    ensures r.Some? <==> roll > 0.07 && 0 <= kindDraw <= 9
    ensures r == Some(RainStorm) <==> roll > 0.07 && 0 <= kindDraw <= 3
    ensures r == Some(AcidShower) <==> roll > 0.07 && kindDraw == 9
  {
    if roll <= 0.07 then None
    else if 0 <= kindDraw <= 3 then Some(RainStorm)
    else if 4 <= kindDraw <= 6 then Some(Blizzard)
    else if 7 <= kindDraw <= 8 then Some(SolarSurge)
    else if kindDraw == 9 then Some(AcidShower)
    else None
  }

  /** The draws among 0..9 that select kind `k`. */
  function KindDraws(roll: real, k: EventKind): set<int>
  {
    set d | 0 <= d <= 9 && DailyKind(roll, d) == Some(k)
  }

  /**
   * Once the 7% "no event" draw is passed, the ten equally likely kind draws
   * give storms, blizzards, solar surges and acid showers in proportions
   * 4 : 3 : 2 : 1, and every one of them yields some event.
   */
  lemma DailyKindWeights(roll: real)
    requires roll > 0.07
    ensures |KindDraws(roll, RainStorm)| == 4
    ensures |KindDraws(roll, Blizzard)| == 3
    ensures |KindDraws(roll, SolarSurge)| == 2
    ensures |KindDraws(roll, AcidShower)| == 1
    ensures forall d :: 0 <= d <= 9 ==> DailyKind(roll, d).Some?
  {
    assert KindDraws(roll, RainStorm) == {0, 1, 2, 3};
    assert KindDraws(roll, Blizzard) == {4, 5, 6};
    assert KindDraws(roll, SolarSurge) == {7, 8};
    assert KindDraws(roll, AcidShower) == {9};
  }

  /** A first draw of at most 0.07, and a kind draw outside 0..9, produce no event. */
  lemma DailyKindNone(roll: real, kindDraw: int)
    requires roll <= 0.07 || kindDraw < 0 || kindDraw > 9
    ensures DailyKind(roll, kindDraw) == None
  {
  }

  /** The event a day's draws produce; its severity is the last draw scaled by 1.2. */
  function DailyEvent(roll: real, kindDraw: int, hoursDraw: int, durationDraw: int, priorityDraw: int,
                      severityDraw: real): (r: Option<WeatherEvent>)
    ensures r.Some? <==> DailyKind(roll, kindDraw).Some?
    ensures r.Some? ==> r.value.kind == DailyKind(roll, kindDraw).value
    ensures r.Some? ==> r.value.hoursUntil == hoursDraw && r.value.duration == durationDraw
                        && r.value.priority == priorityDraw
    ensures r.Some? && 0.0 <= severityDraw < 1.0 ==> 0.0 <= r.value.severity < 1.2
  {
    match DailyKind(roll, kindDraw)
    case None => None
    case Some(k) => Some(WeatherEvent(k, hoursDraw, durationDraw, priorityDraw, severityDraw * 1.2))
  }

  /**
   * A drawn event starts between 1 and 20 hours later, so it is never active
   * when it is added and never disturbs the current event that day.
   */
  lemma DailyEventNotYetActive(roll: real, kindDraw: int, hoursDraw: int, durationDraw: int,
                               priorityDraw: int, severityDraw: real, s: ClimateState)
    requires 1 <= hoursDraw <= 20 && CurrentInRange(s)
    requires DailyEvent(roll, kindDraw, hoursDraw, durationDraw, priorityDraw, severityDraw).Some?
    ensures var e := DailyEvent(roll, kindDraw, hoursDraw, durationDraw, priorityDraw, severityDraw).value;
            IsScheduled(e) && AddEvent(s, e).current == s.current && AddEvent(s, e).effects == s.effects
  {
  }

  // ---------------------------------------------------------------------------
  // Saving and loading

  /** One saved event: the key it is stored under, its class name and its fields. */
  datatype EventRecord = EventRecord(
    key: string,
    name: string,
    severity: real,
    duration: int,
    hoursUntil: int,
    priority: int)

  /** The record an event is saved as, under the key "Event". */
  function SaveEvent(e: WeatherEvent): (r: EventRecord)
    ensures r.key == "Event" && KindOfName(r.name) == Some(e.kind)
    ensures r.hoursUntil == e.hoursUntil && r.duration == e.duration
    ensures r.priority == e.priority && r.severity == e.severity
  {
    KindNameRoundTrip(e.kind);
    EventRecord("Event", KindName(e.kind), e.severity, e.duration, e.hoursUntil, e.priority)
  }

  /** The records the controller saves, one per event, in list order. */
  function Save(evs: seq<WeatherEvent>): (r: seq<EventRecord>)
    ensures |r| == |evs|
    ensures forall i :: 0 <= i < |r| ==> r[i].key == "Event" && KindOfName(r[i].name) == Some(evs[i].kind)
    ensures |evs| > 0 <==> HasEventChild(r)
  {
    var r := seq(|evs|, i requires 0 <= i < |evs| => SaveEvent(evs[i]));
    assert |evs| > 0 ==> r[0].key == "Event";
    r
  }

  /**
   * The correction applied to a loaded event: an event that has started gets
   * one more hour of duration if any is left; an event that has not started
   * waits one more hour.
   */
  function LoadCorrection(e: WeatherEvent): (r: WeatherEvent)
    ensures r.kind == e.kind && r.priority == e.priority && r.severity == e.severity
    ensures e.hoursUntil == 0 ==> r.hoursUntil == 0 && (e.duration > 0 ==> r.duration == e.duration + 1)
                                  && (e.duration <= 0 ==> r.duration == e.duration)
    ensures e.hoursUntil != 0 ==> r.hoursUntil == e.hoursUntil + 1 && r.duration == e.duration
  {
    if e.hoursUntil == 0 then (if e.duration > 0 then e.(duration := e.duration + 1) else e)
    else e.(hoursUntil := e.hoursUntil + 1)
  }

  /**
   * The correction is undone by the first hourly tick after loading: an
   * unexpired event is back where it was saved, an expired one is still
   * expired.
   */
  lemma LoadCorrectionUndoneByTick(e: WeatherEvent)
    requires e.hoursUntil >= 0
    ensures !IsExpired(e) ==> UpdateTime(LoadCorrection(e)) == e
    ensures IsExpired(e) ==> IsExpired(UpdateTime(LoadCorrection(e)))
  {
  }

  /** The event a saved record loads as, if its class name is known. */
  function LoadedEvent(rec: EventRecord): (r: Option<WeatherEvent>)
    ensures r.None? <==> KindOfName(rec.name).None?
    ensures r.Some? ==> KindName(r.value.kind) == rec.name
    ensures r.Some? ==> r.value.priority == rec.priority && r.value.severity == rec.severity
    ensures r.Some? && rec.hoursUntil >= 0 && !(rec.hoursUntil == 0 && rec.duration <= 0) ==>
              UpdateTime(r.value) == WeatherEvent(r.value.kind, rec.hoursUntil, rec.duration, rec.priority, rec.severity)
  {
    match KindOfName(rec.name)
    case None => None
    case Some(k) => Some(LoadCorrection(WeatherEvent(k, rec.hoursUntil, rec.duration, rec.priority, rec.severity)))
  }

  /** Loading the records in order: each known one is added, unknown ones are skipped. */
  function LoadRecords(s: ClimateState, recs: seq<EventRecord>): (r: ClimateState)
    requires CurrentInRange(s)
    ensures CurrentInRange(r)
    decreases |recs|
  {
    if |recs| == 0 then s
    else
      var prev := LoadRecords(s, recs[..|recs| - 1]);
      match LoadedEvent(recs[|recs| - 1])
      case None => prev
      case Some(e) => AddEvent(prev, e)
  }

  /** Some record is stored under the key "Event". */
  predicate HasEventChild(recs: seq<EventRecord>)
  {
    exists i | 0 <= i < |recs| :: recs[i].key == "Event"
  }

  /**
   * The state before saved records are loaded: the current event is stopped
   * (cancelling the lighting effect) and forgotten, and the list is empty.
   */
  function Cleared(s: ClimateState): (r: ClimateState)
    requires CurrentInRange(s)
    ensures IsEmpty(r)
  {
    var stopped :=
      if s.current.Some? then
        s.(effects := s.effects + [StopEffect(s.events[s.current.value])],
           overlay := s.overlay.(duration := NoLightingEffect), current := None)
      else s;
    stopped.(events := [])
  }

  /**
   * Loading saved records: stop the current event (cancelling the lighting
   * effect) and forget it, clear the list, then, if any record is stored
   * under "Event", load every record in order.
   */
  function SetValues(s: ClimateState, recs: seq<EventRecord>): (r: ClimateState)
    requires CurrentInRange(s)
    ensures CurrentInRange(r)
  {
    if HasEventChild(recs) then LoadRecords(Cleared(s), recs) else Cleared(s)
  }

  /** A saved event loads back as the same event with the load correction applied. */
  lemma LoadedEventOfSave(e: WeatherEvent)
    ensures LoadedEvent(SaveEvent(e)) == Some(LoadCorrection(e))
  {
    KindNameRoundTrip(e.kind);
  }

  /** Every event as it is after the load correction. */
  function Corrected(evs: seq<WeatherEvent>): seq<WeatherEvent>
  {
    seq(|evs|, i requires 0 <= i < |evs| => LoadCorrection(evs[i]))
  }

  /** Correcting a list with one more event appends that event, corrected. */
  lemma CorrectedSnoc(evs: seq<WeatherEvent>)
    requires |evs| > 0
    ensures Corrected(evs) == Corrected(evs[..|evs| - 1]) + [LoadCorrection(evs[|evs| - 1])]
  {
  }

  /** Loading the save of a list with one more event loads that event last. */
  lemma LoadRecordsOfSaveSnoc(s: ClimateState, evs: seq<WeatherEvent>)
    requires CurrentInRange(s) && |evs| > 0
    ensures LoadRecords(s, Save(evs)) == AddEvent(LoadRecords(s, Save(evs[..|evs| - 1])), LoadCorrection(evs[|evs| - 1]))
  {
    var n := |evs|;
    assert Save(evs)[..n - 1] == Save(evs[..n - 1]);
    LoadedEventOfSave(evs[n - 1]);
  }

  /** Loading saved events appends each one, corrected, in order. */
  lemma {:induction false} LoadRecordsOfSave(s: ClimateState, evs: seq<WeatherEvent>)
    requires CurrentInRange(s)
    ensures LoadRecords(s, Save(evs)).events == s.events + Corrected(evs)
    decreases |evs|
  {
    if |evs| > 0 {
      var init := evs[..|evs| - 1];
      var last := LoadCorrection(evs[|evs| - 1]);
      LoadRecordsOfSave(s, init);
      LoadRecordsOfSaveSnoc(s, evs);
      AddEventArbitration(LoadRecords(s, Save(init)), last);
      CorrectedSnoc(evs);
      assert s.events + Corrected(init) + [last] == s.events + Corrected(evs);
    }
  }

  /** Ticking corrected events and pruning gives the unexpired original events. */
  lemma {:induction false} TickUndoesCorrection(evs: seq<WeatherEvent>)
    requires forall e :: e in evs ==> e.hoursUntil >= 0
    ensures Unexpired(Ticked(Corrected(evs))) == Unexpired(evs)
    decreases |evs|
  {
    if |evs| > 0 {
      var n := |evs|;
      var init := evs[..n - 1];
      TickUndoesCorrection(init);
      assert Ticked(Corrected(evs))[..n - 1] == Ticked(Corrected(init));
      LoadCorrectionUndoneByTick(evs[n - 1]);
    }
  }

  /**
   * Saving the events and loading them back, followed by the first hourly
   * update, restores exactly the saved events that were not expired, in
   * order, and selects the current event from them by the rescan rule.
   */
  lemma SaveLoadRoundTrip(s: ClimateState, evs: seq<WeatherEvent>)
    requires CurrentInRange(s)
    requires forall e :: e in evs ==> e.hoursUntil >= 0
    ensures HourlyUpdate(SetValues(s, Save(evs))).events == Unexpired(evs)
    ensures HourlyUpdate(SetValues(s, Save(evs))).current == Rescan(Unexpired(evs))
  {
    var loaded := SetValues(s, Save(evs));
    if |evs| > 0 {
      assert Save(evs)[0].key == "Event";
      LoadRecordsOfSave(Cleared(s), evs);
    }
    assert loaded.events == Corrected(evs);
    TickUndoesCorrection(evs);
  }

  /**
   * Events saved right after an hourly update hold no expired event, so a
   * load followed by one hourly update gives back the very same list.
   */
  lemma SaveLoadRestoresLiveEvents(s: ClimateState, evs: seq<WeatherEvent>)
    requires CurrentInRange(s)
    requires forall e :: e in evs ==> e.hoursUntil >= 0 && !IsExpired(e)
    ensures HourlyUpdate(SetValues(s, Save(evs))).events == evs
  {
    SaveLoadRoundTrip(s, evs);
    UnexpiredKeepsLive(evs);
  }

  // ---------------------------------------------------------------------------
  // The arbitration invariant

  /** No event of `evs` has a negative priority, as with every event the daily draw makes. */
  predicate NonNegativePriorities(evs: seq<WeatherEvent>)
  {
    forall j :: 0 <= j < |evs| ==> evs[j].priority >= 0
  }

  /**
   * While no event has a negative priority, the current event is the one the
   * add-path arbitration picks from the whole list.
   */
  predicate Arbitrated(s: ClimateState)
  {
    NonNegativePriorities(s.events) ==> s.current == Leader(s.events)
  }

  /**
   * In an arbitrated state without negative priorities, nothing is current
   * iff no event is active, and otherwise the current event is the earliest
   * of the highest-priority active events.
   */
  lemma ArbitratedIsFirstMaximal(s: ClimateState)
    requires Arbitrated(s) && NonNegativePriorities(s.events)
    ensures s.current.None? <==> NoneActive(s.events)
    ensures s.current.Some? ==> IsFirstMaximal(s.events, s.current.value)
  {
    LeaderIsFirstMaximal(s.events);
  }

  /** An empty controller is arbitrated. */
  lemma EmptyIsArbitrated(s: ClimateState)
    requires IsEmpty(s)
    ensures Arbitrated(s)
  {
  }

  /** Adding an event keeps the state arbitrated. */
  lemma AddEventKeepsArbitrated(s: ClimateState, e: WeatherEvent)
    requires CurrentInRange(s) && Arbitrated(s)
    ensures Arbitrated(AddEvent(s, e))
  {
    var evs := s.events + [e];
    if NonNegativePriorities(evs) {
      assert forall j :: 0 <= j < |s.events| ==> evs[j] == s.events[j];
      AddEventKeepsLeader(s, e);
    }
  }

  /**
   * The hourly update leaves the state arbitrated, whatever it was before:
   * once every event left has a priority of at least 0, the rescan and the
   * add path agree.
   */
  lemma HourlyUpdateArbitrated(s: ClimateState)
    requires CurrentInRange(s)
    ensures Arbitrated(HourlyUpdate(s))
  {
    var evs := Unexpired(Ticked(s.events));
    RescanAgreesWithLeader(evs);
  }

  /** Loading records one by one keeps the state arbitrated. */
  lemma {:induction false} LoadRecordsArbitrated(s: ClimateState, recs: seq<EventRecord>)
    requires CurrentInRange(s) && Arbitrated(s)
    ensures Arbitrated(LoadRecords(s, recs))
    decreases |recs|
  {
    if |recs| > 0 {
      var prev := LoadRecords(s, recs[..|recs| - 1]);
      LoadRecordsArbitrated(s, recs[..|recs| - 1]);
      match LoadedEvent(recs[|recs| - 1])
      case None =>
      case Some(e) => AddEventKeepsArbitrated(prev, e);
    }
  }

  /** Loading saved records leaves the state arbitrated, whatever it was before. */
  lemma SetValuesArbitrated(s: ClimateState, recs: seq<EventRecord>)
    requires CurrentInRange(s)
    ensures Arbitrated(SetValues(s, recs))
  {
    EmptyIsArbitrated(Cleared(s));
    LoadRecordsArbitrated(Cleared(s), recs);
  }

  /** One hour of a list holding a single event whose priority is negative and that stays unexpired. */
  lemma SingleEventHour(x: WeatherEvent)
    requires !IsExpired(UpdateTime(x)) && x.priority < 0
    ensures Unexpired(Ticked([x])) == [UpdateTime(x)]
    ensures Rescan([UpdateTime(x)]) == None
  {
    assert Ticked([x]) == [UpdateTime(x)];
    assert [UpdateTime(x)][..0] == [];
  }

  /**
   * With a negative priority the two arbitrations part: an active event of
   * priority -1 is current after its addition, the hourly rescan drops it,
   * and a later active event of priority -5 then becomes current although
   * the first one is still active and outranks it.
   */
  lemma NegativePriorityDivergence(a: WeatherEvent, b: WeatherEvent)
    requires a.hoursUntil == 0 && a.duration == 3 && a.priority == -1
    requires b.hoursUntil == 0 && b.duration == 3 && b.priority == -5
    ensures var s1 := AddEvent(ClimateState([], None, [], Overlay(0.0, 0.0, None)), a);
            var s2 := HourlyUpdate(s1);
            var s3 := AddEvent(s2, b);
            && s1.current == Some(0)
            && s2.current == None && s2.events == [UpdateTime(a)] && IsActive(UpdateTime(a))
            && s3.current == Some(1) && !IsFirstMaximal(s3.events, 1)
  {
    var s1 := AddEvent(ClimateState([], None, [], Overlay(0.0, 0.0, None)), a);
    assert s1.events == [a] && s1.current == Some(0);
    SingleEventHour(a);
    var s2 := HourlyUpdate(s1);
    assert s2.events == [UpdateTime(a)] && s2.current == None;
    var s3 := AddEvent(s2, b);
    assert s3.events == [UpdateTime(a), b] && s3.current == Some(1);
    assert IsActive(s3.events[0]) && s3.events[0].priority > s3.events[1].priority;
  }

  // ---------------------------------------------------------------------------
  // The lighting overlay

  /** What one frame of the overlay does to the global colour offset. */
  datatype LightingOutput =
    | ClearOffset                                          // no tint
    | GradientOffset(gradient: Gradient, t: Option<real>)  // the gradient at t; None stands for 0/0 (NaN)
    | MissingGradient                                      // no gradient was ever set: the call fails

  /** The gradient applied at `t`, or a failure when there is none. */
  function ApplyGradient(g: Option<Gradient>, t: Option<real>): (r: LightingOutput)
    ensures r == MissingGradient <==> g.None?
    ensures r != ClearOffset
    ensures r.GradientOffset? ==> r.gradient == g.value && r.t == t
  {
    if g.None? then MissingGradient else GradientOffset(g.value, t)
  }

  /**
   * The colour offset for the overlay's current progress: with
   * t = progress / duration, a t outside [0, 1] clears the offset and any
   * other t applies the gradient at t. A zero duration gives an infinite t
   * (cleared) unless the progress is zero too, which gives NaN, which neither
   * comparison rejects.
   */
  function LightingOffset(o: Overlay): (r: LightingOutput)
    ensures o.duration > 0.0 ==> (r == ClearOffset <==> o.progress < 0.0 || o.progress > o.duration)
    ensures o.duration > 0.0 && 0.0 <= o.progress <= o.duration && o.gradient.Some? ==>
              r == GradientOffset(o.gradient.value, Some(o.progress / o.duration))
    ensures r.GradientOffset? && r.t.Some? ==> 0.0 <= r.t.value <= 1.0
    ensures o.duration == NoLightingEffect && o.progress > 0.0 ==> r == ClearOffset
  {
    if o.duration == 0.0 then
      if o.progress == 0.0 then ApplyGradient(o.gradient, None) else ClearOffset
    else
      var t := o.progress / o.duration;
      if o.duration > 0.0 then RatioWindow(o.progress, o.duration); LightingStep(o, t)
      else LightingStep(o, t)
  }

  /** The overlay's output for the ratio `t` of a non-zero duration. */
  function LightingStep(o: Overlay, t: real): (r: LightingOutput)
    ensures r == ClearOffset <==> t < 0.0 || t > 1.0
    ensures r == MissingGradient <==> 0.0 <= t <= 1.0 && o.gradient.None?
    ensures r.GradientOffset? ==> r.t == Some(t) && 0.0 <= t <= 1.0
  {
    if t < 0.0 || t > 1.0 then ClearOffset else ApplyGradient(o.gradient, Some(t))
  }

  /** For a positive duration the ratio leaves [0, 1] exactly when the progress leaves [0, duration]. */
  lemma RatioWindow(p: real, d: real)
    requires d > 0.0
    ensures p / d < 0.0 <==> p < 0.0
    ensures p / d > 1.0 <==> p > d
  {
  }

  /** Both ends of the overlay's window apply the gradient: at t = 0 and at t = 1. */
  lemma LightingWindowInclusive(d: real, g: Gradient)
    requires d > 0.0
    ensures LightingOffset(Overlay(0.0, d, Some(g))) == GradientOffset(g, Some(0.0))
    ensures LightingOffset(Overlay(d, d, Some(g))) == GradientOffset(g, Some(1.0))
  {
    assert 0.0 / d == 0.0;
    assert d / d == 1.0;
  }
}
