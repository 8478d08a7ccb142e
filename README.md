# Weather, plants, combat and quests of the colony game, in Dafny

This project models the game-state bookkeeping of the 2023 studio farming and
survival game: the climate controller that arbitrates between weather events,
the rain storm's lightning schedule, a crop plant's growth state machine, an
entity's combat statistics, and the quest that rewards itself after a delay.
Each part follows the form of its Java class.

- **Weather events** (`weather_event.dfy`, module `WeatherEvents`). A weather
  event is a value with a countdown to its start (`hoursUntil`), a remaining
  `duration`, a `priority` and a `severity`. An hourly tick consumes the
  countdown first and then the duration. An event is active when the countdown
  is 0 and some duration is left. It is expired when the countdown is 0 and no
  duration is left. The event base class is not part of this model; this
  lifecycle is the one the controller's tests rely on.
- **Climate controller** (`climate_spec.dfy`, module `ClimateSpec`;
  `climate_controller.dfy`, module `Climate`).
  - `ClimateSpec` gives every operation of the controller as a function of its
    state:
    - adding an event, with its priority rule and its stop-then-start of the
      current event's effect;
    - the hourly tick, prune and rescan;
    - the daily random draw;
    - saving, and loading with its timer correction;
    - the one-shot lighting overlay.
  - Its lemmas prove what these promise:
    - while no event has a negative priority (the daily draw gives priorities
      0 to 3), the current event is the earliest of the highest-priority
      active events, after every operation;
    - with negative priorities the add path and the hourly rescan disagree
      (the rescan never picks a negative priority, an addition may), so the
      current event can then be an outranked one
      (`ClimateSpec.NegativePriorityDivergence`);
    - no expired event survives an hour;
    - a save followed by a load and one hour gives back the saved live events.
  - `Climate.ClimateController` is the object itself. Its event list,
    current-event index, effect-call trace and lighting fields are updated in
    place by loops. Each method is proved to follow its `ClimateSpec` function
    and to keep the current event an active member of the list and, while no
    priority is negative, the arbitration winner.
- **Rain storm** (`rain_storm.dfy`, module `RainStorm`).
  - Pure functions give the severity formulas: brightness, dry rate, and the
    bounds of the strike delay and strike length. The random draw is a
    parameter `u` in [0, 1).
  - The class `RainStormEvent` holds its weather-event state as a
    `WeatherEvents.WeatherEvent` value and schedules a strike only when it fits
    before the storm ends, and cancels the pending strike when its effect stops. The
    controller's queue of pending strikes is a ghost map from handle to delay.
- **Plant** (`plant.dfy`, module `Plants`).
  - Six growth stages; a growth level compared at noon with three thresholds;
    a health cap per stage; a count of adult days that ends in decay;
    harvesting.
  - The pure functions `GrowLevel`, `DecayDay`, `Advance` and `HourUpdate`
    describe one step each, and the class `PlantComponent` is proved to follow
    them.
  - The crop tile's growth rate and the hour are parameters. A sound request
    only succeeds or fails.
- **Combat statistics** (`combat.dfy`, module `Combat`).
  - Health is clamped into [0, 100] and the base attack is never negative.
  - A hit subtracts the attacker's base attack unless god mode is on.
  - The health is saved and loaded.
  - Signals to the entity and to the mission manager are an abstract trace.
- **Auto quest** (`auto_quest.dfy`, module `Quests`). A countdown of in-game
  minutes, held at 0 once it runs out. Every update that leaves it at 0 asks
  for the reward, and the model counts those requests.
- **Shared modules**. `Wrappers` holds `Option` and `Outcome`: a Java
  exception becomes `Fail(error)`. `JavaInt` holds Java's 32-bit `int`
  wrap-around and its truncating `(int)` cast.

Where the prose design of the game and the code differ, the model follows the
code:

- **Save and load.** The design text says that a saved set of events, loaded
  and ticked once, matches the originals ticked once more. The code instead
  adds one hour to every loaded timer, to absorb the tick that follows the
  load. So one tick after loading gives back exactly the saved timers, not the
  timers one hour on (`ClimateSpec.SaveLoadRoundTrip`,
  `ClimateSpec.LoadCorrectionUndoneByTick`).
- **Event lifecycle.** The design text describes an event added with
  countdown 0 and duration 1 as still current after one hour. The code ticks
  that duration to 0 and prunes the event in the same hourly update, as the
  controller's test of an instant event expects, so it is gone after that hour
  (`WeatherEvents.ActiveWindow`).
- **Rain storm particles.** The rain storm's test expects the plain rain
  particle effect. The code starts and stops the acid-rain effect, and the
  model follows the code (`RainStorm.StartCalls`).

## Model

| member | source | states |
|---|---|---|
| WeatherEvents.KindOfName | source/core/src/main/com/csse3200/game/areas/weather/ClimateController.java:261-270 | a saved class name gives the event kind with exactly that name; any other name gives None, so the record is skipped |
| WeatherEvents.KindNameRoundTrip | source/core/src/main/com/csse3200/game/areas/weather/ClimateController.java:261-270 | every kind is found again from the class name it is saved under |
| WeatherEvents.UpdateTime | source/core/src/test/com/csse3200/game/areas/weather/ClimateControllerTest.java:238-255 | one hour takes exactly one unit off the countdown while it is positive, and only then off the duration; kind, priority and severity are kept, and a countdown that is not negative stays so |
| WeatherEvents.LifecycleTrichotomy | source/core/src/test/com/csse3200/game/areas/weather/ClimateControllerTest.java:238-277 | an event whose countdown is not negative is exactly one of scheduled, active and expired |
| WeatherEvents.ScheduledTick | source/core/src/test/com/csse3200/game/areas/weather/ClimateControllerTest.java:238-255 | a scheduled event's next hour takes one unit off its countdown and leaves its duration |
| WeatherEvents.ActiveTick | source/core/src/test/com/csse3200/game/areas/weather/ClimateControllerTest.java:238-277 | an active event's next hour takes one unit off its duration and keeps its countdown at 0, so it is then active or expired |
| WeatherEvents.ExpiredTick | source/core/src/test/com/csse3200/game/areas/weather/ClimateControllerTest.java:262-277 | an expired event stays expired through the next hour |
| WeatherEvents.TickNTimers | source/core/src/test/com/csse3200/game/areas/weather/ClimateControllerTest.java:238-255 | after n hours the countdown has absorbed the first `hoursUntil` ticks and the duration all later ones |
| WeatherEvents.ActiveWindow | source/core/src/test/com/csse3200/game/areas/weather/ClimateControllerTest.java:262-277 | an event with countdown h and duration d is active exactly during ticks h to h+d-1 and expired from tick h+d on |
| ClimateSpec.Leader | source/core/src/main/com/csse3200/game/areas/weather/ClimateController.java:118-124 | the event a run of additions makes current is an index into the list |
| ClimateSpec.Rescan | source/core/src/main/com/csse3200/game/areas/weather/ClimateController.java:208-219 | the event the rescan picks is an index into the list |
| ClimateSpec.LeaderIsFirstMaximal | source/core/src/main/com/csse3200/game/areas/weather/ClimateController.java:118-124 | additions leave no event current iff none is active, and otherwise the earliest active event of highest priority |
| ClimateSpec.RescanIsFirstMaximal | source/core/src/main/com/csse3200/game/areas/weather/ClimateController.java:208-219 | the rescan picks nothing iff no active event has priority >= 0, and otherwise the earliest active event of highest priority, which is >= 0 |
| ClimateSpec.FirstMaximalUnique | source/core/src/main/com/csse3200/game/areas/weather/ClimateController.java:208-219 | the earliest highest-priority active event is unique, so both arbitrations name the same event |
| ClimateSpec.RescanAgreesWithLeader | source/core/src/main/com/csse3200/game/areas/weather/ClimateController.java:208-219 | the rescan picks what additions pick, except that it drops a pick of negative priority |
| ClimateSpec.AddEvent | source/core/src/main/com/csse3200/game/areas/weather/ClimateController.java:110-125 | adding keeps the current index within the list |
| ClimateSpec.AddEventArbitration | source/core/src/main/com/csse3200/game/areas/weather/ClimateController.java:114-124 | the event is appended; an inactive one changes nothing else; an active one becomes current iff nothing was current or its priority is strictly higher; the old current event gets one stop and the current one one start, so on a tie the same event is stopped and restarted |
| ClimateSpec.AddEventKeepsCurrentActive | source/core/src/main/com/csse3200/game/areas/weather/ClimateController.java:114-124 | if the current event was an active member of the list, it still is after an addition |
| ClimateSpec.AddEventKeepsLeader | source/core/src/main/com/csse3200/game/areas/weather/ClimateController.java:118-124 | an addition moves the current event to the arbitration winner of the extended list |
| ClimateSpec.AddAll | source/core/src/main/com/csse3200/game/areas/weather/ClimateController.java:110-125 | a run of additions keeps the current index within the list |
| ClimateSpec.AddAllKeepsLeader | source/core/src/main/com/csse3200/game/areas/weather/ClimateController.java:110-125 | a run of additions appends all events in order and leaves the arbitration winner of the whole list current |
| ClimateSpec.AddAllFromEmpty | source/core/src/main/com/csse3200/game/areas/weather/ClimateController.java:110-125 | from an empty controller, any sequence of additions leaves no event current iff none is active, and otherwise the earliest active event of highest priority |
| ClimateSpec.UnexpiredFilters | source/core/src/main/com/csse3200/game/areas/weather/ClimateController.java:196 | pruning keeps exactly the events that are not expired, and never lengthens the list |
| ClimateSpec.UnexpiredKeepsLive | source/core/src/main/com/csse3200/game/areas/weather/ClimateController.java:196 | pruning a list with no expired event leaves it as it is |
| ClimateSpec.ArbitratedIsFirstMaximal | source/core/src/main/com/csse3200/game/areas/weather/ClimateController.java:110-125 | in an arbitrated state with no negative priority, nothing is current iff no event is active, and otherwise the earliest highest-priority active event is |
| ClimateSpec.AddEventKeepsArbitrated | source/core/src/main/com/csse3200/game/areas/weather/ClimateController.java:110-125 | an addition keeps the state arbitrated |
| ClimateSpec.HourlyUpdateArbitrated | source/core/src/main/com/csse3200/game/areas/weather/ClimateController.java:183-219 | after any hourly update the state is arbitrated: with no negative priority left, the rescan's pick is the add path's |
| ClimateSpec.LoadRecordsArbitrated | source/core/src/main/com/csse3200/game/areas/weather/ClimateController.java:245-272 | loading records one by one keeps the state arbitrated |
| ClimateSpec.SetValuesArbitrated | source/core/src/main/com/csse3200/game/areas/weather/ClimateController.java:235-274 | after any load the state is arbitrated |
| ClimateSpec.NegativePriorityDivergence | source/core/src/main/com/csse3200/game/areas/weather/ClimateController.java:118-124 | an active event of priority -1, after one hour of the rescan, is no longer current, and a later active event of priority -5 then becomes current although the first one outranks it |
| ClimateSpec.HourlyUpdate | source/core/src/main/com/csse3200/game/areas/weather/ClimateController.java:183-203 | the hourly update keeps the current index within the list |
| ClimateSpec.HourlyUpdateSpec | source/core/src/main/com/csse3200/game/areas/weather/ClimateController.java:183-219 | after the hourly update no expired event remains; the list holds exactly the ticked events that are not expired; the current event is none iff no active event has priority >= 0, and otherwise the earliest highest-priority active one; a previously current event is stopped first and the lighting effect is cancelled (-1); the new current event is started last |
| ClimateSpec.DailyKind | source/core/src/main/com/csse3200/game/areas/weather/ClimateController.java:158-166 | a kind is drawn iff the roll passes 0.07 and the draw is in 0..9; draws 0..3 give a rain storm and 9 an acid shower |
| ClimateSpec.DailyKindWeights | source/core/src/main/com/csse3200/game/areas/weather/ClimateController.java:146-167 | past the 7% roll, four of the ten kind draws give a rain storm, three a blizzard, two a solar surge and one an acid shower, and every draw 0..9 gives an event |
| ClimateSpec.DailyKindNone | source/core/src/main/com/csse3200/game/areas/weather/ClimateController.java:146-167 | a roll of at most 0.07, or a kind draw outside 0..9, gives no event |
| ClimateSpec.DailyEvent | source/core/src/main/com/csse3200/game/areas/weather/ClimateController.java:146-168 | an event is drawn iff a kind is; it takes the drawn kind, countdown, duration and priority, and its severity lies in [0, 1.2) |
| ClimateSpec.DailyEventNotYetActive | source/core/src/main/com/csse3200/game/areas/weather/ClimateController.java:152-168 | a drawn event starts at least an hour away, so adding it leaves the current event and the effect calls alone |
| ClimateSpec.SaveEvent | source/core/src/main/com/csse3200/game/areas/weather/ClimateController.java:221-228 | an event is saved under "Event" with a class name that loads back as its kind, and with its countdown, duration, priority and severity |
| ClimateSpec.Save | source/core/src/main/com/csse3200/game/areas/weather/ClimateController.java:221-228 | one record per event, in order, each under "Event" with its kind's name; a save holds an "Event" child iff some event was saved |
| ClimateSpec.LoadCorrection | source/core/src/main/com/csse3200/game/areas/weather/ClimateController.java:253-259 | a loaded record with countdown 0 gets one more hour of duration if it has any; any other record gets one more hour of countdown |
| ClimateSpec.LoadCorrectionUndoneByTick | source/core/src/main/com/csse3200/game/areas/weather/ClimateController.java:253-259 | one hourly tick after the correction gives back the saved event, or an expired one if the saved event was expired |
| ClimateSpec.LoadedEvent | source/core/src/main/com/csse3200/game/areas/weather/ClimateController.java:246-271 | a record loads iff its class name is known, as an event of that kind with its priority and severity, whose first hourly tick gives back the saved timers unless it was expired |
| ClimateSpec.LoadRecords | source/core/src/main/com/csse3200/game/areas/weather/ClimateController.java:245-272 | loading records keeps the current index within the list |
| ClimateSpec.Cleared | source/core/src/main/com/csse3200/game/areas/weather/ClimateController.java:236-243 | before loading, the list is emptied and nothing is current |
| ClimateSpec.SetValues | source/core/src/main/com/csse3200/game/areas/weather/ClimateController.java:235-274 | a load keeps the current index within the list |
| ClimateSpec.LoadedEventOfSave | source/core/src/main/com/csse3200/game/areas/weather/ClimateController.java:246-271 | reading back a saved event gives the event with the load correction applied |
| ClimateSpec.LoadRecordsOfSave | source/core/src/main/com/csse3200/game/areas/weather/ClimateController.java:245-272 | loading a save appends each saved event, corrected, in the saved order |
| ClimateSpec.TickUndoesCorrection | source/core/src/main/com/csse3200/game/areas/weather/ClimateController.java:192-196 | ticking and pruning the corrected events gives the saved events without the expired ones |
| ClimateSpec.SaveLoadRoundTrip | source/core/src/main/com/csse3200/game/areas/weather/ClimateController.java:221-274 | saving, loading and one hourly update give back the saved events that had not expired, with the current event the rescan of exactly those |
| ClimateSpec.SaveLoadRestoresLiveEvents | source/core/src/main/com/csse3200/game/areas/weather/ClimateController.java:221-274 | when no saved event had expired, saving, loading and one hourly update give back exactly the saved list |
| ClimateSpec.LightingOffset | source/core/src/main/com/csse3200/game/areas/weather/ClimateController.java:77-90 | for a positive length the offset is clear iff the progress is before 0 or past the length, and otherwise the gradient at progress/length, always within [0, 1]; a cancelled effect (-1) with positive progress is clear |
| ClimateSpec.ApplyGradient | source/core/src/main/com/csse3200/game/areas/weather/ClimateController.java:77-90 | applying fails iff no gradient was ever set, and otherwise plays that gradient at the given ratio |
| ClimateSpec.LightingStep | source/core/src/main/com/csse3200/game/areas/weather/ClimateController.java:77-90 | for a ratio t the offset is clear iff t is outside [0, 1]; inside, the gradient is played at t, or the call fails when no gradient was set |
| ClimateSpec.LightingWindowInclusive | source/core/src/main/com/csse3200/game/areas/weather/ClimateController.java:79-81 | both ends of the window are inside it: progress 0 plays the gradient at 0 and progress equal to the length plays it at 1 |
| Climate.ClimateController.constructor | source/core/src/main/com/csse3200/game/areas/weather/ClimateController.java:50-52 | a new controller holds no events, no current event and no lighting effect |
| Climate.ClimateController.InitialiseEvents | source/core/src/main/com/csse3200/game/areas/weather/ClimateController.java:57-63 | initialising marks the lighting effect as cancelled and changes nothing else |
| Climate.ClimateController.GetCurrentWeatherEvent | source/core/src/main/com/csse3200/game/areas/weather/ClimateController.java:132-134 | the result is none iff nothing is current, and otherwise an active event of the list |
| Climate.ClimateController.AddWeatherEvent | source/core/src/main/com/csse3200/game/areas/weather/ClimateController.java:110-125 | a missing event fails with NullEvent and changes nothing; any other follows `AddEvent`; the current event stays an active member |
| Climate.ClimateController.AddDailyEvent | source/core/src/main/com/csse3200/game/areas/weather/ClimateController.java:146-169 | the daily handler adds the drawn event, if any, as `AddEvent` does |
| Climate.ClimateController.UpdateWeatherEvent | source/core/src/main/com/csse3200/game/areas/weather/ClimateController.java:183-203 | the in-place tick, prune and rescan reach exactly the state `HourlyUpdate` describes |
| Climate.ClimateController.RecalculateCurrentWeatherEvent | source/core/src/main/com/csse3200/game/areas/weather/ClimateController.java:208-219 | the scanning loop leaves the rescan's pick current and changes nothing else |
| Climate.ClimateController.Write | source/core/src/main/com/csse3200/game/areas/weather/ClimateController.java:221-228 | the records written are one per event, in list order |
| Climate.ClimateController.SetValues | source/core/src/main/com/csse3200/game/areas/weather/ClimateController.java:235-274 | the load reaches exactly the state `ClimateSpec.SetValues` describes, keeping the current event an active member |
| Climate.ClimateController.LoadAll | source/core/src/main/com/csse3200/game/areas/weather/ClimateController.java:245-272 | the loading loop adds each known record in order and skips unknown ones, reaching exactly the state `ClimateSpec.LoadRecords` describes and keeping the controller valid |
| Climate.ClimateController.SetLightingEffect | source/core/src/main/com/csse3200/game/areas/weather/ClimateController.java:99-103 | a new lighting effect starts at progress 0 with the given length and gradient |
| Climate.ClimateController.UpdateClimate | source/core/src/main/com/csse3200/game/areas/weather/ClimateController.java:77-90 | a frame advances the lighting progress by the frame time and returns the offset `LightingOffset` gives for the new progress |
| RainStorm.BrightnessMultiplier | source/core/src/main/com/csse3200/game/areas/weather/RainStormEvent.java:47 | for severities in [0, 1.5] the brightness multiplier lies in [0.6, 0.9] |
| RainStorm.BrightnessAtKnownSeverities | source/core/src/main/com/csse3200/game/areas/weather/RainStormEvent.java:47 | the multiplier is 0.9 at severity 0, 0.6 at 1.5 and 0.66 at 1.2 |
| RainStorm.BrightnessDecreasing | source/core/src/main/com/csse3200/game/areas/weather/RainStormEvent.java:47 | a more severe storm is never brighter |
| RainStorm.DryRate | source/core/src/main/com/csse3200/game/areas/weather/RainStormEvent.java:126-130 | the dry rate is never positive for a non-negative severity, never below -0.002 up to severity 1.5, and zero exactly at severity 0 |
| RainStorm.DryRateAtKnownSeverity | source/core/src/main/com/csse3200/game/areas/weather/RainStormEvent.java:126-130 | the dry rate is -0.0016 at severity 1.2 and -0.002 at 1.5 |
| RainStorm.StrikeDelayBounds | source/core/src/main/com/csse3200/game/areas/weather/RainStormEvent.java:108-112 | up to severity 1.5 the strike delay bounds satisfy 2 <= min <= max, and max is at most 14 |
| RainStorm.StrikeDelayShrinks | source/core/src/main/com/csse3200/game/areas/weather/RainStormEvent.java:108-112 | both delay bounds shrink as severity grows |
| RainStorm.StrikeDurationBounds | source/core/src/main/com/csse3200/game/areas/weather/RainStormEvent.java:114-118 | for non-negative severity the strike length bounds satisfy 0.6 <= min <= max, and max is at most 3.8 up to severity 1.5 |
| RainStorm.StrikeDurationGrows | source/core/src/main/com/csse3200/game/areas/weather/RainStormEvent.java:114-118 | both length bounds grow with severity |
| RainStorm.Draw | source/core/src/main/com/csse3200/game/areas/weather/RainStormEvent.java:111 | a draw between two ordered bounds lies between them, strictly below the upper one when they differ |
| RainStorm.NextTimeToLightningStrike | source/core/src/main/com/csse3200/game/areas/weather/RainStormEvent.java:108-112 | the next strike comes between 2 and 14 seconds away |
| RainStorm.NextLightningStrikeDuration | source/core/src/main/com/csse3200/game/areas/weather/RainStormEvent.java:114-118 | a strike's flash lasts between 0.6 and 3.8 seconds |
| RainStorm.TimeToEndOfEvent | source/core/src/main/com/csse3200/game/areas/weather/RainStormEvent.java:82 | the time left lies between the remaining full hours and the remaining hours including this one, at 30 seconds an hour; it is never negative, and at minute 59 it is exactly the remaining full hours |
| RainStorm.StrikeFitsBeforeLastHour | source/core/src/main/com/csse3200/game/areas/weather/RainStormEvent.java:81-90 | with two or more hours left, every drawn strike fits and is scheduled |
| RainStorm.NoStrikeAtTheEnd | source/core/src/main/com/csse3200/game/areas/weather/RainStormEvent.java:81-90 | in the last minute of the last hour no drawn strike fits |
| RainStorm.StartCalls | source/core/src/main/com/csse3200/game/areas/weather/RainStormEvent.java:36-48 | starting waters at the dry rate, then douses flames, starts the acid-rain particles and sets the severity's brightness |
| RainStorm.StopCalls | source/core/src/main/com/csse3200/game/areas/weather/RainStormEvent.java:59-71 | stopping ends the watering, then relights flames, stops the acid-rain particles and restores brightness 1.0 |
| RainStorm.RainStormEvent.constructor | source/core/src/main/com/csse3200/game/areas/weather/RainStormEvent.java:30-33 | a new storm is a rain-storm weather event with the given timers, priority and severity, and nothing scheduled |
| RainStorm.RainStormEvent.ScheduleNextLightningStrike | source/core/src/main/com/csse3200/game/areas/weather/RainStormEvent.java:81-90 | a strike is queued with the drawn delay, and becomes the storm's next strike, iff it fits before the storm ends; otherwise nothing is queued |
| RainStorm.RainStormEvent.StartEffect | source/core/src/main/com/csse3200/game/areas/weather/RainStormEvent.java:36-56 | starting makes the start calls and then schedules a strike as above |
| RainStorm.RainStormEvent.StopEffect | source/core/src/main/com/csse3200/game/areas/weather/RainStormEvent.java:59-79 | stopping makes the stop calls and removes the storm's next strike from the queue |
| RainStorm.RainStormEvent.TriggerStrike | source/core/src/main/com/csse3200/game/areas/weather/RainStormEvent.java:92-106 | a firing strike leaves the queue, makes animals panic, plays a flash of the drawn length, then schedules the next strike as above |
| RainStorm.RainStormEvent.UpdateTime | source/core/src/test/com/csse3200/game/areas/weather/ClimateControllerTest.java:238-255 | an hour passes for the storm as for every weather event (`WeatherEvents.UpdateTime`), never lengthening it, keeping its severity and leaving its strikes alone |
| RainStorm.StartThenStop | source/core/src/main/com/csse3200/game/areas/weather/RainStormEvent.java:36-79 | a storm started and stopped with no strike in between leaves no strike pending |
| JavaInt.Wrap | source/core/src/main/com/csse3200/game/components/plants/PlantComponent.java:277 | Java `int` arithmetic: a result in range is itself, and one less than 2^32 past either end is moved back by 2^32 |
| JavaInt.TruncToInt | source/core/src/main/com/csse3200/game/components/plants/PlantComponent.java:446 | the `(int)` cast truncates toward zero and saturates at the `int` bounds |
| Plants.GrowthStage.Value | source/core/src/main/com/csse3200/game/components/plants/PlantComponent.java:52-69 | every stage's number lies in 1..6 |
| Plants.StageOfValue | source/core/src/main/com/csse3200/game/components/plants/PlantComponent.java:343-349 | a stage exists for a number iff it is in 1..6, and it has that number |
| Plants.StageValueRoundTrip | source/core/src/main/com/csse3200/game/components/plants/PlantComponent.java:343-349 | every stage is found again from its number |
| Plants.PlaySound | source/core/src/main/com/csse3200/game/components/plants/PlantComponent.java:572-579 | a sound request succeeds iff it is one of the four defined ones and the sound list has its pair; any other request throws |
| Plants.HarvestSoundUndefined | source/core/src/main/com/csse3200/game/components/plants/PlantComponent.java:572-579 | the harvest sound request throws whatever sounds the plant has |
| Plants.MaxHealthAtStages | source/core/src/main/com/csse3200/game/components/plants/PlantComponent.java:162-165 | the three stage caps are ordered and lie between 0 and the full maximum health |
| Plants.StageCap | source/core/src/main/com/csse3200/game/components/plants/PlantComponent.java:527-535 | a cap exists iff the stage is at most adult; it is the full maximum for an adult and the stage's own cap below |
| Plants.GrowLevel | source/core/src/main/com/csse3200/game/components/plants/PlantComponent.java:438-448 | a growing plant loses exactly 10 health on a negative rate and otherwise gains the truncated tenfold rate as growth level; an adult or decaying plant is unchanged |
| Plants.DecayDay | source/core/src/main/com/csse3200/game/components/plants/PlantComponent.java:541-551 | only an adult changes: it counts one more day, decays iff the count passes the lifespan, and then fails only if the decay sound does |
| Plants.Advance | source/core/src/main/com/csse3200/game/components/plants/PlantComponent.java:510-515 | the level, health and adult days are kept; the stage moves up by exactly one, with the new stage's cap, iff a stage below adult reaches its threshold; an adult fails with the index error iff the check is unguarded, leaving the plant as it was |
| Plants.HourUpdate | source/core/src/main/com/csse3200/game/components/plants/PlantComponent.java:506-521 | outside hour 12 nothing changes; at noon the stage rises at most two steps, and the only failures are the adult index error, which only the unguarded check raises, and the decay sound |
| Plants.NotNoonNoChange | source/core/src/main/com/csse3200/game/components/plants/PlantComponent.java:506-508 | outside hour 12 the hourly update changes nothing |
| Plants.NoonAdvanceRule | source/core/src/main/com/csse3200/game/components/plants/PlantComponent.java:508-519 | at noon a plant below adult moves up exactly one stage, with that stage's cap, iff its updated level reaches its stage's threshold; one that becomes adult also lives its first adult day |
| Plants.StageNeverRegresses | source/core/src/main/com/csse3200/game/components/plants/PlantComponent.java:506-551 | neither the hourly update nor the daily decay moves a plant to an earlier stage |
| Plants.AdultNoonOutOfBounds | source/core/src/main/com/csse3200/game/components/plants/PlantComponent.java:510-511 | as written, the noon update of an adult plant reads a fourth threshold and throws, leaving the plant unchanged |
| Plants.GuardedNoonInBounds | source/core/src/main/com/csse3200/game/components/plants/PlantComponent.java:506-521 | with the check stopped below adult, the update fails only through the decay sound, and an adult's noon is one adult day |
| Plants.DecayAfterLifespan | source/core/src/main/com/csse3200/game/components/plants/PlantComponent.java:541-551 | a new adult stays adult for exactly its lifespan in days and decays on the next one |
| Plants.PlantComponent.Default | source/core/src/main/com/csse3200/game/components/plants/PlantComponent.java:141-174 | a new plant is a seedling at level 0 with 0 adult days, full maximum health as its cap, thresholds 11, 21, 41 and the 5%, 10%, 30% caps |
| Plants.PlantComponent.WithThresholds | source/core/src/main/com/csse3200/game/components/plants/PlantComponent.java:192-227 | as the default constructor, but with the first three given thresholds and the given sound list |
| Plants.PlantComponent.SetPlantHealth | source/core/src/main/com/csse3200/game/components/plants/PlantComponent.java:258-260 | the health is replaced and nothing else changes: the rest of the growth state, the traits and the harvest fields (yields, dropped items, removal) are kept |
| Plants.PlantComponent.SetAdultLifeSpan | source/core/src/main/com/csse3200/game/components/plants/PlantComponent.java:364-366 | the lifespan is replaced and nothing else changes: the rest of the growth state, the traits and the harvest fields (yields, dropped items, removal) are kept |
| Plants.PlantComponent.SetNumOfDaysAsAdult | source/core/src/main/com/csse3200/game/components/plants/PlantComponent.java:405-407 | the adult-day count is replaced and nothing else changes: the rest of the growth state, the traits and the harvest fields (yields, dropped items, removal) are kept |
| Plants.PlantComponent.IncreasePlantHealth | source/core/src/main/com/csse3200/game/components/plants/PlantComponent.java:276-278 | the increment is added to the health with Java `int` wrap-around; the traits and the harvest fields (yields, dropped items, removal) are unchanged |
| Plants.PlantComponent.Attack | source/core/src/main/com/csse3200/game/components/plants/PlantComponent.java:493-496 | an attack takes 10 health; the traits and the harvest fields (yields, dropped items, removal) are unchanged |
| Plants.PlantComponent.IsDecay | source/core/src/main/com/csse3200/game/components/plants/PlantComponent.java:318-320 | true iff the plant is decaying |
| Plants.PlantComponent.IsDead | source/core/src/main/com/csse3200/game/components/plants/PlantComponent.java:455-457 | true iff the plant is dead |
| Plants.PlantComponent.SetDecay | source/core/src/main/com/csse3200/game/components/plants/PlantComponent.java:310-312 | the plant becomes decaying and nothing else changes: the rest of the growth state, the traits and the harvest fields (yields, dropped items, removal) are kept |
| Plants.PlantComponent.SetGrowthStage | source/core/src/main/com/csse3200/game/components/plants/PlantComponent.java:343-349 | numbers 1..6 set that stage; any other number throws and leaves the stage unchanged; the traits and the harvest fields (yields, dropped items, removal) are unchanged |
| Plants.PlantComponent.SetHarvestYields | source/core/src/main/com/csse3200/game/components/plants/PlantComponent.java:425-427 | the yields are replaced and the growth state is untouched |
| Plants.PlantComponent.IncreaseCurrentGrowthLevel | source/core/src/main/com/csse3200/game/components/plants/PlantComponent.java:438-448 | the plant takes the state `GrowLevel` gives; the traits and the harvest fields (yields, dropped items, removal) are unchanged |
| Plants.PlantComponent.UpdateMaxHealth | source/core/src/main/com/csse3200/game/components/plants/PlantComponent.java:527-535 | the cap becomes the stage's cap; a decaying or dead plant throws and is unchanged; the traits and the harvest fields (yields, dropped items, removal) are unchanged |
| Plants.PlantComponent.BeginDecay | source/core/src/main/com/csse3200/game/components/plants/PlantComponent.java:541-551 | the plant and the outcome are those `DecayDay` gives; the traits and the harvest fields (yields, dropped items, removal) are unchanged |
| Plants.PlantComponent.UpdateGrowthStage | source/core/src/main/com/csse3200/game/components/plants/PlantComponent.java:506-521 | the plant and the outcome are those the as-written `HourUpdate` gives; the traits and the harvest fields (yields, dropped items, removal) are unchanged |
| Plants.PlantComponent.UpdateGrowthStageGuarded | source/core/src/main/com/csse3200/game/components/plants/PlantComponent.java:506-521 | the plant and the outcome are those the guarded `HourUpdate` gives; the traits and the harvest fields (yields, dropped items, removal) are unchanged |
| Plants.PlantComponent.Harvest | source/core/src/main/com/csse3200/game/components/plants/PlantComponent.java:464-480 | a plant that is not adult is left alone; an adult one throws on the harvest sound before dropping anything; either way the growth state, the traits and the harvest fields are unchanged |
| Plants.PlantComponent.HarvestWithoutSound | source/core/src/main/com/csse3200/game/components/plants/PlantComponent.java:464-480 | a plant that is not adult is left alone; an adult one drops exactly its yields and is destroyed, or throws if no yields were set; the growth state, the traits and the yields are unchanged |
| Combat.Clamp | source/core/src/main/com/csse3200/game/components/combat/CombatStatsComponent.java:66-73 | the health lies in [0, 100], equals the value when it is in range, and is the nearer bound otherwise |
| Combat.ClampIdempotent | source/core/src/main/com/csse3200/game/components/combat/CombatStatsComponent.java:66-73 | setting a health that is already clamped keeps it |
| Combat.ClampMonotone | source/core/src/main/com/csse3200/game/components/combat/CombatStatsComponent.java:66-73 | more health in never gives less health out |
| Combat.HitHealth | source/core/src/main/com/csse3200/game/components/combat/CombatStatsComponent.java:124-125 | a hit leaves health in [0, 100], never raises it, and takes exactly the attack when the result is in range |
| Combat.HitNeverOverflows | source/core/src/main/com/csse3200/game/components/combat/CombatStatsComponent.java:124 | subtracting a base attack from a health in range never wraps around |
| Combat.AddedHealth | source/core/src/main/com/csse3200/game/components/combat/CombatStatsComponent.java:88-90 | as written: the heal lies in [0, 100], and is the clamped sum whenever the sum fits in an `int` |
| Combat.AddedHealthSaturating | source/core/src/main/com/csse3200/game/components/combat/CombatStatsComponent.java:88-90 | corrected: the heal lies in [0, 100], a positive amount never lowers the health and a negative one never raises it |
| Combat.HealOverflowKills | source/core/src/main/com/csse3200/game/components/combat/CombatStatsComponent.java:88-90 | a heal of 2147483647 at health 50 gives 0 as written and 100 when corrected |
| Combat.HealsAgreeWithoutOverflow | source/core/src/main/com/csse3200/game/components/combat/CombatStatsComponent.java:88-90 | both heals agree whenever the sum fits in an `int` |
| Combat.CombatStatsComponent.HealthSignals | source/core/src/main/com/csse3200/game/components/combat/CombatStatsComponent.java:74-80 | with no entity nothing is sent; otherwise the new health is sent first and is followed, iff the health is 0, by exactly one defeat signal naming the entity; nothing more is sent |
| Combat.CombatStatsComponent.constructor | source/core/src/main/com/csse3200/game/components/combat/CombatStatsComponent.java:28-31 | the health is clamped; a negative base attack is refused and leaves 0 |
| Combat.CombatStatsComponent.IsDead | source/core/src/main/com/csse3200/game/components/combat/CombatStatsComponent.java:48-50 | true iff the health is at most 0, which after clamping means exactly 0 |
| Combat.CombatStatsComponent.SetHealth | source/core/src/main/com/csse3200/game/components/combat/CombatStatsComponent.java:66-81 | the health becomes the clamped value and the entity, if any, is told |
| Combat.CombatStatsComponent.AddHealth | source/core/src/main/com/csse3200/game/components/combat/CombatStatsComponent.java:88-90 | the health becomes `AddedHealth` of the old health, kept in [0, 100] |
| Combat.CombatStatsComponent.AddHealthSaturating | source/core/src/main/com/csse3200/game/components/combat/CombatStatsComponent.java:88-90 | the health becomes `AddedHealthSaturating` of the old health |
| Combat.CombatStatsComponent.SetBaseAttack | source/core/src/main/com/csse3200/game/components/combat/CombatStatsComponent.java:106-112 | a non-negative attack is set and a negative one changes nothing |
| Combat.CombatStatsComponent.Hit | source/core/src/main/com/csse3200/game/components/combat/CombatStatsComponent.java:114-127 | in god mode nothing changes; otherwise a hurt player hears the damage sound and health becomes `HitHealth`; with no entity the hit throws |
| Combat.CombatStatsComponent.HitFromEntity | source/core/src/main/com/csse3200/game/components/combat/CombatStatsComponent.java:135-140 | an attacker without combat statistics changes nothing; otherwise god mode changes nothing, a component without an entity fails with NoEntity, and a hit lowers the health to `HitHealth` of the attacker's base attack with the damage sound for the player and the health signals |
| Combat.CombatStatsComponent.Write | source/core/src/main/com/csse3200/game/components/combat/CombatStatsComponent.java:185-189 | the health is saved under the class name |
| Combat.CombatStatsComponent.Read | source/core/src/main/com/csse3200/game/components/combat/CombatStatsComponent.java:192-196 | the loaded health is clamped like any other |
| Combat.SaveRestore | source/core/src/main/com/csse3200/game/components/combat/CombatStatsComponent.java:185-196 | writing the health and reading it back leaves it as it was |
| Quests.Countdown | source/core/src/main/com/csse3200/game/missions/quests/AutoQuest.java:70-75 | after an update the countdown is never negative: one less while above 1, and otherwise 0 except that the least `int` wraps to the greatest |
| Quests.Tick | source/core/src/main/com/csse3200/game/missions/quests/AutoQuest.java:70-75 | an update moves the countdown on and asks for the reward exactly when the decremented countdown is not positive |
| Quests.RewardSchedule | source/core/src/main/com/csse3200/game/missions/quests/AutoQuest.java:70-75 | from a countdown m >= 1, after k updates the countdown is max(m-k, 0) and the reward has been asked for max(k-m+1, 0) times, once on every update from the m-th on |
| Quests.CompletesAfterDelay | source/core/src/main/com/csse3200/game/missions/quests/AutoQuest.java:50-85 | a fresh quest with delay d >= 1 is completed, and has asked for its reward, after exactly d updates and not before |
| Quests.AutoQuest.constructor | source/core/src/main/com/csse3200/game/missions/quests/AutoQuest.java:50-56 | a new quest's countdown is its delay |
| Quests.AutoQuest.WithDefaultDelay | source/core/src/main/com/csse3200/game/missions/quests/AutoQuest.java:38-40 | the quest without a delay gets delay 1 |
| Quests.AutoQuest.UpdateState | source/core/src/main/com/csse3200/game/missions/quests/AutoQuest.java:70-75 | a minute update takes the quest to the progress `Tick` gives |
| Quests.AutoQuest.IsCompleted | source/core/src/main/com/csse3200/game/missions/quests/AutoQuest.java:83-85 | true iff the countdown is at most 0 |
| Quests.AutoQuest.GetDescription | source/core/src/main/com/csse3200/game/missions/quests/AutoQuest.java:92-95 | the description is the one given at construction |
| Quests.AutoQuest.GetShortDescription | source/core/src/main/com/csse3200/game/missions/quests/AutoQuest.java:102-105 | the short description is the one given at construction |
| Quests.AutoQuest.GetProgress | source/core/src/main/com/csse3200/game/missions/quests/AutoQuest.java:124-126 | the saved progress is the countdown |
| Quests.AutoQuest.ReadProgress | source/core/src/main/com/csse3200/game/missions/quests/AutoQuest.java:114-116 | the countdown is replaced and nothing else changes |
| Quests.AutoQuest.ResetState | source/core/src/main/com/csse3200/game/missions/quests/AutoQuest.java:132-134 | the countdown goes back to the full delay |
| Quests.ProgressRoundTrip | source/core/src/main/com/csse3200/game/missions/quests/AutoQuest.java:114-126 | reading back the quest's own saved progress leaves it as it was |
| Quests.RunToCompletion | source/core/src/main/com/csse3200/game/missions/quests/AutoQuest.java:50-75 | a fresh quest with delay d >= 1, updated d times, is at 0 and has asked for its reward exactly once |

## Left out

- The event base class, the three event kinds other than the rain storm, and the game's event handler are not part of this model. Weather events are values with the lifecycle described above. Effect calls, signals and the strike queue are traces and a ghost map.
- Random draws (`MathUtils.random`) are parameters. A float draw in [0, 1) is scaled as `min + u * (max - min)`.
- Java's `float` and `double` are modelled as exact reals. Rounding, NaN and infinities are not modelled. The one exception is a 0/0 lighting ratio, which gives no gradient parameter.
- Sound, particle, light-service, texture and entity-service calls are not modelled. Only the calls the core orders are modelled, as trace entries. JSON reading and writing is modelled as records, and `ServiceLocator` lookups as parameters.
- `ClimateController.read` only looks up the game area's controller and calls `setValues`. `getEvents` and the listener registration in `initialiseEvents` are plumbing.
- Weather-event timers (countdown, duration, priority) are unbounded integers, while the plant, combat and quest modules model Java `int` wrap-around. The load correction adds one hour without wrapping at 2147483647.
- WithThresholds: requires at least three thresholds, as the constructor's documentation asks. The Java constructor copies the first three entries and throws on a null or shorter array; that throw is not modelled.
- Climate.ClimateController.UpdateClimate: the controller's own event queue, which `updateClimate` also runs, is not modelled.
- `ClimateController.setCurrentWeatherEvent` is not modelled. It lets a caller make any event current, or none, which breaks the arbitration invariant the rest of the model keeps.
- A rain storm registers its strike handler on the controller's shared event handler. With two storms alive, one storm's strike fires the handler of both. The model gives each storm its own strike and does not capture this sharing.
- `RainStormEvent.getLightningColourOffset` is a sine curve over floats. The model keeps only which storm's severity the gradient belongs to.
- The storm's sound handles are not modelled, and neither are the sound exceptions it logs and swallows.
- `PlantComponent.increaseGrowthStage` is not modelled. It adds to the `value` field of the shared enum constant, which would change every plant's stage numbering at once.
- The plant's getters, names, description, ideal water level, texture updates, `destroyPlant` and `chooseSound` are not modelled. Neither is spawning each harvested item. Harvest is modelled as the yields map being dropped and the plant being destroyed.
- The plant's growth rate is a parameter. The crop tile that computes it is not part of this model.
- `CombatStatsComponent.earlyUpdate`, `handleDeath`, `lose` and `create` are not modelled: they play death sounds, sleep, trigger death events and remove entities. The base attack and health getters are plain field reads.
- The quest base class and its reward are not part of this model. Each `collectReward` call is counted in `collections`. Whether the base class pays out more than once is not modelled.

## Findings

| source | as written | input that shows it | evidently intended | confidence | as-written member | corrected member |
|---|---|---|---|---|---|---|
| source/core/src/main/com/csse3200/game/components/plants/PlantComponent.java:510-511 | at noon every stage up to adult looks up `growthStageThresholds[stage - 1]`, so an adult plant reads index 3 of a 3-entry array and throws | any adult plant at hour 12 | the threshold check applies only below the adult stage, and an adult plant goes on to count its adult day | not executed | Plants.AdultNoonOutOfBounds | Plants.GuardedNoonInBounds |
| source/core/src/main/com/csse3200/game/components/plants/PlantComponent.java:464-480 | harvesting an adult plant first requests the "harvest" sound, which `playSound` does not define, so it throws before any item is dropped | harvest of any adult plant | an adult plant drops its yields and is removed | not executed | Plants.PlantComponent.Harvest | Plants.PlantComponent.HarvestWithoutSound |
| source/core/src/main/com/csse3200/game/components/combat/CombatStatsComponent.java:88-90 | `addHealth` adds in Java `int`, so a large heal wraps to a negative sum and clamps to 0 | health 50, `addHealth(2147483647)` gives health 0 | a heal never lowers health: health 100 | not executed | Combat.HealOverflowKills | Combat.AddedHealthSaturating |
