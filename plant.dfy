/**
 * A crop plant's growth state machine: six stages, a growth level compared
 * with three thresholds at noon, a health cap per stage, a count of days as
 * an adult that ends in decay, and harvesting. The crop tile's growth rate
 * is a parameter, Java `int` fields wrap on overflow, and textures, item
 * spawning and the sound assets themselves are not modelled; only whether
 * a sound request succeeds is.
 */
module Plants {
  import opened Wrappers
  import opened JavaInt

  /** The six growth stages, numbered 1 to 6. */
  datatype GrowthStage = Seedling | Sprout | Juvenile | Adult | Decaying | Dead
  {
    /** The stage's number. */
    function Value(): (v: int)
      ensures 1 <= v <= 6
    {
      match this
      case Seedling => 1
      case Sprout => 2
      case Juvenile => 3
      case Adult => 4
      case Decaying => 5
      case Dead => 6
    }
  }

  /** The stage with number `n`, if there is one. */
  function StageOfValue(n: int): (r: Option<GrowthStage>)
    ensures r.Some? <==> 1 <= n <= 6
    ensures r.Some? ==> r.value.Value() == n
  {
    if n == 1 then Some(Seedling)
    else if n == 2 then Some(Sprout)
    else if n == 3 then Some(Juvenile)
    else if n == 4 then Some(Adult)
    else if n == 5 then Some(Decaying)
    else if n == 6 then Some(Dead)
    else None
  }

  /** Stage numbers are distinct, so a stage is found again from its number. */
  lemma StageValueRoundTrip(s: GrowthStage)
    ensures StageOfValue(s.Value()) == Some(s)
  {
  }

  /** Why a plant operation can throw. */
  datatype PlantError =
    | InvalidGrowthStage                // no stage has the requested number
    | ThresholdIndexOutOfBounds         // a stage past the thresholds array was looked up
    | UnexpectedStage(stage: GrowthStage) // no health cap exists for the stage
    | UnexpectedSound(name: string)     // no sound is defined for the request
    | SoundsMissing                     // the plant was built without a sound list
    | SoundIndexOutOfBounds             // the sound list is too short for the request
    | YieldsMissing                     // no harvest yields were ever set

  /** The growth thresholds a plant gets when none are given. */
  const DefaultThresholds: seq<Int32> := [11, 21, 41]

  /** The damage one attack does. */
  const AttackDamage: int := 10

  /** The position in the sound list of the pair of sounds for a request. */
  function SoundSlot(name: string): Option<nat>
  {
    if name == "click" then Some(0)
    else if name == "decays" then Some(2)
    else if name == "destroy" then Some(4)
    else if name == "nearby" then Some(6)
    else None
  }

  /**
   * Whether a sound request succeeds: only four requests are defined, each
   * reading a pair of entries of the plant's sound list.
   */
  function PlaySound(name: string, sounds: Option<seq<string>>): (r: Outcome<PlantError>)
    ensures SoundSlot(name).None? ==> r == Fail(UnexpectedSound(name))
    ensures r.Pass? <==> SoundSlot(name).Some? && sounds.Some? && SoundSlot(name).value + 1 < |sounds.value|
  {
    var slot := SoundSlot(name);
    if slot.None? then Fail(UnexpectedSound(name))
    else if sounds.None? then Fail(SoundsMissing)
    else if |sounds.value| <= slot.value + 1 then Fail(SoundIndexOutOfBounds)
    else Pass
  }

  /** A harvest sound is never defined, whatever sounds the plant has. */
  lemma HarvestSoundUndefined(sounds: Option<seq<string>>)
    ensures PlaySound("harvest", sounds) == Fail(UnexpectedSound("harvest"))
  {
  }

  /** The per-stage health caps: 5%, 10% and 30% of the full maximum health. */
  function MaxHealthAtStages(maxHealth: int): (r: seq<real>)
    ensures |r| == 3
    ensures maxHealth >= 0 ==> 0.0 <= r[0] <= r[1] <= r[2] <= maxHealth as real
  {
    [0.05 * maxHealth as real, 0.1 * maxHealth as real, 0.3 * maxHealth as real]
  }

  /** The health cap for a stage; none for decaying and dead plants. */
  function StageCap(stage: GrowthStage, maxHealth: int, atStages: seq<real>): (r: Option<real>)
    requires |atStages| == 3
    ensures r.Some? <==> stage.Value() <= Adult.Value()
    ensures stage == Adult ==> r == Some(maxHealth as real)
    ensures stage.Value() < Adult.Value() ==> r == Some(atStages[stage.Value() - 1])
  {
    match stage
    case Seedling => Some(atStages[0])
    case Sprout => Some(atStages[1])
    case Juvenile => Some(atStages[2])
    case Adult => Some(maxHealth as real)
    case _ => None
  }

  /** The part of a plant that changes as it grows. */
  datatype Growth = Growth(
    stage: GrowthStage,
    level: Int32,
    daysAsAdult: Int32,
    health: Int32,
    currentMaxHealth: real)

  /** The part of a plant that its growth reads: fixed at construction, except the lifespan. */
  datatype PlantTraits = PlantTraits(
    maxHealth: Int32,
    adultLifeSpan: Int32,
    thresholds: seq<Int32>,
    atStages: seq<real>,
    sounds: Option<seq<string>>)

  /** A plant's state after an operation, and whether the operation threw. */
  datatype Step = Step(after: Growth, outcome: Outcome<PlantError>)

  /** The plant neither decays nor has reached adulthood, so it still grows. */
  predicate Growing(g: Growth)
  {
    g.stage != Decaying && g.stage.Value() < Adult.Value()
  }

  /**
   * The daily growth at the crop tile's growth `rate`: a growing plant loses
   * 10 health when the rate is negative and otherwise gains the truncated
   * tenfold rate as growth level; any other plant is unchanged.
   */
  function GrowLevel(g: Growth, rate: real): (r: Growth)
    ensures r.stage == g.stage && r.daysAsAdult == g.daysAsAdult && r.currentMaxHealth == g.currentMaxHealth
    ensures !Growing(g) ==> r == g
    ensures Growing(g) && rate < 0.0 ==> r == g.(health := Wrap(g.health - AttackDamage))
    ensures Growing(g) && rate >= 0.0 ==> r == g.(level := Wrap(g.level + TruncToInt(rate * 10.0)))
  {
    if rate < 0.0 && Growing(g) then g.(health := Wrap(g.health - AttackDamage))
    else if Growing(g) then g.(level := Wrap(g.level + TruncToInt(rate * 10.0)))
    else g
  }

  /**
   * One day of an adult plant's life: the day is counted, and once the count
   * passes the lifespan the plant decays and asks for its decay sound. Any
   * other plant is unchanged.
   */
  function DecayDay(g: Growth, t: PlantTraits): (r: Step)
    ensures g.stage != Adult ==> r == Step(g, Pass)
    ensures g.stage == Adult ==> r.after.daysAsAdult == Wrap(g.daysAsAdult + 1)
    ensures g.stage == Adult ==> (r.after.stage == Decaying <==> Wrap(g.daysAsAdult + 1) > t.adultLifeSpan)
    ensures g.stage == Adult ==> (r.after.stage == Adult <==> Wrap(g.daysAsAdult + 1) <= t.adultLifeSpan)
    ensures r.outcome.Fail? ==> r.after.stage == Decaying && r.outcome == PlaySound("decays", t.sounds)
    ensures r.after.level == g.level && r.after.health == g.health && r.after.currentMaxHealth == g.currentMaxHealth
  {
    if g.stage != Adult then Step(g, Pass)
    else
      var days := Wrap(g.daysAsAdult + 1);
      if days > t.adultLifeSpan then Step(g.(daysAsAdult := days, stage := Decaying), PlaySound("decays", t.sounds))
      else Step(g.(daysAsAdult := days), Pass)
  }

  /**
   * The stage change at noon once the growth level is updated, for a plant
   * whose stage is below the adult one: it moves up one stage, and takes the
   * new stage's health cap, when its level has reached the threshold for its
   * stage. The threshold array is indexed by stage, so `guarded` chooses
   * between the check as written (`false`: every stage up to the adult one
   * is looked up) and the check that stops below the adult stage (`true`).
   */
  function Advance(g: Growth, t: PlantTraits, guarded: bool): (r: Step)
    requires |t.atStages| == 3 && |t.thresholds| == 3
    ensures r.after.level == g.level && r.after.health == g.health && r.after.daysAsAdult == g.daysAsAdult
    ensures r.outcome.Fail? <==> !guarded && g.stage == Adult
    ensures r.outcome.Fail? ==> r == Step(g, Fail(ThresholdIndexOutOfBounds))
    ensures g.stage.Value() < Adult.Value() ==>
              (r.after.stage != g.stage <==> g.level >= t.thresholds[g.stage.Value() - 1])
    ensures r.after.stage != g.stage ==>
              && r.after.stage.Value() == g.stage.Value() + 1
              && StageCap(r.after.stage, t.maxHealth, t.atStages) == Some(r.after.currentMaxHealth)
    ensures r.after.stage == g.stage ==> r.after == g
  {
    var v := g.stage.Value();
    if (if guarded then v < Adult.Value() else v <= Adult.Value()) then
      if v - 1 >= |t.thresholds| then Step(g, Fail(ThresholdIndexOutOfBounds))
      else if g.level >= t.thresholds[v - 1] then
        var next := StageOfValue(v + 1).value;
        var cap := StageCap(next, t.maxHealth, t.atStages);
        Step(g.(stage := next, currentMaxHealth := cap.value), Pass)
      else Step(g, Pass)
    else Step(g, Pass)
  }

  /**
   * The hourly update: nothing happens except at hour 12, when the plant
   * grows, may move up a stage, and (being adult then) lives one more day.
   */
  function HourUpdate(g: Growth, t: PlantTraits, hour: int, rate: real, guarded: bool): (r: Step)
    requires |t.atStages| == 3 && |t.thresholds| == 3
    ensures hour != 12 ==> r == Step(g, Pass)
    ensures r.after.stage.Value() <= g.stage.Value() + 2
    ensures r.outcome.Fail? ==> r.outcome == Fail(ThresholdIndexOutOfBounds) || r.outcome == PlaySound("decays", t.sounds)
    ensures r.outcome == Fail(ThresholdIndexOutOfBounds) ==> !guarded && g.stage == Adult && r.after == GrowLevel(g, rate)
  {
    if hour != 12 then Step(g, Pass)
    else
      var advanced := Advance(GrowLevel(g, rate), t, guarded);
      if advanced.outcome.Fail? then advanced
      else if advanced.after.stage == Adult then DecayDay(advanced.after, t)
      else advanced
  }

  /** Outside noon the hourly update changes nothing. */
  lemma NotNoonNoChange(g: Growth, t: PlantTraits, hour: int, rate: real, guarded: bool)
    requires |t.atStages| == 3 && |t.thresholds| == 3 && hour != 12
    ensures HourUpdate(g, t, hour, rate, guarded) == Step(g, Pass)
  {
  }

  /**
   * At noon a plant below the adult stage moves up exactly one stage, with
   * that stage's health cap, if and only if its updated growth level has
   * reached the threshold for its stage; a plant that thereby becomes adult
   * also lives its first adult day.
   */
  lemma NoonAdvanceRule(g: Growth, t: PlantTraits, rate: real, guarded: bool)
    requires |t.atStages| == 3 && |t.thresholds| == 3
    requires g.stage.Value() < Adult.Value()
    ensures var g1 := GrowLevel(g, rate);
            var r := HourUpdate(g, t, 12, rate, guarded);
            && r.after.level == g1.level && r.after.health == g1.health
            && (g1.level < t.thresholds[g.stage.Value() - 1] ==> r == Step(g1, Pass))
            && (g1.level >= t.thresholds[g.stage.Value() - 1] && g.stage != Juvenile ==>
                  && r.outcome == Pass
                  && r.after.stage.Value() == g.stage.Value() + 1
                  && r.after.currentMaxHealth == t.atStages[g.stage.Value()])
            && (g1.level >= t.thresholds[g.stage.Value() - 1] && g.stage == Juvenile ==>
                  && r.after.currentMaxHealth == t.maxHealth as real
                  && r == DecayDay(g1.(stage := Adult, currentMaxHealth := t.maxHealth as real), t))
  {
  }

  /** An update never moves a plant back to an earlier stage. */
  lemma StageNeverRegresses(g: Growth, t: PlantTraits, hour: int, rate: real, guarded: bool)
    requires |t.atStages| == 3 && |t.thresholds| == 3
    ensures HourUpdate(g, t, hour, rate, guarded).after.stage.Value() >= g.stage.Value()
    ensures DecayDay(g, t).after.stage.Value() >= g.stage.Value()
  {
  }

  /**
   * As written, the noon update of an adult plant looks up a fourth growth
   * threshold that the three-entry array does not have: it throws without
   * changing the plant, so an adult never lives a day through the noon update.
   */
  lemma AdultNoonOutOfBounds(g: Growth, t: PlantTraits, rate: real)
    requires |t.atStages| == 3 && |t.thresholds| == 3
    requires g.stage == Adult
    ensures HourUpdate(g, t, 12, rate, false) == Step(g, Fail(ThresholdIndexOutOfBounds))
  {
  }

  /**
   * With the threshold check stopped below the adult stage, the noon update
   * never looks past the thresholds, fails only when a sound request fails,
   * and lives one adult day for an adult plant.
   */
  lemma GuardedNoonInBounds(g: Growth, t: PlantTraits, hour: int, rate: real)
    requires |t.atStages| == 3 && |t.thresholds| == 3
    ensures var r := HourUpdate(g, t, hour, rate, true);
            r.outcome.Fail? ==> r.outcome == PlaySound("decays", t.sounds)
    ensures g.stage == Adult && hour == 12 ==> HourUpdate(g, t, hour, rate, true) == DecayDay(g, t)
  {
  }

  /** The plant after `k` days of the daily update. */
  function DecayDays(g: Growth, t: PlantTraits, k: nat): Growth
  {
    if k == 0 then g else DecayDay(DecayDays(g, t, k - 1), t).after
  }

  /**
   * A plant that has just become adult stays adult for exactly its lifespan
   * in days and is decaying on the next day.
   */
  lemma {:induction false} DecayAfterLifespan(g: Growth, t: PlantTraits, k: nat)
    requires g.stage == Adult && g.daysAsAdult == 0
    requires 0 <= t.adultLifeSpan < MaxInt && k <= t.adultLifeSpan + 1
    ensures DecayDays(g, t, k).daysAsAdult == k
    ensures DecayDays(g, t, k).stage == if k > t.adultLifeSpan then Decaying else Adult
  {
    if k > 0 {
      DecayAfterLifespan(g, t, k - 1);
    }
  }

  class PlantComponent {
    var plantHealth: Int32
    const maxHealth: Int32
    var adultLifeSpan: Int32
    var growthStage: GrowthStage
    var currentGrowthLevel: Int32
    var numOfDaysAsAdult: Int32
    var currentMaxHealth: real
    /** Growth levels needed to leave the seedling, sprout and juvenile stages. */
    const growthStageThresholds: seq<Int32>
    /** Health caps for the seedling, sprout and juvenile stages. */
    const maxHealthAtStages: seq<real>
    /** The sound list; None when the plant was built without one. */
    const sounds: Option<seq<string>>
    /** Items and quantities a harvest drops; None until set. */
    var harvestYields: Option<map<string, int>>
    /** Items dropped by harvesting, if the plant has been harvested. */
    var dropped: Option<map<string, int>>
    /** The plant has been removed from its crop tile. */
    var destroyed: bool

    /** The growing part of the plant as a value. */
    ghost function State(): Growth
      reads this
    {
      Growth(growthStage, currentGrowthLevel, numOfDaysAsAdult, plantHealth, currentMaxHealth)
    }

    /** What the plant's growth reads. */
    ghost function Traits(): PlantTraits
      reads this
    {
      PlantTraits(maxHealth, adultLifeSpan, growthStageThresholds, maxHealthAtStages, sounds)
    }

    /** The harvest part of the plant: the yields, the items dropped, and whether it was removed. */
    ghost function Harvesting(): (Option<map<string, int>>, Option<map<string, int>>, bool)
      reads this
    {
      (harvestYields, dropped, destroyed)
    }

    /** The threshold and cap arrays have their three entries. */
    ghost predicate Valid()
      reads this
    {
      |growthStageThresholds| == 3 && |maxHealthAtStages| == 3
    }

    /** A seedling with the default thresholds and no sound list. */
    constructor Default(health: Int32, adultLifeSpan: Int32, maxHealth: Int32)
      ensures Valid()
      ensures State() == Growth(Seedling, 0, 0, health, maxHealth as real)
      ensures growthStageThresholds == DefaultThresholds
      ensures maxHealthAtStages == MaxHealthAtStages(maxHealth)
      ensures this.maxHealth == maxHealth && this.adultLifeSpan == adultLifeSpan
      ensures sounds == None && harvestYields == None && dropped == None && !destroyed
    {
      plantHealth := health;
      this.adultLifeSpan := adultLifeSpan;
      this.maxHealth := maxHealth;
      currentGrowthLevel := 0;
      growthStage := Seedling;
      numOfDaysAsAdult := 0;
      currentMaxHealth := maxHealth as real;
      growthStageThresholds := DefaultThresholds;
      maxHealthAtStages := MaxHealthAtStages(maxHealth);
      sounds := None;
      harvestYields := None;
      dropped := None;
      destroyed := false;
    }

    /** A seedling with the first three of the given thresholds and the given sound list. */
    constructor WithThresholds(health: Int32, adultLifeSpan: Int32, maxHealth: Int32,
                               thresholds: seq<Int32>, soundsArray: Option<seq<string>>)
      requires |thresholds| >= 3
      ensures Valid()
      ensures State() == Growth(Seedling, 0, 0, health, maxHealth as real)
      ensures growthStageThresholds == thresholds[..3]
      ensures maxHealthAtStages == MaxHealthAtStages(maxHealth)
      ensures this.maxHealth == maxHealth && this.adultLifeSpan == adultLifeSpan
      ensures sounds == soundsArray && harvestYields == None && dropped == None && !destroyed
    {
      plantHealth := health;
      this.adultLifeSpan := adultLifeSpan;
      this.maxHealth := maxHealth;
      currentGrowthLevel := 0;
      sounds := soundsArray;
      growthStage := Seedling;
      numOfDaysAsAdult := 0;
      currentMaxHealth := maxHealth as real;
      growthStageThresholds := [thresholds[0], thresholds[1], thresholds[2]];
      maxHealthAtStages := MaxHealthAtStages(maxHealth);
      harvestYields := None;
      dropped := None;
      destroyed := false;
    }

    /** Replaces the health. */
    method SetPlantHealth(health: Int32)
      modifies this
      ensures State() == old(State()).(health := health)
      ensures Traits() == old(Traits())
      ensures Harvesting() == old(Harvesting())
    {
      plantHealth := health;
    }

    /** Replaces the number of days the plant stays adult. */
    method SetAdultLifeSpan(lifeSpan: Int32)
      modifies this
      ensures State() == old(State())
      ensures Traits() == old(Traits()).(adultLifeSpan := lifeSpan)
      ensures Harvesting() == old(Harvesting())
    {
      adultLifeSpan := lifeSpan;
    }

    /** Replaces the count of days lived as an adult. */
    method SetNumOfDaysAsAdult(days: Int32)
      modifies this
      ensures State() == old(State()).(daysAsAdult := days)
      ensures Traits() == old(Traits())
      ensures Harvesting() == old(Harvesting())
    {
      numOfDaysAsAdult := days;
    }

    /** Adds to the health, with Java's wrap-around. */
    method IncreasePlantHealth(increment: Int32)
      modifies this
      ensures State() == old(State()).(health := Wrap(old(plantHealth) + increment))
      ensures Traits() == old(Traits())
      ensures Harvesting() == old(Harvesting())
    {
      plantHealth := Wrap(plantHealth + increment);
    }

    /** An attack costs ten health. */
    method Attack()
      modifies this
      ensures State() == old(State()).(health := Wrap(old(plantHealth) - AttackDamage))
      ensures Traits() == old(Traits())
      ensures Harvesting() == old(Harvesting())
    {
      IncreasePlantHealth(-AttackDamage);
    }

    /** The plant is decaying. */
    method IsDecay() returns (r: bool)
      ensures r <==> growthStage == Decaying
    {
      r := growthStage == Decaying;
    }

    /** The plant is dead. */
    method IsDead() returns (r: bool)
      ensures r <==> growthStage == Dead
    {
      r := growthStage == Dead;
    }

    /** Moves the plant to the decaying stage. */
    method SetDecay()
      modifies this
      ensures State() == old(State()).(stage := Decaying)
      ensures Traits() == old(Traits())
      ensures Harvesting() == old(Harvesting())
    {
      growthStage := Decaying;
    }

    /** Moves the plant to the stage numbered `n`; any other number throws. */
    method SetGrowthStage(n: int) returns (r: Outcome<PlantError>)
      modifies this
      ensures 1 <= n <= 6 ==> r == Pass && State() == old(State()).(stage := StageOfValue(n).value)
      ensures !(1 <= n <= 6) ==> r == Fail(InvalidGrowthStage) && State() == old(State())
      ensures Traits() == old(Traits())
      ensures Harvesting() == old(Harvesting())
    {
      var stage := StageOfValue(n);
      if stage.Some? {
        growthStage := stage.value;
        return Pass;
      }
      return Fail(InvalidGrowthStage);
    }

    /** Sets the items and quantities a harvest drops. */
    method SetHarvestYields(items: map<string, int>)
      modifies this
      ensures harvestYields == Some(items)
      ensures State() == old(State()) && Traits() == old(Traits())
      ensures dropped == old(dropped) && destroyed == old(destroyed)
    {
      harvestYields := Some(items);
    }

    /** The day's growth at the crop tile's growth `rate`; see `GrowLevel`. */
    method IncreaseCurrentGrowthLevel(rate: real)
      modifies this
      ensures State() == GrowLevel(old(State()), rate)
      ensures Traits() == old(Traits())
      ensures Harvesting() == old(Harvesting())
    {
      if rate < 0.0 && growthStage != Decaying && growthStage.Value() < Adult.Value() {
        IncreasePlantHealth(-AttackDamage);
      } else if growthStage != Decaying && !(growthStage.Value() >= Adult.Value()) {
        currentGrowthLevel := Wrap(currentGrowthLevel + TruncToInt(rate * 10.0));
      }
    }

    /** Takes the health cap of the current stage; decaying and dead plants have none and throw. */
    method UpdateMaxHealth() returns (r: Outcome<PlantError>)
      requires Valid()
      modifies this
      ensures var cap := StageCap(growthStage, maxHealth, maxHealthAtStages);
              if cap.Some? then r == Pass && State() == old(State()).(currentMaxHealth := cap.value)
              else r == Fail(UnexpectedStage(growthStage)) && State() == old(State())
      ensures Traits() == old(Traits())
      ensures Harvesting() == old(Harvesting())
    {
      match growthStage {
        case Seedling => currentMaxHealth := maxHealthAtStages[0];
        case Sprout => currentMaxHealth := maxHealthAtStages[1];
        case Juvenile => currentMaxHealth := maxHealthAtStages[2];
        case Adult => currentMaxHealth := maxHealth as real;
        case _ => return Fail(UnexpectedStage(growthStage));
      }
      return Pass;
    }

    /** One day of an adult plant's life; see `DecayDay`. */
    method BeginDecay() returns (r: Outcome<PlantError>)
      requires Valid()
      modifies this
      ensures Step(State(), r) == DecayDay(old(State()), old(Traits()))
      ensures Traits() == old(Traits())
      ensures Harvesting() == old(Harvesting())
    {
      r := Pass;
      if growthStage == Adult {
        numOfDaysAsAdult := Wrap(numOfDaysAsAdult + 1);
        if numOfDaysAsAdult > adultLifeSpan {
          var _ := SetGrowthStage(growthStage.Value() + 1);
          SetDecay();
          r := PlaySound("decays", sounds);
        }
      }
    }

    /**
     * The hourly update as written: at noon the threshold check runs for
     * every stage up to the adult one, so an adult plant throws.
     */
    method UpdateGrowthStage(hour: int, rate: real) returns (r: Outcome<PlantError>)
      requires Valid()
      modifies this
      ensures Step(State(), r) == HourUpdate(old(State()), old(Traits()), hour, rate, false)
      ensures Traits() == old(Traits())
      ensures Harvesting() == old(Harvesting())
    {
      r := Pass;
      if hour == 12 {
        IncreaseCurrentGrowthLevel(rate);
        if growthStage.Value() <= Adult.Value() {
          if growthStage.Value() - 1 >= |growthStageThresholds| {
            return Fail(ThresholdIndexOutOfBounds);
          }
          if currentGrowthLevel >= growthStageThresholds[growthStage.Value() - 1] {
            var _ := SetGrowthStage(growthStage.Value() + 1);
            var _ := UpdateMaxHealth();
          }
        }
        if growthStage == Adult {
          r := BeginDecay();
        }
      }
    }

    /**
     * The hourly update with the threshold check stopped below the adult
     * stage, so that an adult plant lives its day instead of throwing.
     */
    method UpdateGrowthStageGuarded(hour: int, rate: real) returns (r: Outcome<PlantError>)
      requires Valid()
      modifies this
      ensures Step(State(), r) == HourUpdate(old(State()), old(Traits()), hour, rate, true)
      ensures Traits() == old(Traits())
      ensures Harvesting() == old(Harvesting())
    {
      r := Pass;
      if hour == 12 {
        IncreaseCurrentGrowthLevel(rate);
        if growthStage.Value() < Adult.Value() {
          if currentGrowthLevel >= growthStageThresholds[growthStage.Value() - 1] {
            var _ := SetGrowthStage(growthStage.Value() + 1);
            var _ := UpdateMaxHealth();
          }
        }
        if growthStage == Adult {
          r := BeginDecay();
        }
      }
    }

    /**
     * Harvesting as written: only an adult plant can be harvested, and for
     * one the harvest sound is requested, which no sound list defines, so
     * the harvest throws before any item is dropped.
     */
    method Harvest() returns (r: Outcome<PlantError>)
      requires Valid()
      modifies this
      ensures growthStage != Adult ==> r == Pass
      ensures growthStage == Adult ==> r == Fail(UnexpectedSound("harvest"))
      ensures State() == old(State()) && Traits() == old(Traits())
      ensures Harvesting() == old(Harvesting())
    {
      if growthStage != Adult {
        return Pass;
      }
      r := PlaySound("harvest", sounds);
      if r.Fail? {
        return;
      }
      assert false;
    }

    /**
     * Harvesting without the undefined sound request: an adult plant drops
     * its yields and is removed from its tile; any other plant is left alone.
     */
    method HarvestWithoutSound() returns (r: Outcome<PlantError>)
      requires Valid()
      modifies this
      ensures old(growthStage) != Adult ==> r == Pass && dropped == old(dropped) && destroyed == old(destroyed)
      ensures old(growthStage) == Adult && harvestYields.None? ==>
                r == Fail(YieldsMissing) && dropped == old(dropped) && destroyed == old(destroyed)
      ensures old(growthStage) == Adult && harvestYields.Some? ==>
                r == Pass && dropped == harvestYields && destroyed
      ensures State() == old(State()) && Traits() == old(Traits()) && harvestYields == old(harvestYields)
    {
      if growthStage != Adult {
        return Pass;
      }
      if harvestYields.None? {
        return Fail(YieldsMissing);
      }
      dropped := harvestYields;
      destroyed := true;
      return Pass;
    }
  }
}
