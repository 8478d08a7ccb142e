/**
 * Combat statistics of an entity: health held in [0, 100], a base attack
 * that is never negative, hits that subtract the attacker's base attack,
 * and saving and loading the health. Entity signals are an abstract trace;
 * the sounds played on damage are marked in it, and death handling is not
 * modelled.
 */
module Combat {
  import opened Wrappers
  import opened JavaInt

  /** The lowest and highest health. */
  const MinHealth: int := 0
  const MaxHealth: int := 100

  /** The type of the entity the component belongs to, as far as combat cares. */
  datatype EntityType = Player | NonPlayer(name: string)

  /** A signal the component sends, or a sound it plays. */
  datatype CombatSignal =
    | UpdateHealth(health: int)            // to the entity: the new health
    | CombatActorDefeated(who: EntityType) // to the mission manager: the entity died
    | PlayerDamageSound                    // the player was hurt

  /** Why a hit can throw: the component belongs to no entity. */
  datatype CombatError = NoEntity

  /** The saved form of the component: its health under the class's name. */
  datatype HealthRecord = HealthRecord(key: string, health: Int32)

  /** The key the health is saved under. */
  const RecordKey: string := "CombatStatsComponent"

  /** A health value brought into [0, 100]. */
  function Clamp(h: int): (r: int)
    ensures MinHealth <= r <= MaxHealth
    ensures MinHealth <= h <= MaxHealth ==> r == h
    ensures h <= MinHealth ==> r == MinHealth
    ensures h >= MaxHealth ==> r == MaxHealth
  {
    if h <= 0 then 0 else if h >= 100 then 100 else h
  }

  /** Clamping twice is clamping once. */
  lemma ClampIdempotent(h: int)
    ensures Clamp(Clamp(h)) == Clamp(h)
  {
  }

  /** Clamping keeps order: more health in never means less health out. */
  lemma ClampMonotone(a: int, b: int)
    requires a <= b
    ensures Clamp(a) <= Clamp(b)
  {
  }

  /** The health after a hit by an attacker with base attack `attack`. */
  function HitHealth(health: int, attack: int): (r: int)
    ensures MinHealth <= r <= MaxHealth
    ensures attack >= 0 && MinHealth <= health <= MaxHealth ==> r <= health
    ensures MinHealth <= health - attack <= MaxHealth ==> r == health - attack
  {
    Clamp(health - attack)
  }

  /**
   * Subtracting a base attack from a health never overflows Java's `int`, so
   * the hit needs no wrap-around.
   */
  lemma HitNeverOverflows(health: int, attack: Int32)
    requires MinHealth <= health <= MaxHealth && attack >= 0
    ensures MinInt <= health - attack <= MaxInt
    ensures Wrap(health - attack) == health - attack
  {
  }

  /**
   * A heal as written: the sum of the health and the amount is a Java `int`,
   * so a large enough amount wraps around to a negative sum, which clamps to
   * zero: a heal of 2147483647 kills an entity with 50 health.
   */
  function AddedHealth(health: Int32, amount: Int32): (r: int)
    ensures MinHealth <= r <= MaxHealth
    ensures MinInt <= health + amount <= MaxInt ==> r == Clamp(health + amount)
  {
    Clamp(Wrap(health + amount))
  }

  /** A heal whose sum stays unwrapped: the health moves towards the sum and stays in [0, 100]. */
  function AddedHealthSaturating(health: Int32, amount: Int32): (r: int)
    ensures MinHealth <= r <= MaxHealth
    ensures amount >= 0 && MinHealth <= health <= MaxHealth ==> r >= health
    ensures amount <= 0 && MinHealth <= health <= MaxHealth ==> r <= health
  {
    Clamp(health + amount)
  }

  /** The heal of 2147483647 at 50 health: as written it kills; the saturating heal fills up. */
  lemma HealOverflowKills()
    ensures AddedHealth(50, MaxInt) == 0
    ensures AddedHealthSaturating(50, MaxInt) == MaxHealth
  {
  }

  /** The two heals agree whenever the sum fits in a Java `int`. */
  lemma HealsAgreeWithoutOverflow(health: Int32, amount: Int32)
    requires MinInt <= health + amount <= MaxInt
    ensures AddedHealth(health, amount) == AddedHealthSaturating(health, amount)
  {
  }

  class CombatStatsComponent {
    var health: Int32
    var baseAttack: Int32
    /** The entity the component is attached to; None before it is. */
    var entity: Option<EntityType>
    /** The signals sent and sounds played so far. */
    var signals: seq<CombatSignal>

    /** Health lies in [0, 100] and the base attack is not negative. */
    ghost predicate Valid()
      reads this
    {
      MinHealth <= health <= MaxHealth && baseAttack >= 0
    }

    /** The signals `SetHealth` sends once health is `h`. */
    static function HealthSignals(entity: Option<EntityType>, h: int): (r: seq<CombatSignal>)
      ensures entity.None? ==> r == []
      ensures entity.Some? ==> |r| >= 1 && r[0] == UpdateHealth(h)
      ensures entity.Some? ==> (h <= 0 <==> |r| == 2)
      ensures entity.Some? && h <= 0 ==> r[1] == CombatActorDefeated(entity.value)
      ensures |r| <= 2
    {
      if entity.None? then []
      else if h <= 0 then [UpdateHealth(h), CombatActorDefeated(entity.value)]
      else [UpdateHealth(h)]
    }

    /** A component with the health clamped; a negative base attack is refused and leaves 0. */
    constructor (health: Int32, baseAttack: Int32)
      ensures Valid()
      ensures this.health == Clamp(health)
      ensures this.baseAttack == if baseAttack >= 0 then baseAttack else 0
      ensures entity == None && signals == []
    {
      this.health := Clamp(health);
      this.baseAttack := if baseAttack >= 0 then baseAttack else 0;
      entity := None;
      signals := [];
    }

    /** The entity is dead. */
    method IsDead() returns (r: bool)
      requires Valid()
      ensures r <==> health <= 0
      ensures r <==> health == MinHealth
    {
      r := health <= 0;
    }

    /** Sets the health clamped into [0, 100] and tells an attached entity. */
    method SetHealth(h: Int32)
      modifies this
      ensures health == Clamp(h)
      ensures baseAttack == old(baseAttack) && entity == old(entity)
      ensures signals == old(signals) + HealthSignals(entity, health)
    {
      health := Clamp(h);
      if entity.Some? {
        signals := signals + [UpdateHealth(health)];
        if health <= 0 {
          signals := signals + [CombatActorDefeated(entity.value)];
        }
      }
    }

    /** Adds to the health through Java `int` arithmetic; see `AddedHealth`. */
    method AddHealth(amount: Int32)
      requires Valid()
      modifies this
      ensures Valid()
      ensures health == AddedHealth(old(health), amount)
      ensures baseAttack == old(baseAttack) && entity == old(entity)
      ensures signals == old(signals) + HealthSignals(entity, health)
    {
      SetHealth(Wrap(health + amount));
    }

    /** Adds to the health without wrap-around; see `AddedHealthSaturating`. */
    method AddHealthSaturating(amount: Int32)
      requires Valid()
      modifies this
      ensures Valid()
      ensures health == AddedHealthSaturating(old(health), amount)
      ensures baseAttack == old(baseAttack) && entity == old(entity)
      ensures signals == old(signals) + HealthSignals(entity, health)
    {
      SetHealth(if health + amount > MaxInt then MaxInt else health + amount);
    }

    /** Sets the base attack; a negative one is refused and changes nothing. */
    method SetBaseAttack(attack: Int32)
      modifies this
      ensures attack >= 0 ==> baseAttack == attack
      ensures attack < 0 ==> baseAttack == old(baseAttack)
      ensures health == old(health) && entity == old(entity) && signals == old(signals)
    {
      if attack >= 0 {
        baseAttack := attack;
      }
    }

    /**
     * A hit by `attacker`: in god mode nothing happens; otherwise a hurt
     * player hears the damage sound and the health drops by the attacker's
     * base attack, clamped. A component attached to no entity throws.
     */
    method Hit(attacker: CombatStatsComponent, god: bool) returns (r: Outcome<CombatError>)
      requires Valid() && attacker.Valid()
      modifies this
      ensures Valid()
      ensures god ==> r == Pass && health == old(health) && signals == old(signals)
      ensures !god && entity.None? ==> r == Fail(NoEntity) && health == old(health) && signals == old(signals)
      ensures !god && entity.Some? ==>
                && r == Pass
                && health == HitHealth(old(health), old(attacker.baseAttack))
                && signals == old(signals) + (if entity == Some(Player) then [PlayerDamageSound] else [])
                                           + HealthSignals(entity, health)
      ensures baseAttack == old(baseAttack) && entity == old(entity)
    {
      if god {
        return Pass;
      }
      if entity.None? {
        return Fail(NoEntity);
      }
      if entity.value == Player {
        signals := signals + [PlayerDamageSound];
      }
      HitNeverOverflows(health, attacker.baseAttack);
      var newHealth := health - attacker.baseAttack;
      SetHealth(newHealth);
      return Pass;
    }

    /** A hit from an entity: one without combat statistics does nothing. */
    method HitFromEntity(attacker: CombatStatsComponent?, god: bool) returns (r: Outcome<CombatError>)
      requires Valid() && (attacker != null ==> attacker.Valid())
      modifies this
      ensures Valid()
      ensures attacker == null ==> r == Pass && health == old(health) && signals == old(signals)
      ensures attacker != null && god ==> r == Pass && health == old(health) && signals == old(signals)
      ensures attacker != null && !god && entity.None? ==>
                r == Fail(NoEntity) && health == old(health) && signals == old(signals)
      ensures attacker != null && !god && entity.Some? ==>
                && r == Pass
                && health == HitHealth(old(health), old(attacker.baseAttack))
                && signals == old(signals) + (if entity == Some(Player) then [PlayerDamageSound] else [])
                                           + HealthSignals(entity, health)
      ensures baseAttack == old(baseAttack) && entity == old(entity)
    {
      r := Pass;
      if attacker != null {
        r := Hit(attacker, god);
      }
    }

    /** The saved form of the component. */
    method Write() returns (r: HealthRecord)
      ensures r == HealthRecord(RecordKey, health)
    {
      r := HealthRecord(RecordKey, health);
    }

    /** Loads the health from a saved record, clamped like any other. */
    method Read(record: HealthRecord)
      modifies this
      ensures health == Clamp(record.health)
      ensures baseAttack == old(baseAttack) && entity == old(entity)
      ensures signals == old(signals) + HealthSignals(entity, health)
    {
      SetHealth(record.health);
    }
  }

  /** Saving a component's health and loading it back leaves the health as it was. */
  method SaveRestore(c: CombatStatsComponent)
    requires c.Valid()
    modifies c
    ensures c.Valid() && c.health == old(c.health)
  {
    var saved := c.Write();
    c.Read(saved);
  }
}
