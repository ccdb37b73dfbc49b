/** Entities on the board (entity.py) and the status effects attached to them
    (entity_effect.py). The two refer to each other (an effect knows its
    entity, an entity holds its effects by name), so they share one module. */
module Entities {
  import opened Wrappers
  import opened Sides
  import opened Hexagon

  /** `MINIMAL_DAMAGE_TAKEN`: every hit costs at least this much before clamping. */
  const MinimalDamageTaken := 1

  /** `_EntitySkill` / `EntitySkill` without its bound callable. */
  datatype EntitySkill = EntitySkill(
    name: string, methodName: string, reach: Option<int>, crumbCost: int, altitude: Option<int>)

  /** How a skill finishes at once. */
  datatype SkillCompleted = Success | Cancelled

  /** What a skill callable returns: finished, or a request to pick targets
      (`SkillTargeting`: how many targets, the candidates, and the entity and
      skill that asked). */
  datatype SkillResult =
    | Completed(completed: SkillCompleted)
    | Targeting(targetCount: nat, availableTargets: seq<OddR>, sourceEntity: Entity, sourceSkill: EntitySkill)

  /** A class attribute as `entity_data` inspects it: a plain value, or a
      callable with the parameter count `inspect.signature` reports. */
  datatype Attribute = Plain | Callable(parameterCount: nat)

  /** The skill check of `entity_data`: the named method exists, is callable
      and takes exactly one parameter; each failure raises ValueError. */
  predicate SkillMethodOk(attributes: map<string, Attribute>, skill: EntitySkill)
  {
    skill.methodName in attributes
    && attributes[skill.methodName].Callable?
    && attributes[skill.methodName].parameterCount == 1
  }

  /** The number of skills that pass the check before the first that fails. */
  function ValidPrefix(attributes: map<string, Attribute>, skills: seq<EntitySkill>): (k: nat)
    ensures k <= |skills|
    ensures forall i :: 0 <= i < k ==> SkillMethodOk(attributes, skills[i])
    ensures k < |skills| ==> !SkillMethodOk(attributes, skills[k])
  {
    if skills == [] || !SkillMethodOk(attributes, skills[0]) then 0
    else 1 + ValidPrefix(attributes, skills[1..])
  }

  /** The skill list a class attribute lookup reaches. No subclass declares
      its own `skills`, so every class shares the one list of `Entity`. */
  class SkillList {
    var skills: seq<EntitySkill>

    constructor ()
      ensures skills == []
    {
      skills := [];
    }
  }

  /** The skill loop of `entity_data` as written: each skill that passes the
      check is appended to `cls.skills`, which is the list shared by all
      entity classes; the first failing skill raises ValueError, leaving the
      skills before it appended. */
  method RegisterSkillsAsWritten(shared: SkillList, attributes: map<string, Attribute>,
                                 skills: seq<EntitySkill>) returns (r: Result<()>)
    modifies shared
    ensures r.Ok? <==> ValidPrefix(attributes, skills) == |skills|
    ensures r.Err? ==> r.error == ValueError
    ensures shared.skills == old(shared.skills) + skills[..ValidPrefix(attributes, skills)]
  {
    var i := 0;
    while i < |skills|
      invariant 0 <= i <= |skills|
      invariant forall j :: 0 <= j < i ==> SkillMethodOk(attributes, skills[j])
      invariant shared.skills == old(shared.skills) + skills[..i]
    {
      if !SkillMethodOk(attributes, skills[i]) {
        PrefixStops(attributes, skills, i);
        return Err(ValueError);
      }
      shared.skills := shared.skills + [skills[i]];
      i := i + 1;
    }
    PrefixStops(attributes, skills, i);
    return Ok(());
  }

  /** If the first i skills pass and skill i fails (or i is the end), the valid prefix is i. */
  lemma {:induction false} PrefixStops(attributes: map<string, Attribute>, skills: seq<EntitySkill>, i: nat)
    requires i <= |skills|
    requires forall j :: 0 <= j < i ==> SkillMethodOk(attributes, skills[j])
    requires i < |skills| ==> !SkillMethodOk(attributes, skills[i])
    ensures ValidPrefix(attributes, skills) == i
  {
    if i > 0 {
      PrefixStops(attributes, skills[1..], i - 1);
    }
  }

  /** Two classes decorated one after the other through the shared list: the
      second class's `skills` also holds every skill of the first. */
  lemma SharedSkillListLeaks(attributesA: map<string, Attribute>, skillsA: seq<EntitySkill>,
                             attributesB: map<string, Attribute>, skillsB: seq<EntitySkill>)
    requires ValidPrefix(attributesA, skillsA) == |skillsA| > 0
    requires ValidPrefix(attributesB, skillsB) == |skillsB|
    ensures var afterA := [] + skillsA[..ValidPrefix(attributesA, skillsA)];
            var afterB := afterA + skillsB[..ValidPrefix(attributesB, skillsB)];
            afterB == skillsA + skillsB && afterB != skillsB
  {
    var afterA := [] + skillsA[..ValidPrefix(attributesA, skillsA)];
    assert afterA == skillsA;
    var afterB := afterA + skillsB[..ValidPrefix(attributesB, skillsB)];
    assert |afterB| == |skillsA| + |skillsB| > |skillsB|;
  }

  /** The evidently intended skill registration: each class gets a list of
      its own holding exactly its validated skills, or ValueError. */
  function ClassSkills(attributes: map<string, Attribute>, skills: seq<EntitySkill>): (r: Result<seq<EntitySkill>>)
    ensures r.Ok? <==> forall i :: 0 <= i < |skills| ==> SkillMethodOk(attributes, skills[i])
    ensures r.Ok? ==> r.value == skills
    ensures r.Err? ==> r.error == ValueError
  {
    if ValidPrefix(attributes, skills) == |skills| then Ok(skills) else Err(ValueError)
  }

  /** The per-class values `rodent_data` adds for a Rodent subclass. */
  datatype RodentStats = RodentStats(speed: int, moveStamina: int, skillStamina: Option<int>,
                                     moveCost: int, attack: int)

  /** The class-level values that `entity_data` (and `rodent_data`) write. */
  datatype EntityClass = EntityClass(
    name: string, health: Option<int>, defense: Option<int>, movable: bool,
    collision: bool, height: int, skills: seq<EntitySkill>, rodent: Option<RodentStats>,
    turnChangeHook: bool)

  /** What a hit did: whether the entity died and how much health it lost. */
  datatype DamageOutcome = DamageOutcome(died: bool, hpLoss: int)

  /** `defense or 0`. */
  function DefenseOrZero(defense: Option<int>): int
  {
    if defense.Some? then defense.value else 0
  }

  /** The damage after the `on_damage_taken` hook: a returned value replaces it. */
  function Incoming(damage: int, hookResult: Option<int>): int
  {
    if hookResult.Some? then hookResult.value else damage
  }

  /** The health lost before clamping at zero. */
  function RawLoss(damage: int, defense: int): (loss: int)
    ensures loss >= MinimalDamageTaken && loss >= damage - defense
    ensures loss == MinimalDamageTaken || loss == damage - defense
  {
    Max(MinimalDamageTaken, damage - defense)
  }

  class Entity {
    var pos: OddR
    const side: Option<Side>
    const name: string
    var maxHealth: Option<int>
    var health: Option<int>
    var defense: Option<int>
    const movable: bool
    const collision: bool
    var height: int
    const skills: seq<EntitySkill>
    /** `isinstance(entity, Rodent)`. */
    const isRodent: bool
    var speed: int
    var moveStamina: int
    var skillStamina: Option<int>
    var moveCost: int
    var attack: int
    /** The effects on this entity, by effect name. */
    var effects: map<string, EntityEffect>
    /** The class overrides `on_turn_change` with a real body (not `...`). */
    const hasTurnChangeHook: bool

    /** `Entity.__init__`: the position and side are the instance's own; every
        other attribute starts as its class's value. */
    constructor (cls: EntityClass, pos: OddR, side: Option<Side>)
      ensures this.pos == pos && this.side == side
      ensures name == cls.name && health == cls.health && maxHealth == cls.health
      ensures defense == cls.defense && height == cls.height && collision == cls.collision
      ensures movable == cls.movable && skills == cls.skills
      ensures isRodent == cls.rodent.Some?
      ensures cls.rodent.Some? ==> speed == cls.rodent.value.speed && moveStamina == cls.rodent.value.moveStamina
                                   && skillStamina == cls.rodent.value.skillStamina
                                   && moveCost == cls.rodent.value.moveCost && attack == cls.rodent.value.attack
      ensures cls.rodent.None? ==> skillStamina.None?
      ensures effects == map[] && hasTurnChangeHook == cls.turnChangeHook
    {
      this.pos := pos;
      this.side := side;
      name := cls.name;
      maxHealth := cls.health;
      health := cls.health;
      defense := cls.defense;
      movable := cls.movable;
      collision := cls.collision;
      height := cls.height;
      skills := cls.skills;
      isRodent := cls.rodent.Some?;
      if cls.rodent.Some? {
        speed := cls.rodent.value.speed;
        moveStamina := cls.rodent.value.moveStamina;
        skillStamina := cls.rodent.value.skillStamina;
        moveCost := cls.rodent.value.moveCost;
        attack := cls.rodent.value.attack;
      } else {
        speed, moveStamina, moveCost, attack := 0, 0, 0, 0;
        skillStamina := None;
      }
      effects := map[];
      hasTurnChangeHook := cls.turnChangeHook;
    }

    /** `Entity._take_damage`. `hookResult` is what `on_damage_taken` returned
        for this hit. */
    method TakeDamage(damage: int, hookResult: Option<int>) returns (r: Result<DamageOutcome>)
      modifies this`health
      ensures old(health).None? ==> r == Err(ValueError) && health == old(health)
      ensures old(health).Some? ==> r.Ok? && health.Some?
      ensures old(health).Some? ==>
        var loss := RawLoss(Incoming(damage, hookResult), DefenseOrZero(defense));
        health.value == Max(0, old(health).value - loss)
      ensures r.Ok? ==> health.value >= 0
                        && r.value.hpLoss == old(health).value - health.value
                        && (r.value.died <==> health.value == 0)
      ensures r.Ok? && old(health).value > 0 ==> 1 <= r.value.hpLoss <= old(health).value
    {
      var d := damage;
      if hookResult.Some? {
        d := hookResult.value;
      }
      if health.None? {
        return Err(ValueError);
      }
      var damageTaken := Max(MinimalDamageTaken, d - DefenseOrZero(defense));
      var h := health.value - damageTaken;
      if h <= 0 {
        damageTaken := damageTaken + h;
        health := Some(0);
        return Ok(DamageOutcome(true, damageTaken));
      }
      health := Some(h);
      return Ok(DamageOutcome(false, damageTaken));
    }
  }

  /** `EffectClearSide`: whose turn ends an effect. */
  datatype EffectClearSide = Enemy | Ally | Any

  /** What `effect_data` writes on an effect class. */
  datatype EffectData = EffectData(clearSide: EffectClearSide, name: string)

  /** An `EntityEffect` subclass as a mutable class object; `decoration` is
      None until `effect_data` runs (`_has_effect_data` is then true). */
  class EffectClass {
    var decoration: Option<EffectData>

    constructor ()
      ensures decoration.None?
    {
      decoration := None;
    }

    /** `effect_data(clear_side, name=...)` applied to this class. */
    method Decorate(clearSide: EffectClearSide, name: string)
      modifies this
      ensures decoration == Some(EffectData(clearSide, name))
    {
      decoration := Some(EffectData(clearSide, name));
    }
  }

  /** `should_clear` on the values it reads: ENEMY clears on the turn of the
      other side, ALLY on the entity's own turn, ANY on every turn; ENEMY and
      ALLY raise ValueError for an entity without a side. */
  function ShouldClearFor(clearSide: EffectClearSide, entitySide: Option<Side>, turn: Side): (r: Result<bool>)
    ensures r.Err? <==> clearSide != Any && entitySide.None?
    ensures r.Err? ==> r.error == ValueError
    ensures r.Ok? && clearSide == Enemy ==> (r.value <==> turn != entitySide.value)
    ensures r.Ok? && clearSide == Ally ==> (r.value <==> turn == entitySide.value)
    ensures clearSide == Any ==> r == Ok(true)
  {
    match clearSide
    case Enemy =>
      if entitySide.None? then Err(ValueError) else Ok(turn == OtherSide(entitySide.value))
    case Ally =>
      if entitySide.None? then Err(ValueError) else Ok(turn == entitySide.value)
    case Any => Ok(true)
  }

  /** An ENEMY or ALLY effect on a sided entity clears on exactly one of the two
      turns, and the two kinds clear on opposite turns. */
  lemma ShouldClearComplementary(side: Side, turn: Side)
    ensures ShouldClearFor(Enemy, Some(side), turn).value != ShouldClearFor(Enemy, Some(side), OtherSide(turn)).value
    ensures ShouldClearFor(Ally, Some(side), turn).value != ShouldClearFor(Enemy, Some(side), turn).value
  {
    OtherSideInvolution(turn);
  }

  class EntityEffect {
    const cls: EffectClass
    const entity: Entity
    var duration: Option<int>
    var turnPassed: int
    var intensity: real
    var overriddenEffects: seq<EntityEffect>

    /** A live effect's class has been decorated. */
    predicate Valid()
      reads cls
    {
      cls.decoration.Some?
    }

    function Name(): string
      reads cls
      requires Valid()
    {
      cls.decoration.value.name
    }

    /** The body of `EntityEffect.__init__` once its class check has passed. */
    constructor (cls: EffectClass, entity: Entity, duration: Option<int>, intensity: real)
      requires cls.decoration.Some?
      ensures this.cls == cls && this.entity == entity && Valid()
      ensures this.duration == duration && this.intensity == intensity
      ensures turnPassed == 0 && overriddenEffects == []
    {
      this.cls := cls;
      this.entity := entity;
      this.duration := duration;
      this.intensity := intensity;
      turnPassed := 0;
      overriddenEffects := [];
    }

    /** `should_clear(turn)`. */
    function ShouldClear(turn: Side): (r: Result<bool>)
      reads cls
      requires Valid()
    {
      ShouldClearFor(cls.decoration.value.clearSide, entity.side, turn)
    }
  }

  /** `EntityEffect(entity, duration=..., intensity=...)` for a subclass: raises
      TypeError unless the class was decorated with `effect_data`. */
  method NewEffect(cls: EffectClass, entity: Entity, duration: Option<int>, intensity: real)
    returns (r: Result<EntityEffect>)
    ensures r.Err? <==> cls.decoration.None?
    ensures r.Err? ==> r.error == TypeError
    ensures r.Ok? ==> fresh(r.value) && r.value.cls == cls && r.value.entity == entity && r.value.Valid()
                      && r.value.duration == duration && r.value.intensity == intensity
                      && r.value.turnPassed == 0 && r.value.overriddenEffects == []
  {
    if cls.decoration.None? {
      return Err(TypeError);
    }
    var e := new EntityEffect(cls, entity, duration, intensity);
    return Ok(e);
  }
}
