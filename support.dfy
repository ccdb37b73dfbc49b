/** The support rodent Quartermaster (entities/rodents/support.py): the effect
    "Quartermaster's Soul", which lends a rodent one point of defense while it
    lasts, and the two-phase skill "My Soul". */
module Supports {
  import opened Wrappers
  import opened Entities
  import opened Features

  /** A defense after a hook adds `delta`: only a Rodent is affected, and
      `None + 1` raises TypeError. */
  function ShiftDefense(isRodent: bool, defense: Option<int>, delta: int): (r: Result<Option<int>>)
  {
    if !isRodent then Ok(defense)
    else if defense.None? then Err(TypeError)
    else Ok(Some(defense.value + delta))
  }

  /** Applying the soul and then clearing it restores the defense, and a
      non-Rodent is never touched. */
  lemma SoulRoundTrip(isRodent: bool, defense: Option<int>)
    ensures ShiftDefense(isRodent, defense, 1).Ok? ==>
              ShiftDefense(isRodent, ShiftDefense(isRodent, defense, 1).value, -1) == Ok(defense)
    ensures !isRodent ==> ShiftDefense(isRodent, defense, 1) == Ok(defense) == ShiftDefense(isRodent, defense, -1)
    ensures isRodent && defense.Some? ==> ShiftDefense(isRodent, defense, 1) == Ok(Some(defense.value + 1))
  {
  }

  /** `QuartermasterSoul.on_applied`: the entity's defense goes up by one. */
  method SoulApplied(entity: Entity) returns (r: Result<()>)
    modifies entity`defense
    ensures var s := ShiftDefense(entity.isRodent, old(entity.defense), 1);
            if s.Ok? then r == Ok(()) && entity.defense == s.value
            else r == Err(s.error) && entity.defense == old(entity.defense)
  {
    if !entity.isRodent {
      return Ok(());
    }
    if entity.defense.None? {
      return Err(TypeError);
    }
    entity.defense := Some(entity.defense.value + 1);
    return Ok(());
  }

  /** `QuartermasterSoul.on_cleared`: the entity's defense goes down by one. */
  method SoulCleared(entity: Entity) returns (r: Result<()>)
    modifies entity`defense
    ensures var s := ShiftDefense(entity.isRodent, old(entity.defense), -1);
            if s.Ok? then r == Ok(()) && entity.defense == s.value
            else r == Err(s.error) && entity.defense == old(entity.defense)
  {
    if !entity.isRodent {
      return Ok(());
    }
    if entity.defense.None? {
      return Err(TypeError);
    }
    entity.defense := Some(entity.defense.value - 1);
    return Ok(());
  }

  /** What a target action hands `assign_my_soul_target`. */
  datatype Target = EntityTarget(entity: Entity) | FeatureTarget(feature: Feature)

  /** The two phases of "My Soul": with a living target recorded, the skill
      detonates at once (the area damage around the target and the
      Quartermaster's own defeat) and completes; otherwise it asks for an ally
      to receive the soul. */
  datatype SoulPhase = Detonate | ChooseTarget

  /** A recorded target whose health is anything but 0 (None included, as
      `None != 0` holds) triggers the detonation. */
  predicate Armed(target: Option<Entity>)
    reads if target.Some? then {target.value} else {}
  {
    target.Some? && target.value.health != Some(0)
  }

  class Quartermaster {
    const body: Entity
    /** `my_soul_target`; the class attribute is None until an instance sets its own. */
    var mySoulTarget: Option<Entity>

    constructor (body: Entity)
      ensures this.body == body && mySoulTarget == None
    {
      this.body := body;
      mySoulTarget := None;
    }

    /** `Quartermaster.my_soul`: which phase runs, and the result the first
        phase returns. */
    method MySoul() returns (phase: SoulPhase, r: Option<SkillCompleted>)
      ensures phase == Detonate <==> Armed(mySoulTarget)
      ensures phase == Detonate ==> r == Some(Success)
      ensures phase == ChooseTarget ==> r == None
    {
      if mySoulTarget.Some? && mySoulTarget.value.health != Some(0) {
        return Detonate, Some(Success);
      }
      return ChooseTarget, None;
    }

    /** `Quartermaster.assign_my_soul_target`: the asserted entity becomes the
        recorded target; a feature fails the assertion. */
    method AssignMySoulTarget(target: Target) returns (r: Result<SkillCompleted>)
      modifies this`mySoulTarget
      ensures target.EntityTarget? ==> r == Ok(Success) && mySoulTarget == Some(target.entity)
      ensures target.FeatureTarget? ==> r == Err(AssertionError) && mySoulTarget == old(mySoulTarget)
    {
      if target.FeatureTarget? {
        return Err(AssertionError);
      }
      mySoulTarget := Some(target.entity);
      return Ok(Success);
    }
  }

  /** The second phase follows the first: once a living ally has received the
      soul, the next use of the skill detonates. */
  method SoulThenDetonate(q: Quartermaster, ally: Entity) returns (phase: SoulPhase)
    requires ally.health != Some(0)
    modifies q`mySoulTarget
    ensures phase == Detonate && q.mySoulTarget == Some(ally)
  {
    var recorded := q.AssignMySoulTarget(EntityTarget(ally));
    var r;
    phase, r := q.MySoul();
  }
}
