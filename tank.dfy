/** The tank rodent Cracker (entities/rodents/tank.py) and its one-shot skill
    "Abandon Bread". A Cracker is an entity with one extra field; the model
    keeps the entity as `body` and the flag beside it. */
module Tanks {
  import opened Wrappers
  import opened Entities

  /** The class defense of Cracker given to `rodent_data`. */
  const CrackerDefense := 5
  /** The speed the skill adds. */
  const AbandonSpeedBonus := 12

  /** The attributes `abandon_bread` touches. */
  datatype BreadState = BreadState(abandoned: bool, height: int, defense: Option<int>, speed: int)

  /** What `abandon_bread` does to them and what it returns: CANCELLED with no
      change once the bread is gone; otherwise the flag is set and the height
      lowered before the class defense is subtracted, which raises TypeError
      when the defense is None. */
  function Abandon(s: BreadState): (BreadState, Result<SkillCompleted>)
  {
    if s.abandoned then (s, Ok(Cancelled))
    else if s.defense.None? then (s.(abandoned := true, height := s.height - 1), Err(TypeError))
    else
      (BreadState(true, s.height - 1, Some(s.defense.value - CrackerDefense), s.speed + AbandonSpeedBonus),
       Ok(Success))
  }

  /** The first use on a Cracker at its class defense: defense 5 becomes 0,
      height drops by one, speed rises by 12, and the result is SUCCESS. */
  lemma FirstAbandon(s: BreadState)
    requires !s.abandoned && s.defense == Some(CrackerDefense)
    ensures Abandon(s).1 == Ok(Success)
    ensures Abandon(s).0 == BreadState(true, s.height - 1, Some(0), s.speed + 12)
  {
  }

  /** Every later use is CANCELLED and changes nothing, so the skill is a
      one-shot: any number of uses adds the speed bonus at most once. */
  lemma AbandonOnce(s: BreadState)
    ensures Abandon(s).0.abandoned
    ensures Abandon(Abandon(s).0) == (Abandon(s).0, Ok(Cancelled))
    ensures Abandon(s).0.speed - s.speed == if s.abandoned || s.defense.None? then 0 else AbandonSpeedBonus
  {
  }

  class Cracker {
    const body: Entity
    /** `is_bread_abandoned`; the class attribute is False until an instance sets its own. */
    var isBreadAbandoned: bool

    constructor (body: Entity)
      ensures this.body == body && !isBreadAbandoned
    {
      this.body := body;
      isBreadAbandoned := false;
    }

    function State(): BreadState
      reads this, body
    {
      BreadState(isBreadAbandoned, body.height, body.defense, body.speed)
    }

    /** `Cracker.abandon_bread`. */
    method AbandonBread() returns (r: Result<SkillCompleted>)
      modifies this`isBreadAbandoned, body`height, body`defense, body`speed
      ensures (State(), r) == Abandon(old(State()))
    {
      if isBreadAbandoned {
        return Ok(Cancelled);
      }
      isBreadAbandoned := true;
      body.height := body.height - 1;
      if body.defense.None? {
        return Err(TypeError);
      }
      body.defense := Some(body.defense.value - CrackerDefense);
      body.speed := body.speed + AbandonSpeedBonus;
      return Ok(Success);
    }
  }

  /** Using the skill twice on a fresh Cracker: SUCCESS, then CANCELLED, and
      the speed is raised exactly once. */
  method AbandonTwice(c: Cracker) returns (first: Result<SkillCompleted>, second: Result<SkillCompleted>)
    requires !c.isBreadAbandoned && c.body.defense == Some(CrackerDefense)
    modifies c`isBreadAbandoned, c.body`height, c.body`defense, c.body`speed
    ensures first == Ok(Success) && second == Ok(Cancelled)
    ensures c.body.speed == old(c.body.speed) + 12 && c.body.defense == Some(0)
    ensures c.body.height == old(c.body.height) - 1
  {
    first := c.AbandonBread();
    second := c.AbandonBread();
  }
}
