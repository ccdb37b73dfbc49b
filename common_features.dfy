/** The common feature classes (features/common.py): lair, deployment zone and
    crumbs stack, their IDs and collision flags, and the crumbs stack's
    reference count of allied entities standing on it. */
module CommonFeatures {
  import opened Wrappers
  import opened Sides
  import opened Hexagon
  import opened Features
  import opened Entities
  import opened CrumbsModifier

  const LairId := 1
  const DeploymentZoneId := 2
  const CrumbsStackId := 3

  /** The common feature classes. */
  datatype FeatureClass = Lair | DeploymentZone | CrumbsStack

  /** `FEATURE_ID()` of each class: distinct positive integers. */
  function FeatureIdOf(c: FeatureClass): (id: int)
    ensures id > 0
  {
    match c
    case Lair => LairId
    case DeploymentZone => DeploymentZoneId
    case CrumbsStack => CrumbsStackId
  }

  /** No two common classes share an ID. */
  lemma FeatureIdsDistinct(c: FeatureClass, d: FeatureClass)
    ensures FeatureIdOf(c) == FeatureIdOf(d) ==> c == d
  {
  }

  /** `is_collision()`: only a lair blocks movement. */
  function IsCollision(c: FeatureClass): (r: bool)
    ensures r <==> c == Lair
  {
    c.Lair?
  }

  /** Defining the three classes, in the order of the file, registers each ID;
      on a registry that holds none of them, none of the definitions raises. */
  method DefineCommonFeatures(registry: FeatureRegistry) returns (r: Result<()>)
    modifies registry
    ensures r.Ok? <==> LairId !in old(registry.allFeatures) && DeploymentZoneId !in old(registry.allFeatures)
                       && CrumbsStackId !in old(registry.allFeatures)
    ensures r.Ok? ==> registry.allFeatures == old(registry.allFeatures)[LairId := "Lair"]
                        [DeploymentZoneId := "DeploymentZone"][CrumbsStackId := "CrumbsStack"]
  {
    r := registry.RegisterSubclass(LairId, "Lair");
    if r.Err? { return; }
    r := registry.RegisterSubclass(DeploymentZoneId, "DeploymentZone");
    if r.Err? { return; }
    r := registry.RegisterSubclass(CrumbsStackId, "CrumbsStack");
  }

  /** A new feature of one of the common classes. */
  method NewFeature(c: FeatureClass, shape: seq<OddR>, health: Option<int>, defense: int,
                    side: Option<Side>, pos: OddR) returns (f: Feature)
    ensures fresh(f) && f.featureId == FeatureIdOf(c) && f.collides == IsCollision(c)
    ensures f.shape == shape && f.health == health && f.defense == defense && f.side == side
    ensures f.pos == pos && f.sideCount == map[]
  {
    f := new Feature(FeatureIdOf(c), IsCollision(c), shape, health, defense, side, pos);
  }

  /** The multiplier step a crumbs stack gives its side. */
  const StackBonus: real := 0.1

  /** A crumbs stack's counts and the modifier's side multipliers, both
      default dictionaries. */
  datatype StackState = StackState(sideCount: map<Side, int>, multiplier: map<Side, real>)

  function CountOf(m: map<Side, int>, s: Side): int { if s in m then m[s] else 0 }
  function BonusOf(m: map<Side, real>, s: Side): real { if s in m then m[s] else 0.0 }

  /** `on_entity_enter` for an entity of side s: the count goes up by one and
      the multiplier rises by the bonus only on the 0 -> 1 transition. */
  function Enter(st: StackState, s: Side): (r: StackState)
    ensures CountOf(r.sideCount, s) == CountOf(st.sideCount, s) + 1
    ensures BonusOf(r.multiplier, s) == BonusOf(st.multiplier, s)
                                        + (if CountOf(st.sideCount, s) == 0 then StackBonus else 0.0)
    ensures forall t :: t != s ==> (CountOf(r.sideCount, t) == CountOf(st.sideCount, t)
                                    && BonusOf(r.multiplier, t) == BonusOf(st.multiplier, t))
  {
    var m := if CountOf(st.sideCount, s) == 0
             then st.multiplier[s := BonusOf(st.multiplier, s) + StackBonus]
             else st.multiplier;
    StackState(st.sideCount[s := CountOf(st.sideCount, s) + 1], m)
  }

  /** `on_entity_exit` for an entity of side s: the count goes down by one and
      the multiplier falls by the bonus only on the 1 -> 0 transition. */
  function Exit(st: StackState, s: Side): (r: StackState)
    ensures CountOf(r.sideCount, s) == CountOf(st.sideCount, s) - 1
    ensures BonusOf(r.multiplier, s) == BonusOf(st.multiplier, s)
                                        - (if CountOf(st.sideCount, s) == 1 then StackBonus else 0.0)
    ensures forall t :: t != s ==> (CountOf(r.sideCount, t) == CountOf(st.sideCount, t)
                                    && BonusOf(r.multiplier, t) == BonusOf(st.multiplier, t))
  {
    var c := CountOf(st.sideCount, s) - 1;
    var m := if c == 0 then st.multiplier[s := BonusOf(st.multiplier, s) - StackBonus] else st.multiplier;
    StackState(st.sideCount[s := c], m)
  }

  /** Entering then leaving restores every count and every multiplier. */
  lemma ExitUndoesEnter(st: StackState, s: Side, t: Side)
    ensures CountOf(Exit(Enter(st, s), s).sideCount, t) == CountOf(st.sideCount, t)
    ensures BonusOf(Exit(Enter(st, s), s).multiplier, t) == BonusOf(st.multiplier, t)
  {
  }

  /** While a side has at least one entity on the stack (and the count started
      at 0), its multiplier carries the bonus exactly once. */
  lemma {:induction false} BonusWhileOccupied(st: StackState, s: Side, k: nat)
    requires CountOf(st.sideCount, s) == 0
    ensures CountOf(EnterTimes(st, s, k).sideCount, s) == k
    ensures BonusOf(EnterTimes(st, s, k).multiplier, s)
            == BonusOf(st.multiplier, s) + (if k > 0 then StackBonus else 0.0)
  {
    if k > 0 {
      BonusWhileOccupied(st, s, k - 1);
    }
  }

  function EnterTimes(st: StackState, s: Side, k: nat): StackState
  {
    if k == 0 then st else Enter(EnterTimes(st, s, k - 1), s)
  }

  /** `CrumbsStack.on_entity_enter`; an entity without a side changes nothing. */
  method OnEntityEnter(stack: Feature, modifier: CrumbsPerTurnModifier, entity: Entity)
    modifies stack`sideCount, modifier`multiplier
    ensures entity.side.None? ==> (stack.sideCount == old(stack.sideCount)
                                   && modifier.multiplier == old(modifier.multiplier))
    ensures entity.side.Some? ==>
      StackState(stack.sideCount, modifier.multiplier)
        == Enter(StackState(old(stack.sideCount), old(modifier.multiplier)), entity.side.value)
  {
    if entity.side.None? {
      return;
    }
    var s := entity.side.value;
    if CountOf(stack.sideCount, s) == 0 {
      modifier.multiplier := modifier.multiplier[s := BonusOf(modifier.multiplier, s) + StackBonus];
    }
    stack.sideCount := stack.sideCount[s := CountOf(stack.sideCount, s) + 1];
  }

  /** `CrumbsStack.on_entity_exit`; an entity without a side changes nothing. */
  method OnEntityExit(stack: Feature, modifier: CrumbsPerTurnModifier, entity: Entity)
    modifies stack`sideCount, modifier`multiplier
    ensures entity.side.None? ==> (stack.sideCount == old(stack.sideCount)
                                   && modifier.multiplier == old(modifier.multiplier))
    ensures entity.side.Some? ==>
      StackState(stack.sideCount, modifier.multiplier)
        == Exit(StackState(old(stack.sideCount), old(modifier.multiplier)), entity.side.value)
  {
    if entity.side.None? {
      return;
    }
    var s := entity.side.value;
    stack.sideCount := stack.sideCount[s := CountOf(stack.sideCount, s) - 1];
    if CountOf(stack.sideCount, s) == 0 {
      modifier.multiplier := modifier.multiplier[s := BonusOf(modifier.multiplier, s) - StackBonus];
    }
  }
}
