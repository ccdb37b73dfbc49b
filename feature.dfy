/** Map features (feature.py): multi-tile objects such as lairs, with their
    damage rule and the registry of feature classes by ID. */
module Features {
  import opened Wrappers
  import opened Sides
  import opened Hexagon

  /** `MINIMAL_FEATURE_DAMAGE_TAKEN`. */
  const MinimalFeatureDamageTaken := 1

  /** The fields a dataclass `==` compares: the class (its ID) and every
      dataclass field, including a crumbs stack's side counts. */
  datatype FeatureValue = FeatureValue(
    featureId: int, shape: seq<OddR>, health: Option<int>, defense: int,
    side: Option<Side>, sideCount: map<Side, int>)

  /** What a hit did to a feature. */
  datatype FeatureDamage = FeatureDamage(died: bool, hpLoss: int)

  class Feature {
    /** `FEATURE_ID()` of the feature's class. */
    const featureId: int
    /** `is_collision()` of the feature's class. */
    const collides: bool
    const shape: seq<OddR>
    var health: Option<int>
    const defense: int
    const side: Option<Side>
    /** The anchor the offsets of `shape` are added to. */
    const pos: OddR
    /** `CrumbsStack.side_count`; a default dictionary, empty for other classes. */
    var sideCount: map<Side, int>

    constructor (featureId: int, collides: bool, shape: seq<OddR>, health: Option<int>,
                 defense: int, side: Option<Side>, pos: OddR)
      ensures this.featureId == featureId && this.collides == collides
      ensures this.shape == shape && this.health == health && this.defense == defense
      ensures this.side == side && this.pos == pos && sideCount == map[]
    {
      this.featureId := featureId;
      this.collides := collides;
      this.shape := shape;
      this.health := health;
      this.defense := defense;
      this.side := side;
      this.pos := pos;
      sideCount := map[];
    }

    function Value(): FeatureValue
      reads this
    {
      FeatureValue(featureId, shape, health, defense, side, sideCount)
    }

    /** `Feature._take_damage`; `hookResult` is what `on_damage_taken` returned. */
    method TakeDamage(damage: int, hookResult: Option<int>) returns (r: Result<FeatureDamage>)
      modifies this`health
      ensures old(health).None? ==> r == Err(ValueError) && health == old(health)
      ensures old(health).Some? ==> r.Ok? && health.Some?
      ensures old(health).Some? ==>
        var d := if hookResult.Some? then hookResult.value else damage;
        health.value == Max(0, old(health).value - Max(MinimalFeatureDamageTaken, d - defense))
      ensures r.Ok? ==> health.value >= 0
                        && r.value.hpLoss == old(health).value - health.value
                        && (r.value.died <==> health.value == 0)
      ensures r.Ok? && old(health).value > 0 ==> 1 <= r.value.hpLoss <= old(health).value
    {
      var d := damage;
      if hookResult.Some? {
        d := hookResult.value;
      }
      if health.None? {
        return Err(ValueError);
      }
      var damageTaken := Max(MinimalFeatureDamageTaken, d - defense);
      var h := health.value - damageTaken;
      if h <= 0 {
        damageTaken := damageTaken + h;
        health := Some(0);
        return Ok(FeatureDamage(true, damageTaken));
      }
      health := Some(h);
      return Ok(FeatureDamage(false, damageTaken));
    }
  }

  /** Dataclass equality, which `in` and `list.remove` use on features. */
  predicate Same(a: Feature, b: Feature)
    reads a, b
  {
    a.Value() == b.Value()
  }

  /** `Feature.ALL_FEATURES`: feature IDs to class names. */
  class FeatureRegistry {
    var allFeatures: map<int, string>

    constructor ()
      ensures allFeatures == map[]
    {
      allFeatures := map[];
    }

    /** `__init_subclass__`: a subclass whose ID is already taken raises
        Exception and leaves the registry unchanged; otherwise its ID maps to it. */
    method RegisterSubclass(featureId: int, className: string) returns (r: Result<()>)
      modifies this
      ensures r.Err? <==> featureId in old(allFeatures)
      ensures r.Err? ==> r.error == Exception && allFeatures == old(allFeatures)
      ensures r.Ok? ==> allFeatures == old(allFeatures)[featureId := className]
    {
      if featureId in allFeatures {
        return Err(Exception);
      }
      allFeatures := allFeatures[featureId := className];
      return Ok(());
    }
  }
}
