/** Skill helpers shared by the rodents (entities/rodents/common_skills.py):
    which coordinates a skill may target, and the rule for a skill callback
    given as a list of callbacks. */
module CommonSkills {
  import opened Wrappers
  import opened Sides
  import opened Hexagon
  import opened Entities
  import opened Features
  import opened Tiles
  import opened Boards

  /** `SelectTargetMode`. */
  datatype SelectTargetMode = EnemyWithHpMode | EnemyMode | AllyMode | AnyMode | AnyTileMode

  /** Some entity on the tile has a side other than `side` and a health. */
  predicate EnemyEntityWithHp(es: seq<Entity>, side: Option<Side>)
    reads es
  {
    exists i :: 0 <= i < |es| && es[i].side != side && es[i].health.Some?
  }

  predicate EnemyFeatureWithHp(fs: seq<Feature>, side: Option<Side>)
    reads fs
  {
    exists i :: 0 <= i < |fs| && fs[i].side != side && fs[i].health.Some?
  }

  predicate EntityOfOtherSide(es: seq<Entity>, side: Option<Side>)
  {
    exists i :: 0 <= i < |es| && es[i].side != side
  }

  predicate FeatureOfOtherSide(fs: seq<Feature>, side: Option<Side>)
  {
    exists i :: 0 <= i < |fs| && fs[i].side != side
  }

  predicate EntityOfSide(es: seq<Entity>, side: Option<Side>)
  {
    exists i :: 0 <= i < |es| && es[i].side == side
  }

  predicate FeatureOfSide(fs: seq<Feature>, side: Option<Side>)
  {
    exists i :: 0 <= i < |fs| && fs[i].side == side
  }

  /** The test one `case` of `filter_targetable_coords` applies to a tile: an
      entity that fits the mode, or (when features may be targeted) a feature
      that fits it. */
  predicate Targetable(t: Tile, side: Option<Side>, mode: SelectTargetMode, featureTargetable: bool)
    reads t.entities, t.features
  {
    match mode
    case AnyTileMode => true
    case AnyMode => t.entities != [] || (featureTargetable && t.features != [])
    case EnemyWithHpMode =>
      EnemyEntityWithHp(t.entities, side) || (featureTargetable && EnemyFeatureWithHp(t.features, side))
    case EnemyMode => EntityOfOtherSide(t.entities, side) || (featureTargetable && FeatureOfOtherSide(t.features, side))
    case AllyMode => EntityOfSide(t.entities, side) || (featureTargetable && FeatureOfSide(t.features, side))
  }

  /** The coordinates of `coords` kept by the filter, in order; Err when a
      lookup raises (the first such coordinate decides). Written over the
      last coordinate so that it follows the loop that appends. */
  function FilterCoords(tiles: seq<seq<Option<Tile>>>, sizeX: int, sizeY: int, coords: seq<OddR>,
                        side: Option<Side>, mode: SelectTargetMode, featureTargetable: bool): (r: Result<seq<OddR>>)
    reads *
    decreases |coords|
  {
    if coords == [] then Ok([])
    else
      var last := coords[|coords| - 1];
      match FilterCoords(tiles, sizeX, sizeY, coords[..|coords| - 1], side, mode, featureTargetable)
      case Err(e) => Err(e)
      case Ok(kept) =>
        match TileAt(tiles, sizeX, sizeY, last)
        case Err(e) => Err(e)
        case Ok(None) => Ok(kept)
        case Ok(Some(t)) => if Targetable(t, side, mode, featureTargetable) then Ok(kept + [last]) else Ok(kept)
  }

  /** `filter_targetable_coords(coords, board, side, target_mode,
      is_feature_targetable)`: the loop that appends every coordinate whose
      tile exists and passes the mode's test. */
  method FilterTargetableCoords(board: Board, coords: seq<OddR>, side: Option<Side>,
                                mode: SelectTargetMode, featureTargetable: bool) returns (r: Result<seq<OddR>>)
    ensures r == FilterCoords(board.tiles, board.sizeX, board.sizeY, coords, side, mode, featureTargetable)
  {
    var targets: seq<OddR> := [];
    var i := 0;
    while i < |coords|
      invariant 0 <= i <= |coords|
      invariant FilterCoords(board.tiles, board.sizeX, board.sizeY, coords[..i], side, mode, featureTargetable)
                == Ok(targets)
    {
      assert coords[..i + 1][..i] == coords[..i];
      var tile := TileAt(board.tiles, board.sizeX, board.sizeY, coords[i]);
      if tile.Err? {
        FilterErrSticks(board.tiles, board.sizeX, board.sizeY, coords, i + 1, side, mode, featureTargetable);
        return Err(tile.error);
      }
      if tile.value.Some? && Targetable(tile.value.value, side, mode, featureTargetable) {
        targets := targets + [coords[i]];
      }
      i := i + 1;
    }
    assert coords[..i] == coords;
    return Ok(targets);
  }

  /** Once a prefix raises, so does every longer input, with the same error. */
  lemma {:induction false} FilterErrSticks(tiles: seq<seq<Option<Tile>>>, sizeX: int, sizeY: int, coords: seq<OddR>, i: nat,
                                           side: Option<Side>, mode: SelectTargetMode, featureTargetable: bool)
    requires i <= |coords|
    requires FilterCoords(tiles, sizeX, sizeY, coords[..i], side, mode, featureTargetable).Err?
    ensures FilterCoords(tiles, sizeX, sizeY, coords, side, mode, featureTargetable)
            == FilterCoords(tiles, sizeX, sizeY, coords[..i], side, mode, featureTargetable)
    decreases |coords| - i
  {
    if i == |coords| {
      assert coords[..i] == coords;
    } else {
      assert coords[..|coords| - 1][..i] == coords[..i];
      FilterErrSticks(tiles, sizeX, sizeY, coords[..|coords| - 1], i, side, mode, featureTargetable);
    }
  }

  /** `xs` is `ys` with some elements dropped, the rest in their order. */
  predicate SubsequenceOf<T(==)>(xs: seq<T>, ys: seq<T>)
    decreases |ys|
  {
    if xs == [] then true
    else if ys == [] then false
    else if xs[|xs| - 1] == ys[|ys| - 1] then SubsequenceOf(xs[..|xs| - 1], ys[..|ys| - 1])
    else SubsequenceOf(xs, ys[..|ys| - 1])
  }

  lemma {:induction false} SubsequenceGrow<T>(xs: seq<T>, ys: seq<T>, y: T)
    requires SubsequenceOf(xs, ys)
    ensures SubsequenceOf(xs, ys + [y])
    decreases |ys|, 1
  {
    var ys' := ys + [y];
    assert ys'[..|ys'| - 1] == ys;
    if xs == [] {
    } else if xs[|xs| - 1] == y {
      assert ys != [];
      SubsequenceDropLast(xs, ys);
    }
  }

  lemma {:induction false} SubsequenceDropLast<T>(xs: seq<T>, ys: seq<T>)
    requires xs != [] && SubsequenceOf(xs, ys)
    ensures SubsequenceOf(xs[..|xs| - 1], ys)
    decreases |ys|, 0
  {
    var init := xs[..|xs| - 1];
    assert ys != [];
    var yinit := ys[..|ys| - 1];
    if xs[|xs| - 1] == ys[|ys| - 1] {
      assert SubsequenceOf(init, yinit);
      SubsequenceGrow(init, yinit, ys[|ys| - 1]);
      assert yinit + [ys[|ys| - 1]] == ys;
    } else {
      SubsequenceDropLast(xs, yinit);
      SubsequenceGrow(init, yinit, ys[|ys| - 1]);
      assert yinit + [ys[|ys| - 1]] == ys;
    }
  }

  /** Dropping the same first element from both sides, or putting an extra
      one in front of the longer side, keeps a subsequence one. */
  lemma {:induction false} SubsequencePrependRight<T>(xs: seq<T>, ys: seq<T>, y: T)
    requires SubsequenceOf(xs, ys)
    ensures SubsequenceOf(xs, [y] + ys)
    decreases |ys|
  {
    var ys' := [y] + ys;
    if xs != [] {
      assert ys != [];
      assert ys'[..|ys'| - 1] == [y] + ys[..|ys| - 1];
      if xs[|xs| - 1] == ys[|ys| - 1] {
        SubsequencePrependRight(xs[..|xs| - 1], ys[..|ys| - 1], y);
      } else {
        SubsequencePrependRight(xs, ys[..|ys| - 1], y);
      }
    }
  }

  lemma {:induction false} SubsequencePrependBoth<T>(xs: seq<T>, ys: seq<T>, y: T)
    requires SubsequenceOf(xs, ys)
    ensures SubsequenceOf([y] + xs, [y] + ys)
    decreases |ys|
  {
    var xs' := [y] + xs;
    var ys' := [y] + ys;
    if ys == [] {
      assert xs == [];
      assert xs'[..0] == [] && ys'[..0] == [];
    } else {
      assert ys'[..|ys'| - 1] == [y] + ys[..|ys| - 1];
      if xs == [] {
        if y != ys[|ys| - 1] {
          SubsequencePrependBoth(xs, ys[..|ys| - 1], y);
        } else {
          assert xs'[..|xs'| - 1] == [];
        }
      } else {
        assert xs'[..|xs'| - 1] == [y] + xs[..|xs| - 1];
        if xs[|xs| - 1] == ys[|ys| - 1] {
          SubsequencePrependBoth(xs[..|xs| - 1], ys[..|ys| - 1], y);
        } else {
          SubsequencePrependBoth(xs, ys[..|ys| - 1], y);
        }
      }
    }
  }

  /** The filter's output is an order-preserving subsequence of its input. */
  lemma {:induction false} FilterIsSubsequence(tiles: seq<seq<Option<Tile>>>, sizeX: int, sizeY: int, coords: seq<OddR>,
                                               side: Option<Side>, mode: SelectTargetMode, featureTargetable: bool)
    requires FilterCoords(tiles, sizeX, sizeY, coords, side, mode, featureTargetable).Ok?
    ensures SubsequenceOf(FilterCoords(tiles, sizeX, sizeY, coords, side, mode, featureTargetable).value, coords)
    decreases |coords|
  {
    if coords != [] {
      var init := coords[..|coords| - 1];
      var last := coords[|coords| - 1];
      var kept := FilterCoords(tiles, sizeX, sizeY, init, side, mode, featureTargetable).value;
      FilterIsSubsequence(tiles, sizeX, sizeY, init, side, mode, featureTargetable);
      assert init + [last] == coords;
      var r := FilterCoords(tiles, sizeX, sizeY, coords, side, mode, featureTargetable).value;
      if r == kept {
        SubsequenceGrow(kept, init, last);
      } else {
        assert r == kept + [last];
        assert r[..|r| - 1] == kept;
      }
    }
  }

  /** A coordinate is kept exactly when it is in the input, its tile exists
      and the tile passes the mode's test; in particular a coordinate without
      a tile is never returned. */
  lemma {:induction false} FilterMembers(tiles: seq<seq<Option<Tile>>>, sizeX: int, sizeY: int, coords: seq<OddR>,
                                         side: Option<Side>, mode: SelectTargetMode, featureTargetable: bool, c: OddR)
    requires FilterCoords(tiles, sizeX, sizeY, coords, side, mode, featureTargetable).Ok?
    ensures c in FilterCoords(tiles, sizeX, sizeY, coords, side, mode, featureTargetable).value
            <==> c in coords && TileAt(tiles, sizeX, sizeY, c).Ok? && TileAt(tiles, sizeX, sizeY, c).value.Some?
                 && Targetable(TileAt(tiles, sizeX, sizeY, c).value.value, side, mode, featureTargetable)
    decreases |coords|
  {
    if coords != [] {
      var init := coords[..|coords| - 1];
      FilterMembers(tiles, sizeX, sizeY, init, side, mode, featureTargetable, c);
      assert init + [coords[|coords| - 1]] == coords;
    }
  }

  /** Without feature targeting, the features on a tile never decide: any
      feature list gives the same answer. */
  lemma FeaturesIgnoredWhenUntargetable(t: Tile, fs: seq<Feature>, side: Option<Side>, mode: SelectTargetMode)
    ensures Targetable(t, side, mode, false) == Targetable(t.(features := fs), side, mode, false)
  {
  }

  /** ENEMY and ALLY split the entities of a tile by side: every entity is
      counted by exactly one of the two tests, whatever its health. */
  lemma EnemyOrAlly(t: Tile, side: Option<Side>)
    requires t.entities != []
    ensures Targetable(t, side, EnemyMode, false) || Targetable(t, side, AllyMode, false)
    ensures |t.entities| == 1 ==> !(Targetable(t, side, EnemyMode, false) && Targetable(t, side, AllyMode, false))
  {
    if t.entities[0].side == side {
      assert EntityOfSide(t.entities, side);
    } else {
      assert EntityOfOtherSide(t.entities, side);
    }
  }

  /** Every enemy-with-health tile is an enemy tile, and every enemy or ally
      tile is an ANY tile. */
  lemma ModesNest(t: Tile, side: Option<Side>, featureTargetable: bool)
    ensures Targetable(t, side, EnemyWithHpMode, featureTargetable) ==> Targetable(t, side, EnemyMode, featureTargetable)
    ensures Targetable(t, side, EnemyMode, featureTargetable) ==> Targetable(t, side, AnyMode, featureTargetable)
    ensures Targetable(t, side, AllyMode, featureTargetable) ==> Targetable(t, side, AnyMode, featureTargetable)
  {
    if EnemyEntityWithHp(t.entities, side) {
      var i :| 0 <= i < |t.entities| && t.entities[i].side != side && t.entities[i].health.Some?;
      assert EntityOfOtherSide(t.entities, side);
    }
    if featureTargetable && EnemyFeatureWithHp(t.features, side) {
      var i :| 0 <= i < |t.features| && t.features[i].side != side && t.features[i].health.Some?;
      assert FeatureOfOtherSide(t.features, side);
    }
  }

  /** The skill callback `select_targets` builds from an iterable of
      callbacks: they run in order, and the first whose result is not SUCCESS
      raises ShortHandSkillCallbackError. `outcomes[i]` is what the i-th
      callback returns when it runs; `ran` is how many ran. */
  method RunShorthand(outcomes: seq<SkillResult>) returns (r: Result<SkillResult>, ran: nat)
    ensures ran <= |outcomes|
    ensures forall i :: 0 <= i < ran - 1 ==> outcomes[i] == Completed(Success)
    ensures r.Ok? <==> forall i :: 0 <= i < |outcomes| ==> outcomes[i] == Completed(Success)
    ensures r.Ok? ==> r.value == Completed(Success) && ran == |outcomes|
    ensures r.Err? ==> r.error == ShortHandSkillCallback && ran >= 1 && outcomes[ran - 1] != Completed(Success)
  {
    ran := 0;
    while ran < |outcomes|
      invariant ran <= |outcomes|
      invariant forall i :: 0 <= i < ran ==> outcomes[i] == Completed(Success)
    {
      var result := outcomes[ran];
      ran := ran + 1;
      if result != Completed(Success) {
        return Err(ShortHandSkillCallback), ran;
      }
    }
    return Ok(Completed(Success)), ran;
  }

  /** `select_targets(board, rodent, skill, callback, target_count, ...)`:
      a targeting request whose candidates are the filtered attackable
      coordinates of the rodent's skill. `attackable` is what
      `board.get_attackable_coords(rodent, skill)` returns. */
  method SelectTargets(board: Board, rodent: Entity, skill: EntitySkill, attackable: seq<OddR>, targetCount: nat,
                       featureTargetable: bool, mode: SelectTargetMode) returns (r: Result<SkillResult>)
    ensures r.Ok? <==> FilterCoords(board.tiles, board.sizeX, board.sizeY, attackable, rodent.side, mode, featureTargetable).Ok?
    ensures r.Ok? ==> r.value.Targeting? && r.value.targetCount == targetCount
                      && r.value.sourceEntity == rodent && r.value.sourceSkill == skill
                      && r.value.availableTargets
                         == FilterCoords(board.tiles, board.sizeX, board.sizeY, attackable, rodent.side, mode, featureTargetable).value
                      && SubsequenceOf(r.value.availableTargets, attackable)
                      && forall c :: c in r.value.availableTargets ==> c in attackable
  {
    var targets := FilterTargetableCoords(board, attackable, rodent.side, mode, featureTargetable);
    if targets.Err? {
      return Err(targets.error);
    }
    FilterIsSubsequence(board.tiles, board.sizeX, board.sizeY, attackable, rodent.side, mode, featureTargetable);
    forall c | c in targets.value
      ensures c in attackable
    {
      FilterMembers(board.tiles, board.sizeX, board.sizeY, attackable, rodent.side, mode, featureTargetable, c);
    }
    return Ok(Targeting(targetCount, targets.value, rodent, skill));
  }
}
