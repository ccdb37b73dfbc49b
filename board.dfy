/** The game board (board.py): the tile grid copied from a map, the caches of
    entities and features by role and side, tile lookup, the movement-blocking
    rule and moving an entity along a path. */
module Boards {
  import opened Wrappers
  import opened Sides
  import opened Hexagon
  import opened Entities
  import opened Features
  import opened Tiles
  import opened CommonFeatures
  import opened Timers
  import Maps

  /** `ENTITY_JUMP_HEIGHT` of entities/rodent.py: the default greatest climb. */
  const EntityJumpHeight := 1

  // ---------------------------------------------------------------------------
  // Tile lookup

  /** `get_tile(coord)` on a grid whose stored sizes are sizeX and sizeY: None
      outside [0, sizeX) x [0, sizeY); otherwise `tiles[y][x]`, which raises
      IndexError when that row is shorter than sizeX. */
  function TileAt(tiles: seq<seq<Option<Tile>>>, sizeX: int, sizeY: int, c: OddR): (r: Result<Option<Tile>>)
    ensures r == Ok(None) <== !(0 <= c.x < sizeX && 0 <= c.y < sizeY)
    ensures r.Err? ==> r.error == IndexError && 0 <= c.y < sizeY && 0 <= c.x < sizeX
    ensures r.Ok? && r.value.Some? ==>
              0 <= c.y < |tiles| && 0 <= c.x < |tiles[c.y]| && tiles[c.y][c.x] == r.value
    ensures 0 <= c.x < sizeX && 0 <= c.y < sizeY && c.y < |tiles| && c.x < |tiles[c.y]| ==>
              r == Ok(tiles[c.y][c.x])
  {
    if c.x < 0 || c.x >= sizeX then Ok(None)
    else if c.y < 0 || c.y >= sizeY then Ok(None)
    else if c.y < |tiles| && c.x < |tiles[c.y]| then Ok(tiles[c.y][c.x])
    else Err(IndexError)
  }

  /** Every row of the grid has sizeX cells and there are sizeY rows. */
  predicate Rectangular(tiles: seq<seq<Option<Tile>>>, sizeX: int, sizeY: int)
  {
    sizeY == |tiles| && forall y :: 0 <= y < |tiles| ==> |tiles[y]| == sizeX
  }

  /** On a rectangular grid the lookup never raises, and it finds a tile
      exactly inside the bounds (where the grid holds one). */
  lemma TileAtRectangular(tiles: seq<seq<Option<Tile>>>, sizeX: int, sizeY: int, c: OddR)
    requires Rectangular(tiles, sizeX, sizeY)
    ensures TileAt(tiles, sizeX, sizeY, c).Ok?
    ensures TileAt(tiles, sizeX, sizeY, c).value.Some? <==>
              0 <= c.x < sizeX && 0 <= c.y < sizeY && tiles[c.y][c.x].Some?
  {
  }

  /** `_is_coord_blocked(collision, side, custom_jump_height)` applied to
      (target, source): blocked when the target tile is missing, when a
      colliding mover meets a colliding entity, when a feature on the target
      collides, when the source tile is missing, or when the climb exceeds the
      jump height (`ENTITY_JUMP_HEIGHT` when none is given). The two total
      heights are those of tile.py's `get_total_height`, which raises
      ValueError for a tile without entities; it takes no side argument,
      though the board passes one, and the side is taken to be ignored. */
  function IsCoordBlocked(tiles: seq<seq<Option<Tile>>>, sizeX: int, sizeY: int, collision: bool,
                          customJumpHeight: Option<int>, target: OddR, source: OddR): (r: Result<bool>)
    reads *
    ensures TileAt(tiles, sizeX, sizeY, target) == Ok(None) ==> r == Ok(true)
    ensures (TileAt(tiles, sizeX, sizeY, target).Ok? && TileAt(tiles, sizeX, sizeY, target).value.Some?
             && TileCollides(TileAt(tiles, sizeX, sizeY, target).value.value, collision)) ==> r == Ok(true)
    ensures r.Err? ==> r.error == IndexError || r.error == ValueError
  {
    var jump := if customJumpHeight.Some? then customJumpHeight.value else EntityJumpHeight;
    match TileAt(tiles, sizeX, sizeY, target)
    case Err(e) => Err(e)
    case Ok(None) => Ok(true)
    case Ok(Some(t)) =>
      if collision && HasCollidingEntity(t) then Ok(true)
      else if HasCollidingFeature(t) then Ok(true)
      else match TileAt(tiles, sizeX, sizeY, source)
        case Err(e) => Err(e)
        case Ok(None) => Ok(true)
        case Ok(Some(s)) =>
          match TotalHeightAsWritten(t)
          case Err(e) => Err(e)
          case Ok(th) =>
            match TotalHeightAsWritten(s)
            case Err(e) => Err(e)
            case Ok(sh) => Ok(th - sh > jump)
  }

  /** Between two present tiles that nothing on the target makes impassable,
      the step raises ValueError when either tile holds no entity, and is
      otherwise blocked exactly when the climb exceeds the jump height. */
  lemma BlockedOnlyByClimb(tiles: seq<seq<Option<Tile>>>, sizeX: int, sizeY: int, collision: bool,
                           target: OddR, source: OddR, t: Tile, s: Tile)
    requires TileAt(tiles, sizeX, sizeY, target) == Ok(Some(t)) && !TileCollides(t, collision)
    requires TileAt(tiles, sizeX, sizeY, source) == Ok(Some(s))
    ensures t.entities == [] || s.entities == [] ==>
              IsCoordBlocked(tiles, sizeX, sizeY, collision, None, target, source) == Err(ValueError)
    ensures t.entities != [] && s.entities != [] ==>
              IsCoordBlocked(tiles, sizeX, sizeY, collision, None, target, source)
              == Ok(TotalHeight(t) - TotalHeight(s) > EntityJumpHeight)
  {
  }

  /** Between tiles that both hold entities, descending or climbing by at
      most one is never blocked with the default jump height; climbing by two
      always is. */
  lemma DefaultJumpHeight(tiles: seq<seq<Option<Tile>>>, sizeX: int, sizeY: int, collision: bool,
                          target: OddR, source: OddR, t: Tile, s: Tile)
    requires TileAt(tiles, sizeX, sizeY, target) == Ok(Some(t)) && !TileCollides(t, collision)
    requires TileAt(tiles, sizeX, sizeY, source) == Ok(Some(s))
    ensures t.entities != [] && s.entities != [] && TotalHeight(t) <= TotalHeight(s) + 1 ==>
              IsCoordBlocked(tiles, sizeX, sizeY, collision, None, target, source) == Ok(false)
    ensures t.entities != [] && s.entities != [] && TotalHeight(t) >= TotalHeight(s) + 2 ==>
              IsCoordBlocked(tiles, sizeX, sizeY, collision, None, target, source) == Ok(true)
  {
    BlockedOnlyByClimb(tiles, sizeX, sizeY, collision, target, source, t, s);
  }

  /** The check loop of `try_move` over path[i..]: IndexError from a short
      row, false at the first missing or colliding tile, true when every
      tile is present and free. */
  function ScanPath(tiles: seq<seq<Option<Tile>>>, sizeX: int, sizeY: int, path: seq<OddR>,
                    collision: bool, i: nat): (r: Result<bool>)
    requires i <= |path|
    ensures r.Err? ==> r.error == IndexError
    ensures r == Ok(true) && i < |path| ==> HasTileAt(tiles, path[|path| - 1])
    decreases |path| - i
  {
    if i == |path| then Ok(true)
    else match TileAt(tiles, sizeX, sizeY, path[i])
      case Err(e) => Err(e)
      case Ok(None) => Ok(false)
      case Ok(Some(t)) => if TileCollides(t, collision) then Ok(false)
                          else ScanPath(tiles, sizeX, sizeY, path, collision, i + 1)
  }

  /** Every tile of the path from index i on is present and free. */
  predicate PathFree(tiles: seq<seq<Option<Tile>>>, sizeX: int, sizeY: int, path: seq<OddR>,
                     collision: bool, i: nat)
  {
    forall j :: i <= j < |path| ==>
      TileAt(tiles, sizeX, sizeY, path[j]).Ok? && TileAt(tiles, sizeX, sizeY, path[j]).value.Some?
      && !TileCollides(TileAt(tiles, sizeX, sizeY, path[j]).value.value, collision)
  }

  /** The scan accepts the path exactly when every tile on it is present and
      free, and rejects it only when some tile is missing or colliding. */
  lemma {:induction false} ScanPathMeaning(tiles: seq<seq<Option<Tile>>>, sizeX: int, sizeY: int,
                                           path: seq<OddR>, collision: bool, i: nat)
    requires i <= |path|
    ensures ScanPath(tiles, sizeX, sizeY, path, collision, i) == Ok(true)
            <==> PathFree(tiles, sizeX, sizeY, path, collision, i)
    ensures ScanPath(tiles, sizeX, sizeY, path, collision, i) == Ok(false) ==>
              exists j :: i <= j < |path| && (TileAt(tiles, sizeX, sizeY, path[j]) == Ok(None)
                || (TileAt(tiles, sizeX, sizeY, path[j]).Ok? && TileAt(tiles, sizeX, sizeY, path[j]).value.Some?
                    && TileCollides(TileAt(tiles, sizeX, sizeY, path[j]).value.value, collision)))
    decreases |path| - i
  {
    if i < |path| {
      ScanPathMeaning(tiles, sizeX, sizeY, path, collision, i + 1);
    }
  }

  // ---------------------------------------------------------------------------
  // Lists keyed by side, and list removal

  /** A default-dictionary read: a missing key holds the empty list. */
  function ListOf<K, V>(m: map<K, seq<V>>, k: K): seq<V>
  {
    if k in m then m[k] else []
  }

  /** `list.remove(x)` on a list that holds x: its first occurrence goes. */
  function RemoveFirst<T(==)>(xs: seq<T>, x: T): (r: seq<T>)
    requires x in xs
    ensures multiset(r) == multiset(xs) - multiset{x}
    ensures |r| == |xs| - 1
  {
    if xs[0] == x then
      assert xs == [xs[0]] + xs[1..];
      xs[1..]
    else
      assert xs == [xs[0]] + xs[1..];
      [xs[0]] + RemoveFirst(xs[1..], x)
  }

  /** Removing an element appended to a list that did not hold it gives the
      list back. */
  lemma {:induction false} RemoveFirstAppended<T>(xs: seq<T>, x: T)
    requires x !in xs
    ensures x in xs + [x] && RemoveFirst(xs + [x], x) == xs
  {
    if xs != [] {
      assert (xs + [x])[0] == xs[0] && (xs + [x])[1..] == xs[1..] + [x];
      RemoveFirstAppended(xs[1..], x);
      assert [xs[0]] + xs[1..] == xs;
    }
  }

  // ---------------------------------------------------------------------------
  // The entity caches that `add_entity` and `remove_entity` keep

  /** The entity lists of the cache. */
  datatype EntityCache = EntityCache(
    rodents: seq<Entity>,
    sides: map<Option<Side>, seq<Entity>>,
    entities: seq<Entity>,
    entitiesWithHp: seq<Entity>,
    sidesWithHp: map<Option<Side>, seq<Entity>>,
    entitiesWithTurnChange: seq<Entity>,
    entitiesInFeatures: map<Entity, seq<Feature>>)

  /** The cache updates of `add_entity` for an entity whose health is, or is
      not, None (`hasHp`). */
  function AddToCache(c: EntityCache, e: Entity, hasHp: bool): (r: EntityCache)
    ensures r.entities == c.entities + [e]
  {
    var c1 := c.(entities := c.entities + [e],
                 sides := c.sides[e.side := ListOf(c.sides, e.side) + [e]]);
    var c2 := if hasHp then c1.(entitiesWithHp := c1.entitiesWithHp + [e],
                                sidesWithHp := c1.sidesWithHp[e.side := ListOf(c1.sidesWithHp, e.side) + [e]])
              else c1;
    var c3 := if e.isRodent then c2.(rodents := c2.rodents + [e]) else c2;
    if e.hasTurnChangeHook then c3.(entitiesWithTurnChange := c3.entitiesWithTurnChange + [e]) else c3
  }

  /** What `add_entity` appends to each list of the cache: the entity goes to
      the end of the entity list and of its side's list, of the two health
      lists exactly when its health is not None, of the rodent list exactly
      when it is a rodent and of the turn-change list exactly when it has a
      turn-change hook; no other list changes. */
  lemma AddedLists(c: EntityCache, e: Entity, hasHp: bool)
    ensures AddToCache(c, e, hasHp).entities == c.entities + [e]
    ensures ListOf(AddToCache(c, e, hasHp).sides, e.side) == ListOf(c.sides, e.side) + [e]
    ensures forall k :: k != e.side ==> ListOf(AddToCache(c, e, hasHp).sides, k) == ListOf(c.sides, k)
    ensures AddToCache(c, e, hasHp).entitiesWithHp == if hasHp then c.entitiesWithHp + [e] else c.entitiesWithHp
    ensures ListOf(AddToCache(c, e, hasHp).sidesWithHp, e.side)
            == if hasHp then ListOf(c.sidesWithHp, e.side) + [e] else ListOf(c.sidesWithHp, e.side)
    ensures forall k :: k != e.side ==> ListOf(AddToCache(c, e, hasHp).sidesWithHp, k) == ListOf(c.sidesWithHp, k)
    ensures AddToCache(c, e, hasHp).rodents == if e.isRodent then c.rodents + [e] else c.rodents
    ensures AddToCache(c, e, hasHp).entitiesWithTurnChange
            == if e.hasTurnChangeHook then c.entitiesWithTurnChange + [e] else c.entitiesWithTurnChange
    ensures AddToCache(c, e, hasHp).entitiesInFeatures == c.entitiesInFeatures
  {
  }

  /** One `list.remove` step of `remove_entity`: ValueError when the entity
      is not there, the cache unchanged by this step. */
  datatype Removal = Removal(cache: EntityCache, result: Result<()>)

  /** `sides[side].remove(e)` on a default dictionary: reading the key creates
      it (with an empty list) before the removal may raise. */
  function RemoveKeyed(m: map<Option<Side>, seq<Entity>>, e: Entity): (r: Option<map<Option<Side>, seq<Entity>>>)
    ensures r.Some? <==> e in ListOf(m, e.side)
    ensures r.Some? ==> ListOf(r.value, e.side) == RemoveFirst(ListOf(m, e.side), e)
                        && forall k :: k != e.side ==> ListOf(r.value, k) == ListOf(m, k)
  {
    if e in ListOf(m, e.side) then Some(m[e.side := RemoveFirst(ListOf(m, e.side), e)]) else None
  }

  /** The cache updates of `remove_entity`, in the order of the source; the
      first missing list entry raises ValueError and leaves the earlier steps
      done. */
  function RemoveFromCache(c: EntityCache, e: Entity, hasHp: bool): (r: Removal)
    ensures r.result.Err? ==> r.result.error == ValueError
    ensures r.result.Ok? <==>
              e in c.entities && e in ListOf(c.sides, e.side)
              && (hasHp ==> e in c.entitiesWithHp && e in ListOf(c.sidesWithHp, e.side))
              && (e.isRodent ==> e in c.rodents)
              && (e.hasTurnChangeHook ==> e in c.entitiesWithTurnChange)
  {
    if e !in c.entities then Removal(c, Err(ValueError))
    else
      var c1 := c.(entities := RemoveFirst(c.entities, e));
      match RemoveKeyed(c1.sides, e)
      case None => Removal(c1.(sides := c1.sides[e.side := ListOf(c1.sides, e.side)]), Err(ValueError))
      case Some(sides) =>
        var c2 := c1.(sides := sides, entitiesInFeatures := c1.entitiesInFeatures - {e});
        var s3 := RemoveHp(c2, e, hasHp);
        if s3.result.Err? then s3
        else
          var c3 := s3.cache;
          if e.isRodent && e !in c3.rodents then Removal(c3, Err(ValueError))
          else
            var c4 := if e.isRodent then c3.(rodents := RemoveFirst(c3.rodents, e)) else c3;
            if e.hasTurnChangeHook && e !in c4.entitiesWithTurnChange then Removal(c4, Err(ValueError))
            else if e.hasTurnChangeHook
            then Removal(c4.(entitiesWithTurnChange := RemoveFirst(c4.entitiesWithTurnChange, e)), Ok(()))
            else Removal(c4, Ok(()))
  }

  /** A successful removal takes the first copy of the entity out of every
      list `add_entity` put it in, and drops its entry of features. */
  lemma RemovedLists(c: EntityCache, e: Entity, hasHp: bool)
    requires RemoveFromCache(c, e, hasHp).result.Ok?
    ensures var r := RemoveFromCache(c, e, hasHp).cache;
              e in c.entities && r.entities == RemoveFirst(c.entities, e)
              && e in ListOf(c.sides, e.side)
              && ListOf(r.sides, e.side) == RemoveFirst(ListOf(c.sides, e.side), e)
              && (forall k :: k != e.side ==> ListOf(r.sides, k) == ListOf(c.sides, k))
              && r.entitiesInFeatures == c.entitiesInFeatures - {e}
              && (hasHp ==> e in c.entitiesWithHp && e in ListOf(c.sidesWithHp, e.side))
              && r.entitiesWithHp == (if hasHp then RemoveFirst(c.entitiesWithHp, e) else c.entitiesWithHp)
              && ListOf(r.sidesWithHp, e.side)
                 == (if hasHp then RemoveFirst(ListOf(c.sidesWithHp, e.side), e) else ListOf(c.sidesWithHp, e.side))
              && (forall k :: k != e.side ==> ListOf(r.sidesWithHp, k) == ListOf(c.sidesWithHp, k))
              && (e.isRodent ==> e in c.rodents)
              && r.rodents == (if e.isRodent then RemoveFirst(c.rodents, e) else c.rodents)
              && (e.hasTurnChangeHook ==> e in c.entitiesWithTurnChange)
              && r.entitiesWithTurnChange
                 == (if e.hasTurnChangeHook then RemoveFirst(c.entitiesWithTurnChange, e) else c.entitiesWithTurnChange)
  {
  }

  /** The health-list steps of `remove_entity`. */
  function RemoveHp(c: EntityCache, e: Entity, hasHp: bool): (r: Removal)
    ensures r.result.Err? ==> r.result.error == ValueError
    ensures r.result.Ok? <==> (hasHp ==> e in c.entitiesWithHp && e in ListOf(c.sidesWithHp, e.side))
    ensures r.cache.rodents == c.rodents && r.cache.entitiesWithTurnChange == c.entitiesWithTurnChange
    ensures r.cache.entities == c.entities && r.cache.sides == c.sides
    ensures r.cache.entitiesInFeatures == c.entitiesInFeatures
    ensures r.result.Ok? ==>
              r.cache.entitiesWithHp == (if hasHp then RemoveFirst(c.entitiesWithHp, e) else c.entitiesWithHp)
              && ListOf(r.cache.sidesWithHp, e.side)
                 == (if hasHp then RemoveFirst(ListOf(c.sidesWithHp, e.side), e) else ListOf(c.sidesWithHp, e.side))
              && (forall k :: k != e.side ==> ListOf(r.cache.sidesWithHp, k) == ListOf(c.sidesWithHp, k))
  {
    if !hasHp then Removal(c, Ok(()))
    else if e !in c.entitiesWithHp then Removal(c, Err(ValueError))
    else
      var c1 := c.(entitiesWithHp := RemoveFirst(c.entitiesWithHp, e));
      match RemoveKeyed(c1.sidesWithHp, e)
      case None => Removal(c1.(sidesWithHp := c1.sidesWithHp[e.side := ListOf(c1.sidesWithHp, e.side)]),
                           Err(ValueError))
      case Some(m) => Removal(c1.(sidesWithHp := m), Ok(()))
  }

  /** Two caches whose lists agree under default-dictionary reads. */
  ghost predicate SameLists(a: EntityCache, b: EntityCache)
  {
    a.rodents == b.rodents && a.entities == b.entities && a.entitiesWithHp == b.entitiesWithHp
    && a.entitiesWithTurnChange == b.entitiesWithTurnChange && a.entitiesInFeatures == b.entitiesInFeatures
    && (forall k :: ListOf(a.sides, k) == ListOf(b.sides, k))
    && (forall k :: ListOf(a.sidesWithHp, k) == ListOf(b.sidesWithHp, k))
  }

  /** `remove_entity` undoes exactly the insertions of `add_entity` for an
      entity the cache did not hold. */
  lemma RemoveUndoesAdd(c: EntityCache, e: Entity, hasHp: bool)
    requires e !in c.entities && e !in ListOf(c.sides, e.side) && e !in c.entitiesWithHp
    requires e !in ListOf(c.sidesWithHp, e.side) && e !in c.rodents && e !in c.entitiesWithTurnChange
    requires e !in c.entitiesInFeatures
    ensures RemoveFromCache(AddToCache(c, e, hasHp), e, hasHp).result == Ok(())
    ensures SameLists(RemoveFromCache(AddToCache(c, e, hasHp), e, hasHp).cache, c)
  {
    var a := AddToCache(c, e, hasHp);
    AddedLists(c, e, hasHp);
    AddedOnce(c, a, e, hasHp);
    var r := RemoveFromCache(a, e, hasHp);
    assert r.result.Ok?;
    RemovedLists(a, e, hasHp);
    RemovedRestores(c, a, r.cache, e, hasHp);
  }

  /** Each list `add_entity` appended to holds the entity once, at its end. */
  lemma AddedOnce(c: EntityCache, a: EntityCache, e: Entity, hasHp: bool)
    requires e !in c.entities && e !in ListOf(c.sides, e.side) && e !in c.entitiesWithHp
    requires e !in ListOf(c.sidesWithHp, e.side) && e !in c.rodents && e !in c.entitiesWithTurnChange
    requires a == AddToCache(c, e, hasHp)
    ensures e in a.entities && e in ListOf(a.sides, e.side)
    ensures hasHp ==> e in a.entitiesWithHp && e in ListOf(a.sidesWithHp, e.side)
    ensures e.isRodent ==> e in a.rodents
    ensures e.hasTurnChangeHook ==> e in a.entitiesWithTurnChange
    ensures RemoveFirst(a.entities, e) == c.entities
    ensures RemoveFirst(ListOf(a.sides, e.side), e) == ListOf(c.sides, e.side)
    ensures hasHp ==> RemoveFirst(a.entitiesWithHp, e) == c.entitiesWithHp
    ensures hasHp ==> RemoveFirst(ListOf(a.sidesWithHp, e.side), e) == ListOf(c.sidesWithHp, e.side)
    ensures e.isRodent ==> RemoveFirst(a.rodents, e) == c.rodents
    ensures e.hasTurnChangeHook ==> RemoveFirst(a.entitiesWithTurnChange, e) == c.entitiesWithTurnChange
  {
    AddedLists(c, e, hasHp);
    RemoveFirstAppended(c.entities, e);
    RemoveFirstAppended(ListOf(c.sides, e.side), e);
    RemoveFirstAppended(c.entitiesWithHp, e);
    RemoveFirstAppended(ListOf(c.sidesWithHp, e.side), e);
    RemoveFirstAppended(c.rodents, e);
    RemoveFirstAppended(c.entitiesWithTurnChange, e);
  }

  /** The lists after a successful removal from `a` equal those of `c`, when
      `a` is `c` with the entity appended. */
  lemma RemovedRestores(c: EntityCache, a: EntityCache, r: EntityCache, e: Entity, hasHp: bool)
    requires e in a.entities && e in ListOf(a.sides, e.side)
    requires hasHp ==> e in a.entitiesWithHp && e in ListOf(a.sidesWithHp, e.side)
    requires e.isRodent ==> e in a.rodents
    requires e.hasTurnChangeHook ==> e in a.entitiesWithTurnChange
    requires RemoveFirst(a.entities, e) == c.entities
    requires RemoveFirst(ListOf(a.sides, e.side), e) == ListOf(c.sides, e.side)
    requires forall k :: k != e.side ==> ListOf(a.sides, k) == ListOf(c.sides, k)
    requires a.entitiesWithHp == (if hasHp then c.entitiesWithHp + [e] else c.entitiesWithHp)
    requires hasHp ==> RemoveFirst(a.entitiesWithHp, e) == c.entitiesWithHp
    requires ListOf(a.sidesWithHp, e.side)
             == (if hasHp then ListOf(c.sidesWithHp, e.side) + [e] else ListOf(c.sidesWithHp, e.side))
    requires hasHp ==> RemoveFirst(ListOf(a.sidesWithHp, e.side), e) == ListOf(c.sidesWithHp, e.side)
    requires forall k :: k != e.side ==> ListOf(a.sidesWithHp, k) == ListOf(c.sidesWithHp, k)
    requires a.rodents == (if e.isRodent then c.rodents + [e] else c.rodents)
    requires e.isRodent ==> RemoveFirst(a.rodents, e) == c.rodents
    requires a.entitiesWithTurnChange
             == (if e.hasTurnChangeHook then c.entitiesWithTurnChange + [e] else c.entitiesWithTurnChange)
    requires e.hasTurnChangeHook ==> RemoveFirst(a.entitiesWithTurnChange, e) == c.entitiesWithTurnChange
    requires a.entitiesInFeatures == c.entitiesInFeatures && e !in c.entitiesInFeatures
    requires r.entities == RemoveFirst(a.entities, e)
    requires ListOf(r.sides, e.side) == RemoveFirst(ListOf(a.sides, e.side), e)
    requires forall k :: k != e.side ==> ListOf(r.sides, k) == ListOf(a.sides, k)
    requires r.entitiesInFeatures == a.entitiesInFeatures - {e}
    requires r.entitiesWithHp == (if hasHp then RemoveFirst(a.entitiesWithHp, e) else a.entitiesWithHp)
    requires ListOf(r.sidesWithHp, e.side)
             == (if hasHp then RemoveFirst(ListOf(a.sidesWithHp, e.side), e) else ListOf(a.sidesWithHp, e.side))
    requires forall k :: k != e.side ==> ListOf(r.sidesWithHp, k) == ListOf(a.sidesWithHp, k)
    requires r.rodents == (if e.isRodent then RemoveFirst(a.rodents, e) else a.rodents)
    requires r.entitiesWithTurnChange
             == (if e.hasTurnChangeHook then RemoveFirst(a.entitiesWithTurnChange, e) else a.entitiesWithTurnChange)
    ensures SameLists(r, c)
  {
    MapMinusAbsent(c.entitiesInFeatures, e);
    forall k ensures ListOf(r.sides, k) == ListOf(c.sides, k) {
    }
    forall k ensures ListOf(r.sidesWithHp, k) == ListOf(c.sidesWithHp, k) {
    }
  }

  lemma MapMinusAbsent<K, V>(m: map<K, V>, k: K)
    requires k !in m
    ensures m - {k} == m
  {
    assert (m - {k}).Keys == m.Keys;
  }

  // ---------------------------------------------------------------------------
  // The cache invariant

  /** What a derived list of the cache selects from its source list. */
  datatype Criterion = SideIs(side: Option<Side>) | IsRodent | HasHook

  predicate Meets(x: Entity, c: Criterion)
  {
    match c
    case SideIs(k) => x.side == k
    case IsRodent => x.isRodent
    case HasHook => x.hasTurnChangeHook
  }

  /** The entities of es that meet the criterion, in their order in es. */
  function Filter(es: seq<Entity>, c: Criterion): (r: seq<Entity>)
    ensures forall x :: x in r ==> x in es && Meets(x, c)
    ensures forall x :: x in es && Meets(x, c) ==> x in r
  {
    if es == [] then []
    else (if Meets(es[0], c) then [es[0]] else []) + Filter(es[1..], c)
  }

  /** Filtering commutes with appending. */
  lemma {:induction false} FilterAppend(es: seq<Entity>, c: Criterion, e: Entity)
    ensures Filter(es + [e], c) == Filter(es, c) + (if Meets(e, c) then [e] else [])
  {
    if es != [] {
      assert (es + [e])[1..] == es[1..] + [e];
      FilterAppend(es[1..], c, e);
    }
  }

  /** Filtering commutes with `list.remove`: the first copy of e in the
      filtered list is the filtered first copy of e. */
  lemma {:induction false} FilterRemove(es: seq<Entity>, c: Criterion, e: Entity)
    requires e in es
    ensures Meets(e, c) ==> e in Filter(es, c)
    ensures Filter(RemoveFirst(es, e), c) == if Meets(e, c) then RemoveFirst(Filter(es, c), e) else Filter(es, c)
  {
    var tail := es[1..];
    var f := Filter(es, c);
    var ft := Filter(tail, c);
    if es[0] == e {
      assert RemoveFirst(es, e) == tail;
      if Meets(e, c) {
        assert f == [e] + ft;
        assert RemoveFirst(f, e) == ft;
      } else {
        assert f == ft;
      }
    } else {
      var rest := RemoveFirst(tail, e);
      FilterRemove(tail, c, e);
      assert RemoveFirst(es, e) == [es[0]] + rest;
      assert ([es[0]] + rest)[0] == es[0] && ([es[0]] + rest)[1..] == rest;
      if Meets(es[0], c) {
        assert f == [es[0]] + ft;
        assert Filter(RemoveFirst(es, e), c) == [es[0]] + Filter(rest, c);
        if Meets(e, c) {
          assert f[0] == es[0] && f[1..] == ft;
          assert RemoveFirst(f, e) == [es[0]] + RemoveFirst(ft, e);
        }
      } else {
        assert f == ft;
        assert Filter(RemoveFirst(es, e), c) == Filter(rest, c);
      }
    }
  }

  /** The entity lists agree with each other: `sides[s]` and
      `sides_with_hp[s]` hold exactly the entities of `entities` and
      `entities_with_hp` whose side is s, in their order; the health list is a
      part of the entity list; `rodents` and `entities_with_turn_change` hold
      exactly the rodents and the entities with a turn-change hook. */
  ghost predicate CacheInv(c: EntityCache)
  {
    (forall k :: ListOf(c.sides, k) == Filter(c.entities, SideIs(k)))
    && (forall k :: ListOf(c.sidesWithHp, k) == Filter(c.entitiesWithHp, SideIs(k)))
    && multiset(c.entitiesWithHp) <= multiset(c.entities)
    && c.rodents == Filter(c.entities, IsRodent)
    && c.entitiesWithTurnChange == Filter(c.entities, HasHook)
  }

  /** `add_entity` keeps the cache invariant. */
  lemma AddKeepsInv(c: EntityCache, e: Entity, hasHp: bool)
    requires CacheInv(c)
    ensures CacheInv(AddToCache(c, e, hasHp))
  {
    var a := AddToCache(c, e, hasHp);
    AddedLists(c, e, hasHp);
    SidesAfterAdd(c.sides, a.sides, c.entities, e);
    if hasHp {
      SidesAfterAdd(c.sidesWithHp, a.sidesWithHp, c.entitiesWithHp, e);
    }
    FilterAppend(c.entities, IsRodent, e);
    FilterAppend(c.entities, HasHook, e);
  }

  /** Appending e to the list of its side keeps every side's list the
      filter of the longer entity list. */
  lemma SidesAfterAdd(m: map<Option<Side>, seq<Entity>>, m2: map<Option<Side>, seq<Entity>>, es: seq<Entity>, e: Entity)
    requires forall k :: ListOf(m, k) == Filter(es, SideIs(k))
    requires ListOf(m2, e.side) == ListOf(m, e.side) + [e]
    requires forall k :: k != e.side ==> ListOf(m2, k) == ListOf(m, k)
    ensures forall k :: ListOf(m2, k) == Filter(es + [e], SideIs(k))
  {
    forall k ensures ListOf(m2, k) == Filter(es + [e], SideIs(k)) {
      FilterAppend(es, SideIs(k), e);
    }
  }


  /** Under the cache invariant, `remove_entity` of an entity the cache holds
      succeeds and keeps the invariant, provided the health list does not hold
      as many copies of it as the entity list when its health is None (which
      happens when its health was set to None after it was added). */
  lemma RemoveKeepsInv(c: EntityCache, e: Entity, hasHp: bool)
    requires CacheInv(c)
    requires e in c.entities
    requires hasHp ==> e in c.entitiesWithHp
    requires !hasHp ==> multiset(c.entitiesWithHp)[e] < multiset(c.entities)[e]
    ensures RemoveFromCache(c, e, hasHp).result == Ok(())
    ensures CacheInv(RemoveFromCache(c, e, hasHp).cache)
  {
    InvMembers(c, e, hasHp);
    var r := RemoveFromCache(c, e, hasHp);
    assert r.result.Ok?;
    RemovedLists(c, e, hasHp);
    InvAfterRemoval(c, r.cache, e, hasHp);
  }

  /** Under the invariant, an entity of the entity list is in every list
      `add_entity` would have put it in. */
  lemma InvMembers(c: EntityCache, e: Entity, hasHp: bool)
    requires CacheInv(c)
    requires e in c.entities
    requires hasHp ==> e in c.entitiesWithHp
    ensures e in ListOf(c.sides, e.side)
    ensures hasHp ==> e in ListOf(c.sidesWithHp, e.side)
    ensures e.isRodent ==> e in c.rodents
    ensures e.hasTurnChangeHook ==> e in c.entitiesWithTurnChange
  {
    assert ListOf(c.sides, e.side) == Filter(c.entities, SideIs(e.side));
    assert ListOf(c.sidesWithHp, e.side) == Filter(c.entitiesWithHp, SideIs(e.side));
  }

  /** The invariant holds after the list updates of a successful removal. */
  lemma InvAfterRemoval(c: EntityCache, r: EntityCache, e: Entity, hasHp: bool)
    requires CacheInv(c)
    requires e in c.entities && e in ListOf(c.sides, e.side)
    requires hasHp ==> e in c.entitiesWithHp && e in ListOf(c.sidesWithHp, e.side)
    requires !hasHp ==> multiset(c.entitiesWithHp)[e] < multiset(c.entities)[e]
    requires e.isRodent ==> e in c.rodents
    requires e.hasTurnChangeHook ==> e in c.entitiesWithTurnChange
    requires r.entities == RemoveFirst(c.entities, e)
    requires ListOf(r.sides, e.side) == RemoveFirst(ListOf(c.sides, e.side), e)
    requires forall k :: k != e.side ==> ListOf(r.sides, k) == ListOf(c.sides, k)
    requires r.entitiesWithHp == (if hasHp then RemoveFirst(c.entitiesWithHp, e) else c.entitiesWithHp)
    requires ListOf(r.sidesWithHp, e.side)
             == (if hasHp then RemoveFirst(ListOf(c.sidesWithHp, e.side), e) else ListOf(c.sidesWithHp, e.side))
    requires forall k :: k != e.side ==> ListOf(r.sidesWithHp, k) == ListOf(c.sidesWithHp, k)
    requires r.rodents == (if e.isRodent then RemoveFirst(c.rodents, e) else c.rodents)
    requires r.entitiesWithTurnChange
             == (if e.hasTurnChangeHook then RemoveFirst(c.entitiesWithTurnChange, e) else c.entitiesWithTurnChange)
    ensures CacheInv(r)
  {
    SidesAfterRemoval(c.sides, r.sides, c.entities, e);
    if hasHp {
      SidesAfterRemoval(c.sidesWithHp, r.sidesWithHp, c.entitiesWithHp, e);
    }
    HpPartAfterRemoval(c.entitiesWithHp, c.entities, e, hasHp);
    FilterRemove(c.entities, IsRodent, e);
    FilterRemove(c.entities, HasHook, e);
  }

  /** Removing e from a list and from the per-side list of its side keeps
      every per-side list the filter of the list by that side. */
  lemma SidesAfterRemoval(sides: map<Option<Side>, seq<Entity>>, after: map<Option<Side>, seq<Entity>>,
                          es: seq<Entity>, e: Entity)
    requires e in es && e in ListOf(sides, e.side)
    requires forall k :: ListOf(sides, k) == Filter(es, SideIs(k))
    requires ListOf(after, e.side) == RemoveFirst(ListOf(sides, e.side), e)
    requires forall k :: k != e.side ==> ListOf(after, k) == ListOf(sides, k)
    ensures forall k :: ListOf(after, k) == Filter(RemoveFirst(es, e), SideIs(k))
  {
    forall k ensures ListOf(after, k) == Filter(RemoveFirst(es, e), SideIs(k)) {
      FilterRemove(es, SideIs(k), e);
    }
  }

  /** The health list stays a part of the entity list when e leaves the
      entity list, and the health list too when it holds e. */
  lemma HpPartAfterRemoval(hp: seq<Entity>, es: seq<Entity>, e: Entity, hasHp: bool)
    requires multiset(hp) <= multiset(es) && e in es
    requires hasHp ==> e in hp
    requires !hasHp ==> multiset(hp)[e] < multiset(es)[e]
    ensures multiset(if hasHp then RemoveFirst(hp, e) else hp) <= multiset(RemoveFirst(es, e))
  {
  }

  // ---------------------------------------------------------------------------
  // Entity lists of the grid's tiles

  /** The grid holds a tile at the cell of c. */
  predicate HasTileAt(tiles: seq<seq<Option<Tile>>>, c: OddR)
  {
    0 <= c.y < |tiles| && 0 <= c.x < |tiles[c.y]| && tiles[c.y][c.x].Some?
  }

  /** The entities standing on the tile at the cell of c. */
  function EntitiesAt(tiles: seq<seq<Option<Tile>>>, c: OddR): seq<Entity>
    requires HasTileAt(tiles, c)
  {
    tiles[c.y][c.x].value.entities
  }

  /** Two grids with the same rows, row lengths and cells holding a tile. */
  predicate SameLayout(t: seq<seq<Option<Tile>>>, u: seq<seq<Option<Tile>>>)
  {
    |t| == |u| && (forall y :: 0 <= y < |t| ==> |t[y]| == |u[y]|)
    && (forall y, x :: 0 <= y < |t| && 0 <= x < |t[y]| ==> t[y][x].Some? == u[y][x].Some?)
  }

  /** The grid after the tile at the cell of c has had its entity list
      replaced by es (an `append` or `remove` on that tile's list). */
  function WithEntities(tiles: seq<seq<Option<Tile>>>, c: OddR, es: seq<Entity>): (u: seq<seq<Option<Tile>>>)
    requires HasTileAt(tiles, c)
    ensures SameLayout(tiles, u) && HasTileAt(u, c)
    ensures u[c.y][c.x] == Some(tiles[c.y][c.x].value.(entities := es))
    ensures forall y, x :: 0 <= y < |u| && 0 <= x < |u[y]| && (y != c.y || x != c.x) ==> u[y][x] == tiles[y][x]
  {
    tiles[c.y := tiles[c.y][c.x := Some(tiles[c.y][c.x].value.(entities := es))]]
  }

  /** Lookups on grids of the same layout find a tile, nothing, or raise alike. */
  lemma SameLayoutLookup(t: seq<seq<Option<Tile>>>, u: seq<seq<Option<Tile>>>, sizeX: int, sizeY: int, c: OddR)
    requires SameLayout(t, u)
    ensures TileAt(t, sizeX, sizeY, c).Ok? == TileAt(u, sizeX, sizeY, c).Ok?
    ensures TileAt(t, sizeX, sizeY, c).Ok? ==>
              TileAt(t, sizeX, sizeY, c).value.Some? == TileAt(u, sizeX, sizeY, c).value.Some?
  {
    if 0 <= c.x < sizeX && 0 <= c.y < sizeY && c.y < |t| && c.x < |t[c.y]| {
      assert |t[c.y]| == |u[c.y]|;
    }
  }

  /** The move of `try_move` after its checks: the entity is appended to the
      end tile, then removed from the start tile. Between two different tiles
      it leaves the start tile's list and joins the end tile's list, and no
      other tile changes; when both are the same tile, that tile keeps the same
      entities. */
  lemma MoveEffect(t: seq<seq<Option<Tile>>>, from: OddR, to: OddR, e: Entity)
    requires HasTileAt(t, from) && HasTileAt(t, to) && e in EntitiesAt(t, from)
    ensures var m := WithEntities(t, to, EntitiesAt(t, to) + [e]);
            e in EntitiesAt(m, from)
            && var u := WithEntities(m, from, RemoveFirst(EntitiesAt(m, from), e));
               SameLayout(t, u)
               && (from != to ==> EntitiesAt(u, from) == RemoveFirst(EntitiesAt(t, from), e)
                                  && EntitiesAt(u, to) == EntitiesAt(t, to) + [e])
               && (from == to ==> multiset(EntitiesAt(u, from)) == multiset(EntitiesAt(t, from)))
               && (forall y, x ::
                     (0 <= y < |u| && 0 <= x < |u[y]| && (y != from.y || x != from.x) && (y != to.y || x != to.x))
                     ==> u[y][x] == t[y][x])
  {
    var m := WithEntities(t, to, EntitiesAt(t, to) + [e]);
    if from == to {
      assert EntitiesAt(m, from) == EntitiesAt(t, from) + [e];
      assert multiset(EntitiesAt(m, from)) == multiset(EntitiesAt(t, from)) + multiset{e};
    } else {
      assert from.y != to.y || from.x != to.x;
      assert EntitiesAt(m, from) == EntitiesAt(t, from);
    }
  }

  // ---------------------------------------------------------------------------
  // Features filed by role and side when the board is built

  /** The deployment zones of fs whose side is k, in order. */
  function ZonesOf(fs: seq<Feature>, k: Option<Side>): (r: seq<Feature>)
    ensures forall f :: f in r ==> f in fs && f.featureId == DeploymentZoneId && f.side == k
    ensures forall f :: f in fs && f.featureId == DeploymentZoneId && f.side == k ==> f in r
  {
    if fs == [] then []
    else
      var last := fs[|fs| - 1];
      assert forall f :: f in fs ==> f in fs[..|fs| - 1] || f == last;
      ZonesOf(fs[..|fs| - 1], k) + (if last.featureId == DeploymentZoneId && last.side == k then [last] else [])
  }

  /** The lairs of fs whose side is s, in order. */
  function LairsOf(fs: seq<Feature>, s: Side): (r: seq<Feature>)
    ensures forall f :: f in r ==> f in fs && f.featureId == LairId && f.side == Some(s)
    ensures forall f :: f in fs && f.featureId == LairId && f.side == Some(s) ==> f in r
  {
    if fs == [] then []
    else
      var last := fs[|fs| - 1];
      assert forall f :: f in fs ==> f in fs[..|fs| - 1] || f == last;
      LairsOf(fs[..|fs| - 1], s) + (if last.featureId == LairId && last.side == Some(s) then [last] else [])
  }

  /** Every lair of fs has a side. */
  predicate LairsHaveSides(fs: seq<Feature>)
  {
    forall i :: 0 <= i < |fs| && fs[i].featureId == LairId ==> fs[i].side.Some?
  }

  /** zones and lairs hold the deployment zones and the lairs of fs by side,
      in the order of fs. */
  ghost predicate Filed(fs: seq<Feature>, zones: map<Option<Side>, seq<Feature>>, lairs: map<Side, seq<Feature>>)
  {
    (forall k :: ListOf(zones, k) == ZonesOf(fs, k)) && (forall s :: ListOf(lairs, s) == LairsOf(fs, s))
  }

  /** The filing loop of `Board.__init__`: each deployment zone goes under its
      side, each lair under its side; a lair without a side raises
      ValueError. */
  method ClassifyFeatures(fs: seq<Feature>)
    returns (zones: map<Option<Side>, seq<Feature>>, lairs: map<Side, seq<Feature>>, r: Result<()>)
    ensures r.Ok? <==> LairsHaveSides(fs)
    ensures r.Err? ==> r.error == ValueError
    ensures r.Ok? ==> Filed(fs, zones, lairs)
  {
    zones, lairs := map[], map[];
    var i := 0;
    while i < |fs|
      invariant 0 <= i <= |fs|
      invariant LairsHaveSides(fs[..i])
      invariant Filed(fs[..i], zones, lairs)
    {
      var f := fs[i];
      if f.featureId == LairId && f.side.None? {
        UnsidedLair(fs, i);
        return zones, lairs, Err(ValueError);
      }
      var zones2 := if f.featureId == DeploymentZoneId then zones[f.side := ListOf(zones, f.side) + [f]] else zones;
      var lairs2 := if f.featureId == LairId then lairs[f.side.value := ListOf(lairs, f.side.value) + [f]] else lairs;
      ClassifyStep(fs, i, zones, lairs, zones2, lairs2);
      zones, lairs := zones2, lairs2;
      i := i + 1;
    }
    assert fs[..i] == fs;
    return zones, lairs, Ok(());
  }

  /** A lair without a side anywhere in fs breaks LairsHaveSides. */
  lemma UnsidedLair(fs: seq<Feature>, i: nat)
    requires i < |fs| && fs[i].featureId == LairId && fs[i].side.None?
    ensures !LairsHaveSides(fs)
  {
  }

  /** One turn of the filing loop keeps its invariant. */
  lemma ClassifyStep(fs: seq<Feature>, i: nat, zones: map<Option<Side>, seq<Feature>>, lairs: map<Side, seq<Feature>>,
                     zones2: map<Option<Side>, seq<Feature>>, lairs2: map<Side, seq<Feature>>)
    requires i < |fs|
    requires LairsHaveSides(fs[..i]) && Filed(fs[..i], zones, lairs)
    requires fs[i].featureId == LairId ==> fs[i].side.Some?
    requires zones2 == if fs[i].featureId == DeploymentZoneId
                       then zones[fs[i].side := ListOf(zones, fs[i].side) + [fs[i]]] else zones
    requires lairs2 == if fs[i].featureId == LairId
                       then lairs[fs[i].side.value := ListOf(lairs, fs[i].side.value) + [fs[i]]] else lairs
    ensures LairsHaveSides(fs[..i + 1]) && Filed(fs[..i + 1], zones2, lairs2)
  {
    FilingStep(fs, i);
    FiledStep(fs, i, zones, lairs, zones2, lairs2);
  }

  /** Filing feature i keeps the features filed for the longer prefix. */
  lemma FiledStep(fs: seq<Feature>, i: nat, zones: map<Option<Side>, seq<Feature>>, lairs: map<Side, seq<Feature>>,
                  zones2: map<Option<Side>, seq<Feature>>, lairs2: map<Side, seq<Feature>>)
    requires i < |fs|
    requires Filed(fs[..i], zones, lairs)
    requires fs[i].featureId == LairId ==> fs[i].side.Some?
    requires zones2 == if fs[i].featureId == DeploymentZoneId
                       then zones[fs[i].side := ListOf(zones, fs[i].side) + [fs[i]]] else zones
    requires lairs2 == if fs[i].featureId == LairId
                       then lairs[fs[i].side.value := ListOf(lairs, fs[i].side.value) + [fs[i]]] else lairs
    ensures Filed(fs[..i + 1], zones2, lairs2)
  {
    ZonesStep(fs, i, zones, zones2);
    LairsStep(fs, i, lairs, lairs2);
  }

  /** Filing feature i keeps the zones filed for the longer prefix. */
  lemma ZonesStep(fs: seq<Feature>, i: nat, zones: map<Option<Side>, seq<Feature>>,
                  zones2: map<Option<Side>, seq<Feature>>)
    requires i < |fs|
    requires forall k :: ListOf(zones, k) == ZonesOf(fs[..i], k)
    requires zones2 == if fs[i].featureId == DeploymentZoneId
                       then zones[fs[i].side := ListOf(zones, fs[i].side) + [fs[i]]] else zones
    ensures forall k :: ListOf(zones2, k) == ZonesOf(fs[..i + 1], k)
  {
    FilingStep(fs, i);
    forall k ensures ListOf(zones2, k) == ZonesOf(fs[..i + 1], k) {
      assert ZonesOf(fs[..i + 1], k)
             == ZonesOf(fs[..i], k) + (if fs[i].featureId == DeploymentZoneId && fs[i].side == k then [fs[i]] else []);
    }
  }

  /** Filing feature i keeps the lairs filed for the longer prefix. */
  lemma LairsStep(fs: seq<Feature>, i: nat, lairs: map<Side, seq<Feature>>, lairs2: map<Side, seq<Feature>>)
    requires i < |fs|
    requires forall s :: ListOf(lairs, s) == LairsOf(fs[..i], s)
    requires fs[i].featureId == LairId ==> fs[i].side.Some?
    requires lairs2 == if fs[i].featureId == LairId
                       then lairs[fs[i].side.value := ListOf(lairs, fs[i].side.value) + [fs[i]]] else lairs
    ensures forall s :: ListOf(lairs2, s) == LairsOf(fs[..i + 1], s)
  {
    FilingStep(fs, i);
    forall s ensures ListOf(lairs2, s) == LairsOf(fs[..i + 1], s) {
      assert LairsOf(fs[..i + 1], s)
             == LairsOf(fs[..i], s) + (if fs[i].featureId == LairId && fs[i].side == Some(s) then [fs[i]] else []);
    }
  }

  /** The prefix of fs one longer than fs[..i]. */
  lemma FilingStep(fs: seq<Feature>, i: nat)
    requires i < |fs|
    ensures fs[..i + 1][..i] == fs[..i] && fs[..i + 1][i] == fs[i] && |fs[..i + 1]| == i + 1
  {
  }

  /** Every lair filed under some side. */
  function LairSet(lairs: map<Side, seq<Feature>>): (r: set<Feature>)
    ensures forall f :: f in r ==> exists s :: s in lairs && f in lairs[s]
    ensures forall s, f :: s in lairs && f in lairs[s] ==> f in r
  {
    set s, f | s in lairs && f in lairs[s] :: f
  }

  /** After the filing, the lairs filed under the sides are exactly the lairs
      of the map. */
  lemma LairsClassified(fs: seq<Feature>, lairs: map<Side, seq<Feature>>)
    requires forall s :: ListOf(lairs, s) == LairsOf(fs, s)
    requires LairsHaveSides(fs)
    ensures LairSet(lairs) == set f | f in fs && f.featureId == LairId
  {
    forall f | f in fs && f.featureId == LairId ensures f in LairSet(lairs) {
      var i :| 0 <= i < |fs| && fs[i] == f;
      var s := f.side.value;
      assert f in LairsOf(fs, s);
    }
    forall f | f in LairSet(lairs) ensures f in fs && f.featureId == LairId {
      var s :| s in lairs && f in lairs[s];
      assert f in ListOf(lairs, s);
    }
  }

  // ---------------------------------------------------------------------------
  // The cache and the board

  /** `Cache`: the board's lists of entities and features by role and side. */
  class Cache {
    var rodents: seq<Entity>
    var sides: map<Option<Side>, seq<Entity>>
    var entities: seq<Entity>
    var entitiesWithHp: seq<Entity>
    var sidesWithHp: map<Option<Side>, seq<Entity>>
    var features: seq<Feature>
    var deploymentZones: map<Option<Side>, seq<Feature>>
    var lairs: map<Side, seq<Feature>>
    var effects: seq<EntityEffect>
    var timers: seq<Timer>
    var entitiesWithTurnChange: seq<Entity>
    var entitiesInFeatures: map<Entity, seq<Feature>>

    constructor ()
      ensures Lists() == EntityCache([], map[], [], [], map[], [], map[])
      ensures features == [] && deploymentZones == map[] && lairs == map[] && effects == [] && timers == []
    {
      rodents, sides, entities, entitiesWithHp, sidesWithHp := [], map[], [], [], map[];
      features, deploymentZones, lairs, effects, timers := [], map[], map[], [], [];
      entitiesWithTurnChange, entitiesInFeatures := [], map[];
    }

    /** The entity lists, which `add_entity` and `remove_entity` update. */
    function Lists(): EntityCache
      reads this
    {
      EntityCache(rodents, sides, entities, entitiesWithHp, sidesWithHp, entitiesWithTurnChange, entitiesInFeatures)
    }

    /** The cache steps of `add_entity`, for an entity whose health is, or is
        not, None (`hasHp`). */
    method Add(entity: Entity, hasHp: bool)
      modifies this`rodents, this`sides, this`entities, this`entitiesWithHp, this`sidesWithHp
      modifies this`entitiesWithTurnChange, this`entitiesInFeatures
      ensures Lists() == AddToCache(old(Lists()), entity, hasHp)
    {
      entities := entities + [entity];
      sides := sides[entity.side := ListOf(sides, entity.side) + [entity]];
      if hasHp {
        entitiesWithHp := entitiesWithHp + [entity];
        sidesWithHp := sidesWithHp[entity.side := ListOf(sidesWithHp, entity.side) + [entity]];
      }
      if entity.isRodent {
        rodents := rodents + [entity];
      }
      if entity.hasTurnChangeHook {
        entitiesWithTurnChange := entitiesWithTurnChange + [entity];
      }
    }

    /** The cache steps of `remove_entity`, taken in the order of the source
        by `RemoveFromCache`: each `list.remove` raises ValueError when the
        entity is not there, leaving the earlier steps done. */
    method Remove(entity: Entity, hasHp: bool) returns (r: Result<()>)
      modifies this`rodents, this`sides, this`entities, this`entitiesWithHp, this`sidesWithHp
      modifies this`entitiesWithTurnChange, this`entitiesInFeatures
      ensures Lists() == RemoveFromCache(old(Lists()), entity, hasHp).cache
      ensures r == RemoveFromCache(old(Lists()), entity, hasHp).result
    {
      var removal := RemoveFromCache(Lists(), entity, hasHp);
      var c := removal.cache;
      rodents, sides, entities, entitiesWithHp := c.rodents, c.sides, c.entities, c.entitiesWithHp;
      sidesWithHp, entitiesWithTurnChange, entitiesInFeatures := c.sidesWithHp, c.entitiesWithTurnChange, c.entitiesInFeatures;
      r := removal.result;
    }

    /** `get_all_lairs`, as a set: the order of the lairs is not modelled. */
    function AllLairs(): set<Feature>
      reads this
    {
      LairSet(lairs)
    }
  }

  class Board {
    var sizeX: int
    var sizeY: int
    var tiles: seq<seq<Option<Tile>>>
    const cache: Cache

    /** The fields `__init__` sets before it adds the map's entities. */
    constructor Init(sizeX: int, sizeY: int, tiles: seq<seq<Option<Tile>>>, features: seq<Feature>,
                     zones: map<Option<Side>, seq<Feature>>, lairs: map<Side, seq<Feature>>)
      ensures this.sizeX == sizeX && this.sizeY == sizeY && this.tiles == tiles && fresh(cache)
      ensures cache.Lists() == EntityCache([], map[], [], [], map[], [], map[])
      ensures cache.features == features && cache.deploymentZones == zones && cache.lairs == lairs
      ensures cache.effects == [] && cache.timers == []
    {
      this.sizeX := sizeX;
      this.sizeY := sizeY;
      this.tiles := tiles;
      var c := new Cache();
      c.features := features;
      c.deploymentZones := zones;
      c.lairs := lairs;
      cache := c;
    }

    /** `add_entity`: the entity joins the entity list, its side's list, the
        health lists when its health is not None, the rodent list when it is a
        rodent and the turn-change list when it has a turn-change hook; then it
        is appended to the entity list of the tile at its position, which
        raises EntityInvalidPosError when there is no tile there (the cache
        keeps the additions). */
    method AddEntity(entity: Entity) returns (r: Result<()>)
      modifies this`tiles
      modifies cache`rodents, cache`sides, cache`entities, cache`entitiesWithHp, cache`sidesWithHp
      modifies cache`entitiesWithTurnChange, cache`entitiesInFeatures
      ensures cache.Lists() == AddToCache(old(cache.Lists()), entity, entity.health.Some?)
      ensures var p := PlaceOne(old(tiles), sizeX, sizeY, Arrival(entity, entity.pos, entity.health.Some?));
              (p.Err? ==> r == Err(p.error) && tiles == old(tiles)) && (p.Ok? ==> r == Ok(()) && tiles == p.value)
    {
      cache.Add(entity, entity.health.Some?);
      var t := TileAt(tiles, sizeX, sizeY, entity.pos);
      if t.Err? {
        return Err(IndexError);
      }
      if t.value.None? {
        return Err(EntityInvalidPos);
      }
      tiles := WithEntities(tiles, entity.pos, EntitiesAt(tiles, entity.pos) + [entity]);
      return Ok(());
    }

    /** `remove_entity`: the cache steps only; the entity stays on its tile. */
    method RemoveEntity(entity: Entity) returns (r: Result<()>)
      modifies cache`rodents, cache`sides, cache`entities, cache`entitiesWithHp, cache`sidesWithHp
      modifies cache`entitiesWithTurnChange, cache`entitiesInFeatures
      ensures cache.Lists() == RemoveFromCache(old(cache.Lists()), entity, entity.health.Some?).cache
      ensures r == RemoveFromCache(old(cache.Lists()), entity, entity.health.Some?).result
    {
      r := cache.Remove(entity, entity.health.Some?);
    }

    /** The loop of `__init__` that adds the map's entities in order, stopping
        at the first error. */
    method AddEntities(es: seq<Entity>) returns (r: Result<()>)
      modifies this`tiles
      modifies cache`rodents, cache`sides, cache`entities, cache`entitiesWithHp, cache`sidesWithHp
      modifies cache`entitiesWithTurnChange, cache`entitiesInFeatures
      ensures var as_ := old(Arrivals(es));
              var p := PlaceAll(old(tiles), sizeX, sizeY, as_);
              (p.Err? ==> r == Err(p.error))
              && (p.Ok? ==> r == Ok(()) && tiles == p.value && cache.Lists() == AddAll(old(cache.Lists()), as_))
    {
      ghost var as_ := Arrivals(es);
      ghost var t0, c0 := tiles, cache.Lists();
      var i := 0;
      while i < |es|
        invariant 0 <= i <= |es|
        invariant forall j :: 0 <= j < |es| ==> as_[j] == Arrival(es[j], es[j].pos, es[j].health.Some?)
        invariant PlaceAll(t0, sizeX, sizeY, as_[..i]) == Ok(tiles)
        invariant cache.Lists() == AddAll(c0, as_[..i])
      {
        r := AddNext(es[i], t0, c0, as_, i);
        if r.Err? {
          return;
        }
        i := i + 1;
      }
      assert as_[..i] == as_;
      return Ok(());
    }

    /** One pass of the loop of `add_entities`: the i-th arrival is placed
        and cached, or its error is the error of the whole run. */
    method AddNext(e: Entity, ghost t0: seq<seq<Option<Tile>>>, ghost c0: EntityCache, ghost as_: seq<Arrival>, ghost i: nat)
      returns (r: Result<()>)
      requires i < |as_| && as_[i] == Arrival(e, e.pos, e.health.Some?)
      requires PlaceAll(t0, sizeX, sizeY, as_[..i]) == Ok(tiles) && cache.Lists() == AddAll(c0, as_[..i])
      modifies this`tiles
      modifies cache`rodents, cache`sides, cache`entities, cache`entitiesWithHp, cache`sidesWithHp
      modifies cache`entitiesWithTurnChange, cache`entitiesInFeatures
      ensures r.Ok? ==> PlaceAll(t0, sizeX, sizeY, as_[..i + 1]) == Ok(tiles) && cache.Lists() == AddAll(c0, as_[..i + 1])
      ensures r.Err? ==> PlaceAll(t0, sizeX, sizeY, as_) == Err(r.error)
    {
      ghost var tb, cb := tiles, cache.Lists();
      ghost var a := as_[i];
      r := AddEntity(e);
      AddEntitiesStep(t0, sizeX, sizeY, c0, as_, i, a, tb, cb, r, tiles, cache.Lists());
    }

    /** `try_move(entity, path)`: EntityInvalidPosError when the entity's
        position has no tile; False, with nothing changed, at the first path
        cell without a tile or whose tile collides; AssertionError for an empty
        path. Otherwise the entity is appended to the tile of the last path
        cell, then removed from the tile of its position (ValueError when it
        is not there, the append kept), and its position becomes the last
        path cell. */
    method TryMove(entity: Entity, path: seq<OddR>) returns (r: Result<bool>)
      modifies this`tiles, entity`pos
      ensures var start := TileAt(old(tiles), sizeX, sizeY, old(entity.pos));
              var scan := ScanPath(old(tiles), sizeX, sizeY, path, entity.collision, 0);
              (start == Ok(None) ==> r == Err(EntityInvalidPos))
              && (start.Err? ==> r == Err(IndexError))
              && (start.Ok? && start.value.Some? ==>
                    (scan.Err? ==> r == Err(IndexError))
                    && (scan == Ok(false) ==> r == Ok(false))
                    && (scan == Ok(true) && path == [] ==> r == Err(AssertionError)))
      ensures r != Ok(true) && r != Err(ValueError) ==> tiles == old(tiles) && entity.pos == old(entity.pos)
      ensures r == Ok(true) || r == Err(ValueError) ==>
                path != [] && HasTileAt(old(tiles), old(entity.pos)) && HasTileAt(old(tiles), path[|path| - 1])
                && PathFree(old(tiles), sizeX, sizeY, path, entity.collision, 0)
                && var moved := WithEntities(old(tiles), path[|path| - 1],
                                             EntitiesAt(old(tiles), path[|path| - 1]) + [entity]);
                   (r == Err(ValueError) <==> entity !in EntitiesAt(moved, old(entity.pos)))
                   && (r == Err(ValueError) ==> tiles == moved && entity.pos == old(entity.pos))
                   && (r == Ok(true) ==>
                         tiles == WithEntities(moved, old(entity.pos),
                                               RemoveFirst(EntitiesAt(moved, old(entity.pos)), entity))
                         && entity.pos == path[|path| - 1])
    {
      var start := TileAt(tiles, sizeX, sizeY, entity.pos);
      if start.Err? {
        return Err(IndexError);
      }
      if start.value.None? {
        return Err(EntityInvalidPos);
      }
      var pathTile: Option<Tile> := None;
      var i := 0;
      while i < |path|
        invariant 0 <= i <= |path|
        invariant ScanPath(tiles, sizeX, sizeY, path, entity.collision, 0)
                  == ScanPath(tiles, sizeX, sizeY, path, entity.collision, i)
        invariant i == 0 ==> pathTile.None?
        invariant i > 0 ==> pathTile.Some? && TileAt(tiles, sizeX, sizeY, path[i - 1]) == Ok(pathTile)
      {
        var t := TileAt(tiles, sizeX, sizeY, path[i]);
        if t.Err? {
          return Err(IndexError);
        }
        pathTile := t.value;
        if pathTile.None? {
          return Ok(false);
        }
        if TileCollides(pathTile.value, entity.collision) {
          return Ok(false);
        }
        i := i + 1;
      }
      if pathTile.None? {
        return Err(AssertionError);
      }
      ScanPathMeaning(tiles, sizeX, sizeY, path, entity.collision, 0);
      var end := path[|path| - 1];
      tiles := WithEntities(tiles, end, EntitiesAt(tiles, end) + [entity]);
      if entity !in EntitiesAt(tiles, entity.pos) {
        return Err(ValueError);
      }
      tiles := WithEntities(tiles, entity.pos, RemoveFirst(EntitiesAt(tiles, entity.pos), entity));
      entity.pos := end;
      return Ok(true);
    }
  }

  // ---------------------------------------------------------------------------
  // Building a board from a map

  /** The map's grid as the board holds it: a tile in every cell. */
  function Lift(tiles: seq<seq<Tile>>): (r: seq<seq<Option<Tile>>>)
    ensures |r| == |tiles|
    ensures forall y :: 0 <= y < |r| ==> |r[y]| == |tiles[y]|
    ensures forall y, x :: 0 <= y < |r| && 0 <= x < |r[y]| ==> r[y][x] == Some(tiles[y][x])
  {
    seq(|tiles|, y requires 0 <= y < |tiles| => seq(|tiles[y]|, x requires 0 <= x < |tiles[y]| => Some(tiles[y][x])))
  }

  /** An entity as `add_entity` sees it: its position and whether its health
      is not None. */
  datatype Arrival = Arrival(entity: Entity, pos: OddR, hasHp: bool)

  /** The entities of es as `add_entity` sees them now. */
  function Arrivals(es: seq<Entity>): (r: seq<Arrival>)
    reads es
    ensures |r| == |es|
    ensures forall i :: 0 <= i < |es| ==> r[i] == Arrival(es[i], es[i].pos, es[i].health.Some?)
  {
    seq(|es|, i requires 0 <= i < |es| reads es => Arrival(es[i], es[i].pos, es[i].health.Some?))
  }

  /** The entities of a sequence of arrivals. */
  function EntitiesOf(as_: seq<Arrival>): (r: seq<Entity>)
    ensures |r| == |as_| && forall i :: 0 <= i < |as_| ==> r[i] == as_[i].entity
  {
    seq(|as_|, i requires 0 <= i < |as_| => as_[i].entity)
  }

  /** The cache lists after `add_entity` has added each arrival in turn. */
  function AddAll(c: EntityCache, as_: seq<Arrival>): (r: EntityCache)
    ensures r.entities == c.entities + EntitiesOf(as_)
  {
    if as_ == [] then c
    else
      var last := as_[|as_| - 1];
      assert EntitiesOf(as_) == EntitiesOf(as_[..|as_| - 1]) + [last.entity];
      AddToCache(AddAll(c, as_[..|as_| - 1]), last.entity, last.hasHp)
  }

  /** The cache a new board starts from. */
  const EmptyCache := EntityCache([], map[], [], [], map[], [], map[])

  /** Adding entities one by one keeps the cache's lists consistent with its
      entity list. */
  lemma {:induction false} AddAllKeepsInv(c: EntityCache, as_: seq<Arrival>)
    requires CacheInv(c)
    ensures CacheInv(AddAll(c, as_))
    decreases |as_|
  {
    if as_ != [] {
      var last := as_[|as_| - 1];
      AddAllKeepsInv(c, as_[..|as_| - 1]);
      AddKeepsInv(AddAll(c, as_[..|as_| - 1]), last.entity, last.hasHp);
    }
  }

  /** The empty cache satisfies the invariant, so a new board's cache does. */
  lemma EmptyCacheInv()
    ensures CacheInv(EmptyCache)
  {
    forall k: Option<Side>
      ensures ListOf(EmptyCache.sides, k) == Filter([], SideIs(k))
    {
    }
  }

  /** The tile step of `add_entity` for one arrival: IndexError when the
      lookup raises, EntityInvalidPosError when it finds no tile, otherwise
      the grid with the entity appended to the tile at its position. */
  function PlaceOne(t: seq<seq<Option<Tile>>>, sizeX: int, sizeY: int, a: Arrival): (r: Result<seq<seq<Option<Tile>>>>)
    ensures r.Ok? <==> TileAt(t, sizeX, sizeY, a.pos).Ok? && TileAt(t, sizeX, sizeY, a.pos).value.Some?
    ensures TileAt(t, sizeX, sizeY, a.pos).Err? ==> r == Err(IndexError)
    ensures TileAt(t, sizeX, sizeY, a.pos) == Ok(None) ==> r == Err(EntityInvalidPos)
    ensures r.Ok? ==> HasTileAt(t, a.pos) && r.value == WithEntities(t, a.pos, EntitiesAt(t, a.pos) + [a.entity])
  {
    match TileAt(t, sizeX, sizeY, a.pos)
    case Err(e) => Err(e)
    case Ok(None) => Err(EntityInvalidPos)
    case Ok(Some(_)) => Ok(WithEntities(t, a.pos, EntitiesAt(t, a.pos) + [a.entity]))
  }

  /** The tile steps of `add_entity` for each arrival in turn; the first
      failure stops the additions. */
  function PlaceAll(t: seq<seq<Option<Tile>>>, sizeX: int, sizeY: int, as_: seq<Arrival>): (r: Result<seq<seq<Option<Tile>>>>)
    ensures r.Ok? ==> SameLayout(t, r.value)
    ensures r.Err? ==> r.error == IndexError || r.error == EntityInvalidPos
  {
    if as_ == [] then Ok(t)
    else match PlaceAll(t, sizeX, sizeY, as_[..|as_| - 1])
      case Err(e) => Err(e)
      case Ok(u) => PlaceOne(u, sizeX, sizeY, as_[|as_| - 1])
  }

  /** The additions all succeed exactly when every arrival's position holds
      a tile of the original grid. */
  lemma {:induction false} PlaceAllOk(t: seq<seq<Option<Tile>>>, sizeX: int, sizeY: int, as_: seq<Arrival>)
    ensures PlaceAll(t, sizeX, sizeY, as_).Ok? <==>
              forall i :: 0 <= i < |as_| ==>
                TileAt(t, sizeX, sizeY, as_[i].pos).Ok? && TileAt(t, sizeX, sizeY, as_[i].pos).value.Some?
    decreases |as_|
  {
    if as_ != [] {
      var init := as_[..|as_| - 1];
      var last := as_[|as_| - 1];
      PlaceAllOk(t, sizeX, sizeY, init);
      var p := PlaceAll(t, sizeX, sizeY, init);
      if p.Ok? {
        SameLayoutLookup(t, p.value, sizeX, sizeY, last.pos);
      }
      assert forall i :: 0 <= i < |init| ==> init[i] == as_[i];
    }
  }

  /** A failed addition reports the error of the first arrival the original
      grid cannot take, every earlier one having a tile. */
  lemma {:induction false} PlaceAllFirstError(t: seq<seq<Option<Tile>>>, sizeX: int, sizeY: int, as_: seq<Arrival>)
    requires PlaceAll(t, sizeX, sizeY, as_).Err?
    ensures exists i :: 0 <= i < |as_|
              && (forall j :: 0 <= j < i ==> PlaceOne(t, sizeX, sizeY, as_[j]).Ok?)
              && PlaceOne(t, sizeX, sizeY, as_[i]) == Err(PlaceAll(t, sizeX, sizeY, as_).error)
    decreases |as_|
  {
    var init := as_[..|as_| - 1];
    var last := as_[|as_| - 1];
    var p := PlaceAll(t, sizeX, sizeY, init);
    if p.Err? {
      PlaceAllFirstError(t, sizeX, sizeY, init);
      var i :| 0 <= i < |init| && (forall j :: 0 <= j < i ==> PlaceOne(t, sizeX, sizeY, init[j]).Ok?)
               && PlaceOne(t, sizeX, sizeY, init[i]) == Err(p.error);
      assert forall j :: 0 <= j <= i ==> init[j] == as_[j];
    } else {
      PlaceAllOk(t, sizeX, sizeY, init);
      SameLayoutLookup(t, p.value, sizeX, sizeY, last.pos);
      assert forall j :: 0 <= j < |init| ==> init[j] == as_[j];
      assert PlaceOne(t, sizeX, sizeY, as_[|as_| - 1]) == Err(PlaceAll(t, sizeX, sizeY, as_).error);
    }
  }

  /** Once a prefix of the arrivals fails, the whole sequence fails alike. */
  lemma {:induction false} PlaceAllPrefixErr(t: seq<seq<Option<Tile>>>, sizeX: int, sizeY: int,
                                             as_: seq<Arrival>, j: nat)
    requires j <= |as_|
    requires PlaceAll(t, sizeX, sizeY, as_[..j]).Err?
    ensures PlaceAll(t, sizeX, sizeY, as_) == PlaceAll(t, sizeX, sizeY, as_[..j])
    decreases |as_|
  {
    if j < |as_| {
      var init := as_[..|as_| - 1];
      assert init[..j] == as_[..j];
      PlaceAllPrefixErr(t, sizeX, sizeY, init, j);
    } else {
      assert as_[..j] == as_;
    }
  }

  /** The entities among the arrivals whose position is c, in order. */
  function OnCell(as_: seq<Arrival>, c: OddR): (r: seq<Entity>)
    ensures forall i :: 0 <= i < |as_| && as_[i].pos == c ==> as_[i].entity in r
    ensures forall j :: 0 <= j < |r| ==> exists i :: 0 <= i < |as_| && as_[i].pos == c && as_[i].entity == r[j]
  {
    if as_ == [] then []
    else
      var last := as_[|as_| - 1];
      OnCell(as_[..|as_| - 1], c) + (if last.pos == c then [last.entity] else [])
  }

  /** After successful additions, the tile at each cell holds what it held
      before and then the entities placed there, in the order of arrival. */
  lemma {:induction false} PlaceAllCell(t: seq<seq<Option<Tile>>>, sizeX: int, sizeY: int, as_: seq<Arrival>, c: OddR)
    requires PlaceAll(t, sizeX, sizeY, as_).Ok?
    requires HasTileAt(t, c)
    ensures HasTileAt(PlaceAll(t, sizeX, sizeY, as_).value, c)
    ensures EntitiesAt(PlaceAll(t, sizeX, sizeY, as_).value, c) == EntitiesAt(t, c) + OnCell(as_, c)
    decreases |as_|
  {
    if as_ != [] {
      var init := as_[..|as_| - 1];
      var last := as_[|as_| - 1];
      PlaceAllCell(t, sizeX, sizeY, init, c);
      if last.pos != c {
        assert c.y != last.pos.y || c.x != last.pos.x;
      }
    }
  }

  /** The prefix functions one arrival further on. */
  lemma PlaceStep(t: seq<seq<Option<Tile>>>, sizeX: int, sizeY: int, c: EntityCache, as_: seq<Arrival>, i: nat)
    requires i < |as_|
    ensures PlaceAll(t, sizeX, sizeY, as_[..i + 1])
            == match PlaceAll(t, sizeX, sizeY, as_[..i])
               case Err(e) => Err(e)
               case Ok(u) => PlaceOne(u, sizeX, sizeY, as_[i])
    ensures AddAll(c, as_[..i + 1]) == AddToCache(AddAll(c, as_[..i]), as_[i].entity, as_[i].hasHp)
  {
    var prefix := as_[..i + 1];
    assert prefix[..i] == as_[..i];
  }

  /** One turn of the loop that adds the map's entities: a successful add
      extends the placed prefix by one arrival, and a failed one is the
      failure of the whole sequence. */
  lemma AddEntitiesStep(t0: seq<seq<Option<Tile>>>, sizeX: int, sizeY: int, c0: EntityCache, as_: seq<Arrival>, i: nat,
                        a: Arrival, tb: seq<seq<Option<Tile>>>, cb: EntityCache, r: Result<()>,
                        ta: seq<seq<Option<Tile>>>, ca: EntityCache)
    requires i < |as_| && as_[i] == a
    requires PlaceAll(t0, sizeX, sizeY, as_[..i]) == Ok(tb) && cb == AddAll(c0, as_[..i])
    requires ca == AddToCache(cb, a.entity, a.hasHp)
    requires var p := PlaceOne(tb, sizeX, sizeY, a);
             (p.Err? ==> r == Err(p.error) && ta == tb) && (p.Ok? ==> r == Ok(()) && ta == p.value)
    ensures r.Ok? ==> PlaceAll(t0, sizeX, sizeY, as_[..i + 1]) == Ok(ta) && ca == AddAll(c0, as_[..i + 1])
    ensures r.Err? ==> PlaceAll(t0, sizeX, sizeY, as_) == Err(r.error)
  {
    PlaceStep(t0, sizeX, sizeY, c0, as_, i);
    if r.Err? {
      PlaceAllPrefixErr(t0, sizeX, sizeY, as_, i + 1);
    }
  }

  /** `Board(map)`: the features are filed (ValueError for a lair without a
      side), the sizes are read from the grid (IndexError for a grid without
      rows), and every entity of the map is added in order; the first entity
      whose position holds no tile raises EntityInvalidPosError, or IndexError
      when the lookup itself raises. */
  method NewBoard(m: Maps.Map) returns (r: Result<Board>)
    ensures !LairsHaveSides(m.features) ==> r == Err(ValueError)
    ensures LairsHaveSides(m.features) && m.tiles == [] ==> r == Err(IndexError)
    ensures LairsHaveSides(m.features) && m.tiles != [] ==>
              var as_ := old(Arrivals(m.entities));
              var p := PlaceAll(Lift(m.tiles), |m.tiles[0]|, |m.tiles|, as_);
              (p.Err? ==> r == Err(p.error))
              && (p.Ok? ==>
                    r.Ok? && fresh(r.value) && fresh(r.value.cache)
                    && r.value.sizeX == |m.tiles[0]| && r.value.sizeY == |m.tiles|
                    && r.value.tiles == p.value
                    && r.value.cache.Lists() == AddAll(EmptyCache, as_)
                    && r.value.cache.features == m.features
                    && Filed(m.features, r.value.cache.deploymentZones, r.value.cache.lairs)
                    && r.value.cache.effects == [] && r.value.cache.timers == [])
  {
    var zones, lairs, classified := ClassifyFeatures(m.features);
    if classified.Err? {
      return Err(ValueError);
    }
    if |m.tiles| == 0 {
      return Err(IndexError);
    }
    r := Populate(m, zones, lairs);
  }

  /** The part of `Board.__init__` after the checks: a board of the map's
      size and tiles, with the classified features, to which the map's
      entities are added in order. */
  method Populate(m: Maps.Map, zones: map<Option<Side>, seq<Feature>>, lairs: map<Side, seq<Feature>>)
    returns (r: Result<Board>)
    requires m.tiles != []
    ensures var as_ := old(Arrivals(m.entities));
            var p := PlaceAll(Lift(m.tiles), |m.tiles[0]|, |m.tiles|, as_);
            (p.Err? ==> r == Err(p.error))
            && (p.Ok? ==>
                  r.Ok? && fresh(r.value) && fresh(r.value.cache)
                  && r.value.sizeX == |m.tiles[0]| && r.value.sizeY == |m.tiles|
                  && r.value.tiles == p.value
                  && r.value.cache.Lists() == AddAll(EmptyCache, as_)
                  && r.value.cache.features == m.features
                  && r.value.cache.deploymentZones == zones && r.value.cache.lairs == lairs
                  && r.value.cache.effects == [] && r.value.cache.timers == [])
  {
    var b := new Board.Init(|m.tiles[0]|, |m.tiles|, Lift(m.tiles), m.features, zones, lairs);
    var added := b.AddEntities(m.entities);
    if added.Err? {
      return Err(added.error);
    }
    return Ok(b);
  }
}
