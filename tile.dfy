/** A board tile (tile.py): its coordinate, the entities standing on it, its
    own height and the features covering it. Tiles are values here; the board
    and the map replace a tile when one of its lists changes. */
module Tiles {
  import opened Wrappers
  import opened Hexagon
  import opened Entities
  import opened Features

  datatype Tile = Tile(coord: OddR, entities: seq<Entity>, height: int, features: seq<Feature>)

  /** The greatest height among a non-empty list of entities. */
  function MaxHeight(es: seq<Entity>): (m: int)
    reads es
    requires es != []
    ensures forall i :: 0 <= i < |es| ==> es[i].height <= m
    ensures exists i :: 0 <= i < |es| && es[i].height == m
  {
    if |es| == 1 then es[0].height
    else
      var rest := MaxHeight(es[1..]);
      assert forall i :: 1 <= i < |es| ==> es[i] == es[1..][i - 1];
      if es[0].height < rest then rest else es[0].height
  }

  /** `get_total_height` as written: the tile's height plus the greatest entity
      height; `max` of an empty sequence raises ValueError. */
  function TotalHeightAsWritten(t: Tile): (r: Result<int>)
    reads t.entities
    ensures r.Err? <==> t.entities == []
    ensures r.Err? ==> r.error == ValueError
    ensures r.Ok? ==> (forall e :: e in t.entities ==> r.value >= t.height + e.height)
                      && (exists e :: e in t.entities && r.value == t.height + e.height)
  {
    if t.entities == [] then Err(ValueError) else Ok(t.height + MaxHeight(t.entities))
  }

  /** A tile with nothing on it: the total height cannot be computed. */
  lemma EmptyTileHeightRaises(c: OddR, h: int, fs: seq<Feature>)
    ensures TotalHeightAsWritten(Tile(c, [], h, fs)) == Err(ValueError)
  {
  }

  /** The evidently intended total height: an empty tile stands at its own
      height; otherwise the same as the function as written. */
  function TotalHeight(t: Tile): (r: int)
    reads t.entities
    ensures t.entities == [] ==> r == t.height
    ensures t.entities != [] ==> TotalHeightAsWritten(t) == Ok(r)
    ensures forall e :: e in t.entities ==> r >= t.height + e.height
  {
    if t.entities == [] then t.height else t.height + MaxHeight(t.entities)
  }

  /** Some entity on the tile collides. */
  predicate HasCollidingEntity(t: Tile)
  {
    exists i :: 0 <= i < |t.entities| && t.entities[i].collision
  }

  /** Some feature on the tile collides. */
  predicate HasCollidingFeature(t: Tile)
  {
    exists i :: 0 <= i < |t.features| && t.features[i].collides
  }

  /** `Tile.is_collision(collision)`, which the board's `try_move` calls but
      tile.py does not define: taken to be the two collision tests of the
      board's blocking predicate. */
  predicate TileCollides(t: Tile, collision: bool)
  {
    (collision && HasCollidingEntity(t)) || HasCollidingFeature(t)
  }
}
