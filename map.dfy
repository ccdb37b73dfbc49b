/** A game map (map.py): a grid of tiles with the entities and features placed
    on it. A feature is listed once in `features` and once in each tile its
    shape covers. */
module Maps {
  import opened Wrappers
  import opened Hexagon
  import opened Entities
  import opened Features
  import opened Tiles

  /** The (row, column) that `tiles[p.y][p.x]` reaches, if any. */
  function Cell(tiles: seq<seq<Tile>>, p: OddR): (r: Option<(nat, nat)>)
    ensures r.Some? ==> r.value.0 < |tiles| && r.value.1 < |tiles[r.value.0]|
  {
    match PyIndex(|tiles|, p.y)
    case None => None
    case Some(row) => match PyIndex(|tiles[row]|, p.x)
      case None => None
      case Some(col) => Some((row, col))
  }

  /** The coordinate a shape offset covers. */
  function Covered(pos: OddR, offset: OddR): OddR
  {
    OddR(pos.x + offset.x, pos.y + offset.y)
  }

  /** The number of offsets that reach a tile before the first that does not. */
  function ReachablePrefix(tiles: seq<seq<Tile>>, pos: OddR, shape: seq<OddR>): (k: nat)
    ensures k <= |shape|
    ensures forall j :: 0 <= j < k ==> Cell(tiles, Covered(pos, shape[j])).Some?
    ensures k < |shape| ==> Cell(tiles, Covered(pos, shape[k])).None?
  {
    if shape == [] || Cell(tiles, Covered(pos, shape[0])).None? then 0
    else 1 + ReachablePrefix(tiles, pos, shape[1..])
  }

  /** How many offsets of `offsets` cover the tile at (row, col). */
  function CountAt(tiles: seq<seq<Tile>>, pos: OddR, offsets: seq<OddR>, row: nat, col: nat): nat
  {
    if offsets == [] then 0
    else CountAt(tiles, pos, offsets[..|offsets| - 1], row, col)
         + (if Cell(tiles, Covered(pos, offsets[|offsets| - 1])) == Some((row, col)) then 1 else 0)
  }

  function Repeat(f: Feature, n: nat): (r: seq<Feature>)
    ensures |r| == n && forall i :: 0 <= i < n ==> r[i] == f
  {
    if n == 0 then [] else Repeat(f, n - 1) + [f]
  }

  /** Some element of fs is equal to f as a dataclass. */
  predicate HasSame(fs: seq<Feature>, f: Feature)
    reads fs, f
  {
    exists i :: 0 <= i < |fs| && Same(fs[i], f)
  }

  /** The number of elements of fs equal to f. */
  function SameCount(fs: seq<Feature>, f: Feature): (n: nat)
    reads fs, f
    ensures n <= |fs|
    ensures n > 0 <==> HasSame(fs, f)
  {
    if fs == [] then 0
    else
      assert forall i :: 1 <= i < |fs| ==> fs[i] == fs[1..][i - 1];
      (if Same(fs[0], f) then 1 else 0) + SameCount(fs[1..], f)
  }

  /** `list.remove(f)` on a list that holds an equal element: the first such element goes. */
  function RemoveFirstSame(fs: seq<Feature>, f: Feature): (r: seq<Feature>)
    reads fs, f
    requires HasSame(fs, f)
    ensures |r| == |fs| - 1
    ensures SameCount(r, f) == SameCount(fs, f) - 1
    ensures forall i :: 0 <= i < |r| ==> r[i] in fs
  {
    if Same(fs[0], f) then fs[1..]
    else
      assert forall i :: 1 <= i < |fs| ==> fs[i] == fs[1..][i - 1];
      [fs[0]] + RemoveFirstSame(fs[1..], f)
  }

  /** `list.remove(f)` n times. */
  function RemoveSameN(fs: seq<Feature>, f: Feature, n: nat): (r: seq<Feature>)
    reads fs, f
    requires SameCount(fs, f) >= n
    ensures SameCount(r, f) == SameCount(fs, f) - n
    decreases n
  {
    if n == 0 then fs else RemoveSameN(RemoveFirstSame(fs, f), f, n - 1)
  }

  /** Removing from a list with no equal element and n copies of f appended
      takes the copies off again. */
  lemma {:induction false} RemoveSameNUndoesRepeat(fs: seq<Feature>, f: Feature, n: nat)
    requires !HasSame(fs, f)
    ensures SameCount(fs + Repeat(f, n), f) >= n
    ensures RemoveSameN(fs + Repeat(f, n), f, n) == fs
  {
    SameCountAppend(fs, Repeat(f, n), f);
    SameCountRepeat(f, n);
    if n > 0 {
      RemoveFirstSkips(fs, Repeat(f, n), f);
      assert Repeat(f, n)[1..] == Repeat(f, n - 1);
      RemoveSameNUndoesRepeat(fs, f, n - 1);
    }
  }

  lemma {:induction false} SameCountAppend(a: seq<Feature>, b: seq<Feature>, f: Feature)
    ensures SameCount(a + b, f) == SameCount(a, f) + SameCount(b, f)
  {
    if a == [] {
      assert a + b == b;
    } else {
      assert (a + b)[0] == a[0] && (a + b)[1..] == a[1..] + b;
      SameCountAppend(a[1..], b, f);
    }
  }

  lemma {:induction false} SameCountRepeat(f: Feature, n: nat)
    ensures SameCount(Repeat(f, n), f) == n
  {
    if n > 0 {
      SameCountAppend(Repeat(f, n - 1), [f], f);
      SameCountRepeat(f, n - 1);
    }
  }

  /** With no equal element in a, the first equal element of a + b lies in b. */
  lemma {:induction false} RemoveFirstSkips(a: seq<Feature>, b: seq<Feature>, f: Feature)
    requires !HasSame(a, f) && HasSame(b, f)
    ensures HasSame(a + b, f) && RemoveFirstSame(a + b, f) == a + RemoveFirstSame(b, f)
  {
    SameCountAppend(a, b, f);
    if a == [] {
      assert a + b == b;
    } else {
      var rest := a[1..];
      assert (a + b)[0] == a[0] && (a + b)[1..] == rest + b;
      assert !Same(a[0], f) by { assert a[0] == a[0]; }
      assert !HasSame(rest, f) by {
        forall j | 0 <= j < |rest| ensures !Same(rest[j], f) { assert rest[j] == a[j + 1]; }
      }
      RemoveFirstSkips(rest, b, f);
      assert RemoveFirstSame(a + b, f) == [a[0]] + (rest + RemoveFirstSame(b, f));
      ConsAppend(a, RemoveFirstSame(b, f));
    }
  }

  lemma ConsAppend(a: seq<Feature>, r: seq<Feature>)
    requires a != []
    ensures [a[0]] + (a[1..] + r) == a + r
  {
    assert [a[0]] + a[1..] == a;
  }

  /** The tile grid with only the feature lists of some tiles changed. */
  predicate SameGrid(t: seq<seq<Tile>>, u: seq<seq<Tile>>)
  {
    |t| == |u| && forall y :: 0 <= y < |t| ==> |t[y]| == |u[y]|
  }

  /** Every tile of u is the tile of t with one copy of f appended per offset
      that covers it. */
  predicate AppendedAlong(t: seq<seq<Tile>>, u: seq<seq<Tile>>, f: Feature, pos: OddR, offsets: seq<OddR>)
  {
    SameGrid(t, u)
    && forall y, x :: 0 <= y < |u| && 0 <= x < |u[y]| ==>
         u[y][x] == t[y][x].(features := t[y][x].features + Repeat(f, CountAt(t, pos, offsets, y, x)))
  }

  /** Every feature listed on some tile of the grid. */
  function GridFeatures(t: seq<seq<Tile>>): (r: set<Feature>)
    ensures forall y, x :: 0 <= y < |t| && 0 <= x < |t[y]| ==> (forall g :: g in t[y][x].features ==> g in r)
  {
    set y, x, g | 0 <= y < |t| && 0 <= x < |t[y]| && g in t[y][x].features :: g
  }

  /** Every tile of u is the tile of t with one equal copy of f removed per
      offset that covers it. */
  predicate RemovedAlong(t: seq<seq<Tile>>, u: seq<seq<Tile>>, f: Feature, pos: OddR, offsets: seq<OddR>)
    reads f, GridFeatures(t)
  {
    SameGrid(t, u)
    && forall y, x :: 0 <= y < |u| && 0 <= x < |u[y]| ==> RemovedAt(t, u, f, pos, offsets, y, x)
  }

  /** The tile at (y, x) of u is that of t with one equal copy of f removed
      per offset that covers it. */
  predicate RemovedAt(t: seq<seq<Tile>>, u: seq<seq<Tile>>, f: Feature, pos: OddR, offsets: seq<OddR>,
                      y: nat, x: nat)
    requires SameGrid(t, u) && y < |u| && x < |u[y]|
    reads f, t[y][x].features
  {
    SameCount(t[y][x].features, f) >= CountAt(t, pos, offsets, y, x)
    && u[y][x] == t[y][x].(features := RemoveSameN(t[y][x].features, f, CountAt(t, pos, offsets, y, x)))
  }

  /** Every offset of the shape reaches a tile, and every tile holds at least
      as many equal copies of f as offsets cover it. */
  predicate Removable(t: seq<seq<Tile>>, f: Feature, pos: OddR, shape: seq<OddR>)
    reads f, GridFeatures(t)
  {
    ReachablePrefix(t, pos, shape) == |shape|
    && forall y, x :: 0 <= y < |t| && 0 <= x < |t[y]| ==>
         SameCount(t[y][x].features, f) >= CountAt(t, pos, shape, y, x)
  }

  /** The grid with the feature list of one tile replaced. */
  function SetFeatures(u: seq<seq<Tile>>, row: nat, col: nat, fs: seq<Feature>): (v: seq<seq<Tile>>)
    requires row < |u| && col < |u[row]|
    ensures SameGrid(u, v)
    ensures forall y, x :: 0 <= y < |v| && 0 <= x < |v[y]| ==>
              v[y][x] == if y == row && x == col then u[y][x].(features := fs) else u[y][x]
  {
    u[row := u[row][col := u[row][col].(features := fs)]]
  }

  /** One more offset counts its own tile once more and no other tile. */
  lemma CountAtStep(t: seq<seq<Tile>>, pos: OddR, shape: seq<OddR>, i: nat, y: nat, x: nat)
    requires i < |shape|
    ensures CountAt(t, pos, shape[..i + 1], y, x)
            == CountAt(t, pos, shape[..i], y, x) + (if Cell(t, Covered(pos, shape[i])) == Some((y, x)) then 1 else 0)
  {
    assert shape[..i + 1][..i] == shape[..i];
  }

  lemma AppendStep(t: seq<seq<Tile>>, u: seq<seq<Tile>>, f: Feature, pos: OddR, shape: seq<OddR>,
                   i: nat, row: nat, col: nat)
    requires i < |shape| && AppendedAlong(t, u, f, pos, shape[..i])
    requires Cell(t, Covered(pos, shape[i])) == Some((row, col))
    ensures AppendedAlong(t, SetFeatures(u, row, col, u[row][col].features + [f]), f, pos, shape[..i + 1])
  {
    var v := SetFeatures(u, row, col, u[row][col].features + [f]);
    forall y, x | 0 <= y < |v| && 0 <= x < |v[y]|
      ensures v[y][x] == t[y][x].(features := t[y][x].features + Repeat(f, CountAt(t, pos, shape[..i + 1], y, x)))
    {
      CountAtStep(t, pos, shape, i, y, x);
    }
  }

  lemma RemoveStep(t: seq<seq<Tile>>, u: seq<seq<Tile>>, f: Feature, pos: OddR, shape: seq<OddR>,
                   i: nat, row: nat, col: nat)
    requires i < |shape| && RemovedAlong(t, u, f, pos, shape[..i])
    requires Cell(t, Covered(pos, shape[i])) == Some((row, col))
    requires HasSame(u[row][col].features, f)
    ensures RemovedAlong(t, SetFeatures(u, row, col, RemoveFirstSame(u[row][col].features, f)), f, pos, shape[..i + 1])
  {
    var v := SetFeatures(u, row, col, RemoveFirstSame(u[row][col].features, f));
    var longer := shape[..i + 1];
    assert SameGrid(t, v) by {
      forall k | 0 <= k < |t| ensures |t[k]| == |v[k]| { assert |t[k]| == |u[k]|; }
    }
    forall y, x | 0 <= y < |v| && 0 <= x < |v[y]|
      ensures RemovedAt(t, v, f, pos, longer, y, x)
    {
      RemoveStepAt(t, u, v, f, pos, shape, i, row, col, y, x);
    }
  }

  lemma RemoveStepAt(t: seq<seq<Tile>>, u: seq<seq<Tile>>, v: seq<seq<Tile>>, f: Feature, pos: OddR,
                     shape: seq<OddR>, i: nat, row: nat, col: nat, y: nat, x: nat)
    requires i < |shape| && SameGrid(t, u) && SameGrid(t, v) && y < |u| && x < |u[y]|
    requires RemovedAt(t, u, f, pos, shape[..i], y, x)
    requires Cell(t, Covered(pos, shape[i])) == Some((row, col))
    requires y == row && x == col ==> HasSame(u[y][x].features, f)
    requires v[y][x] == if y == row && x == col then u[y][x].(features := RemoveFirstSame(u[y][x].features, f))
                        else u[y][x]
    ensures RemovedAt(t, v, f, pos, shape[..i + 1], y, x)
  {
    CountAtStep(t, pos, shape, i, y, x);
    if y == row && x == col {
      RemoveCellStep(t[y][x], u[y][x], v[y][x], f, CountAt(t, pos, shape[..i], y, x),
                     CountAt(t, pos, shape[..i + 1], y, x));
    }
  }

  /** A covered tile that has run out of equal copies held fewer than the
      whole shape needs. */
  lemma RemoveShortfall(t: seq<seq<Tile>>, u: seq<seq<Tile>>, f: Feature, pos: OddR, shape: seq<OddR>,
                        i: nat, row: nat, col: nat)
    requires i < |shape| && RemovedAlong(t, u, f, pos, shape[..i])
    requires Cell(t, Covered(pos, shape[i])) == Some((row, col))
    requires !HasSame(u[row][col].features, f)
    ensures SameCount(t[row][col].features, f) < CountAt(t, pos, shape, row, col)
  {
    assert RemovedAt(t, u, f, pos, shape[..i], row, col);
    CountBelowWhole(t, pos, shape, i, row, col);
  }

  /** A tile that lost n equal copies of f and loses one more has lost n + 1. */
  lemma RemoveCellStep(tc: Tile, uc: Tile, vc: Tile, f: Feature, n: nat, m: nat)
    requires m == n + 1 && SameCount(tc.features, f) >= n
    requires uc == tc.(features := RemoveSameN(tc.features, f, n)) && HasSame(uc.features, f)
    requires vc == uc.(features := RemoveFirstSame(uc.features, f))
    ensures SameCount(tc.features, f) >= m && vc == tc.(features := RemoveSameN(tc.features, f, m))
  {
    RemoveSameNStep(tc.features, f, n);
  }

  class Map {
    var sizeX: int
    var sizeY: int
    var tiles: seq<seq<Tile>>
    var entities: seq<Entity>
    var features: seq<Feature>

    constructor Empty(sizeX: int, sizeY: int, tiles: seq<seq<Tile>>, entities: seq<Entity>)
      ensures this.sizeX == sizeX && this.sizeY == sizeY && this.tiles == tiles
      ensures this.entities == entities && features == []
    {
      this.sizeX := sizeX;
      this.sizeY := sizeY;
      this.tiles := tiles;
      this.entities := entities;
      features := [];
    }

    /** `add_feature`. An equal feature already listed raises ValueError and
        changes nothing. Otherwise the feature is listed, then appended to the
        tile of each offset in turn; an offset outside the grid raises
        IndexError, leaving the earlier tiles appended. */
    method AddFeature(feature: Feature) returns (r: Result<()>)
      modifies this`features, this`tiles
      ensures HasSame(old(features), feature) ==>
                r == Err(ValueError) && features == old(features) && tiles == old(tiles)
      ensures !HasSame(old(features), feature) ==>
                var k := ReachablePrefix(old(tiles), feature.pos, feature.shape);
                features == old(features) + [feature]
                && (r.Ok? <==> k == |feature.shape|)
                && (r.Err? ==> r.error == IndexError)
                && AppendedAlong(old(tiles), tiles, feature, feature.pos, feature.shape[..k])
    {
      if HasSame(features, feature) {
        return Err(ValueError);
      }
      features := features + [feature];
      ghost var t0 := tiles;
      ghost var fs := features;
      var i := 0;
      assert feature.shape[..0] == [];
      while i < |feature.shape|
        invariant 0 <= i <= |feature.shape|
        invariant features == fs
        invariant ReachablePrefix(t0, feature.pos, feature.shape) >= i
        invariant AppendedAlong(t0, tiles, feature, feature.pos, feature.shape[..i])
      {
        var c := Cell(tiles, Covered(feature.pos, feature.shape[i]));
        assert c == Cell(t0, Covered(feature.pos, feature.shape[i]));
        if c.None? {
          return Err(IndexError);
        }
        var (row, col) := c.value;
        AppendStep(t0, tiles, feature, feature.pos, feature.shape, i, row, col);
        tiles := SetFeatures(tiles, row, col, tiles[row][col].features + [feature]);
        i := i + 1;
      }
      return Ok(());
    }

    /** `remove_feature`. Without an equal listed feature it raises ValueError
        and changes nothing. When every offset reaches a tile and each reached
        tile holds enough equal features, the first equal feature goes from
        the list and, per offset, from its tile. */
    method RemoveFeature(feature: Feature) returns (r: Result<()>)
      modifies this`features, this`tiles
      ensures !HasSame(old(features), feature) ==>
                r == Err(ValueError) && features == old(features) && tiles == old(tiles)
      ensures HasSame(old(features), feature) ==>
                var now := features; old(now == RemoveFirstSame(features, feature))
      ensures SameGrid(old(tiles), tiles)
      ensures r.Err? ==> r.error == ValueError || r.error == IndexError
      ensures old(HasSame(features, feature) && Removable(tiles, feature, feature.pos, feature.shape)) ==> r.Ok?
      ensures r.Ok? ==> RemovedAlong(old(tiles), tiles, feature, feature.pos, feature.shape)
    {
      if !HasSame(features, feature) {
        return Err(ValueError);
      }
      var remaining := RemoveFirstSame(features, feature);
      var ts;
      ts, r := RemoveFromTiles(tiles, feature);
      features, tiles := remaining, ts;
    }
  }

  /** The tile part of `remove_feature`: per offset, `remove` on the covered
      tile's feature list. An offset outside the grid raises IndexError, a tile
      without an equal feature ValueError; the tiles already handled stay
      changed. */
  method RemoveFromTiles(tiles: seq<seq<Tile>>, feature: Feature) returns (ts: seq<seq<Tile>>, r: Result<()>)
    ensures SameGrid(tiles, ts)
    ensures r.Err? ==> r.error == ValueError || r.error == IndexError
    ensures Removable(tiles, feature, feature.pos, feature.shape) ==> r.Ok?
    ensures r.Ok? ==> RemovedAlong(tiles, ts, feature, feature.pos, feature.shape)
  {
    ts, r := tiles, Ok(());
    var i := 0;
    assert feature.shape[..0] == [];
    while i < |feature.shape|
      invariant 0 <= i <= |feature.shape|
      invariant r == Ok(())
      invariant ReachablePrefix(tiles, feature.pos, feature.shape) >= i
      invariant SameGrid(tiles, ts)
      invariant RemovedAlong(tiles, ts, feature, feature.pos, feature.shape[..i])
    {
      var c := Cell(ts, Covered(feature.pos, feature.shape[i]));
      assert c == Cell(tiles, Covered(feature.pos, feature.shape[i]));
      if c.None? {
        r := Err(IndexError);
        break;
      }
      var (row, col) := c.value;
      if !HasSame(ts[row][col].features, feature) {
        RemoveShortfall(tiles, ts, feature, feature.pos, feature.shape, i, row, col);
        r := Err(ValueError);
        break;
      }
      var next := SetFeatures(ts, row, col, RemoveFirstSame(ts[row][col].features, feature));
      RemoveStep(tiles, ts, feature, feature.pos, feature.shape, i, row, col);
      ts, i := next, i + 1;
    }
    if r.Ok? {
      assert feature.shape[..i] == feature.shape;
    }
  }

  /** One more removal extends RemoveSameN by one. */
  lemma {:induction false} RemoveSameNStep(fs: seq<Feature>, f: Feature, n: nat)
    requires SameCount(fs, f) >= n + 1
    ensures SameCount(fs, f) >= n && HasSame(RemoveSameN(fs, f, n), f)
    ensures RemoveSameN(fs, f, n + 1) == RemoveFirstSame(RemoveSameN(fs, f, n), f)
    decreases n
  {
    if n > 0 {
      RemoveSameNStep(RemoveFirstSame(fs, f), f, n - 1);
    }
  }

  /** The count over a prefix that stops short of the whole shape at a covered
      tile is below the count over the whole shape. */
  lemma CountBelowWhole(tiles: seq<seq<Tile>>, pos: OddR, shape: seq<OddR>, i: nat, row: nat, col: nat)
    requires i < |shape| && Cell(tiles, Covered(pos, shape[i])) == Some((row, col))
    ensures CountAt(tiles, pos, shape[..i], row, col) < CountAt(tiles, pos, shape, row, col)
  {
    CountPrefixMonotone(tiles, pos, shape, i + 1, row, col);
    assert shape[..i + 1][..i] == shape[..i];
  }

  lemma {:induction false} CountPrefixMonotone(tiles: seq<seq<Tile>>, pos: OddR, shape: seq<OddR>, k: nat,
                                              row: nat, col: nat)
    requires k <= |shape|
    ensures CountAt(tiles, pos, shape[..k], row, col) <= CountAt(tiles, pos, shape, row, col)
  {
    if k < |shape| {
      assert shape[..|shape| - 1][..k] == shape[..k];
      CountPrefixMonotone(tiles, pos, shape[..|shape| - 1], k, row, col);
    } else {
      assert shape[..k] == shape;
    }
  }

  /** Offsets are resolved against the grid's shape only. */
  lemma {:induction false} CountAtSameGrid(t: seq<seq<Tile>>, u: seq<seq<Tile>>, pos: OddR, offsets: seq<OddR>,
                                           row: nat, col: nat)
    requires SameGrid(t, u)
    ensures CountAt(t, pos, offsets, row, col) == CountAt(u, pos, offsets, row, col)
    ensures ReachablePrefix(t, pos, offsets) == ReachablePrefix(u, pos, offsets)
    decreases |offsets|
  {
    if offsets != [] {
      CellSameGrid(t, u, Covered(pos, offsets[|offsets| - 1]));
      CellSameGrid(t, u, Covered(pos, offsets[0]));
      CountAtSameGrid(t, u, pos, offsets[..|offsets| - 1], row, col);
      CountAtSameGrid(t, u, pos, offsets[1..], row, col);
    }
  }

  lemma CellSameGrid(t: seq<seq<Tile>>, u: seq<seq<Tile>>, p: OddR)
    requires SameGrid(t, u)
    ensures Cell(t, p) == Cell(u, p)
  {
    var row := PyIndex(|t|, p.y);
    if row.Some? {
      assert |t[row.value]| == |u[row.value]|;
    }
  }

  /** `remove_feature` after `add_feature` takes the feature off the list again. */
  lemma RemoveUndoesAppend(fs: seq<Feature>, f: Feature)
    requires !HasSame(fs, f)
    ensures HasSame(fs + [f], f) && RemoveFirstSame(fs + [f], f) == fs
  {
    assert Same([f][0], f);
    RemoveFirstSkips(fs, [f], f);
    assert RemoveFirstSame([f], f) == [];
  }

  /** `remove_feature` after a complete `add_feature` restores every tile,
      when no tile held an equal feature before. */
  lemma RemoveUndoesAdd(t: seq<seq<Tile>>, u: seq<seq<Tile>>, v: seq<seq<Tile>>, f: Feature, pos: OddR,
                        shape: seq<OddR>)
    requires ReachablePrefix(t, pos, shape) == |shape|
    requires AppendedAlong(t, u, f, pos, shape)
    requires forall y, x :: 0 <= y < |t| && 0 <= x < |t[y]| ==> !HasSame(t[y][x].features, f)
    ensures Removable(u, f, pos, shape)
    ensures RemovedAlong(u, v, f, pos, shape) ==> v == t
  {
    CountAtSameGrid(t, u, pos, shape, 0, 0);
    forall y, x | 0 <= y < |u| && 0 <= x < |u[y]|
      ensures SameCount(u[y][x].features, f) >= CountAt(u, pos, shape, y, x)
      ensures RemoveSameN(u[y][x].features, f, CountAt(u, pos, shape, y, x)) == t[y][x].features
    {
      CountAtSameGrid(t, u, pos, shape, y, x);
      RemoveSameNUndoesRepeat(t[y][x].features, f, CountAt(t, pos, shape, y, x));
    }
    if RemovedAlong(u, v, f, pos, shape) {
      forall y | 0 <= y < |t| ensures v[y] == t[y] {
        forall x | 0 <= x < |t[y]| ensures v[y][x] == t[y][x] {
          assert RemovedAt(u, v, f, pos, shape, y, x);
        }
      }
    }
  }

  /** No feature of the list equals an earlier one. */
  predicate NoEarlierSame(fs: seq<Feature>)
    reads fs
  {
    forall i :: 0 <= i < |fs| ==> !HasSame(fs[..i], fs[i])
  }

  /** Every offset of every feature of the list reaches a tile. */
  predicate AllReach(t: seq<seq<Tile>>, fs: seq<Feature>)
    reads fs
  {
    forall i :: 0 <= i < |fs| ==> ReachablePrefix(t, fs[i].pos, fs[i].shape) == |fs[i].shape|
  }

  /** The copies the features of the list put on the tile at (y, x), in order. */
  function Covering(t: seq<seq<Tile>>, fs: seq<Feature>, y: nat, x: nat): seq<Feature>
    reads fs
  {
    if fs == [] then []
    else
      var f := fs[|fs| - 1];
      Covering(t, fs[..|fs| - 1], y, x) + Repeat(f, CountAt(t, f.pos, f.shape, y, x))
  }

  /** The grid u is t with the copies of the listed features added to each tile. */
  predicate CoveredUpTo(t: seq<seq<Tile>>, u: seq<seq<Tile>>, fs: seq<Feature>)
    reads fs
  {
    SameGrid(t, u)
    && forall y, x :: 0 <= y < |t| && 0 <= x < |t[y]| ==>
         u[y][x] == t[y][x].(features := t[y][x].features + Covering(t, fs, y, x))
  }

  lemma NewMapStep(t: seq<seq<Tile>>, before: seq<seq<Tile>>, after: seq<seq<Tile>>, fs: seq<Feature>, f: Feature)
    requires NoEarlierSame(fs) && AllReach(t, fs) && CoveredUpTo(t, before, fs)
    requires !HasSame(fs, f)
    requires ReachablePrefix(before, f.pos, f.shape) == |f.shape|
    requires AppendedAlong(before, after, f, f.pos, f.shape[..|f.shape|])
    ensures NoEarlierSame(fs + [f]) && AllReach(t, fs + [f]) && CoveredUpTo(t, after, fs + [f])
  {
    CountAtSameGrid(t, before, f.pos, f.shape, 0, 0);
    NoEarlierStep(fs, f);
    AllReachStep(t, fs, f);
    assert f.shape[..|f.shape|] == f.shape;
    CoveredStep(t, before, after, fs, f);
  }

  lemma NoEarlierStep(fs: seq<Feature>, f: Feature)
    requires NoEarlierSame(fs) && !HasSame(fs, f)
    ensures NoEarlierSame(fs + [f])
  {
    var longer := fs + [f];
    forall j | 0 <= j < |longer| ensures !HasSame(longer[..j], longer[j])
    {
      if j < |fs| {
        assert longer[..j] == fs[..j] && longer[j] == fs[j];
      } else {
        assert longer[..j] == fs;
      }
    }
  }

  lemma AllReachStep(t: seq<seq<Tile>>, fs: seq<Feature>, f: Feature)
    requires AllReach(t, fs) && ReachablePrefix(t, f.pos, f.shape) == |f.shape|
    ensures AllReach(t, fs + [f])
  {
    var longer := fs + [f];
    forall j | 0 <= j < |longer| ensures ReachablePrefix(t, longer[j].pos, longer[j].shape) == |longer[j].shape|
    {
      if j < |fs| {
        assert longer[j] == fs[j];
      }
    }
  }

  lemma CoveredStep(t: seq<seq<Tile>>, before: seq<seq<Tile>>, after: seq<seq<Tile>>, fs: seq<Feature>, f: Feature)
    requires CoveredUpTo(t, before, fs) && AppendedAlong(before, after, f, f.pos, f.shape)
    ensures CoveredUpTo(t, after, fs + [f])
  {
    var longer := fs + [f];
    assert longer[..|fs|] == fs;
    forall y, x | 0 <= y < |t| && 0 <= x < |t[y]|
      ensures after[y][x] == t[y][x].(features := t[y][x].features + Covering(t, longer, y, x))
    {
      CountAtSameGrid(t, before, f.pos, f.shape, y, x);
      var tf := t[y][x].features;
      var c := Covering(t, fs, y, x);
      var rep := Repeat(f, CountAt(t, f.pos, f.shape, y, x));
      assert Covering(t, longer, y, x) == c + rep;
      assert (tf + c) + rep == tf + (c + rep);
    }
  }

  lemma NewMapFails(t: seq<seq<Tile>>, before: seq<seq<Tile>>, fs: seq<Feature>, i: nat)
    requires i < |fs| && SameGrid(t, before)
    requires HasSame(fs[..i], fs[i]) || ReachablePrefix(before, fs[i].pos, fs[i].shape) != |fs[i].shape|
    ensures !(NoEarlierSame(fs) && AllReach(t, fs))
  {
    CountAtSameGrid(t, before, fs[i].pos, fs[i].shape, 0, 0);
  }

  /** `Map(size_x, size_y, tiles, entities, features)`: every given feature is
      added through `add_feature`; the first failure propagates. */
  method NewMap(sizeX: int, sizeY: int, tiles: seq<seq<Tile>>, entities: seq<Entity>,
                features: seq<Feature>) returns (r: Result<Map>)
    ensures r.Ok? <==> NoEarlierSame(features) && AllReach(tiles, features)
    ensures r.Err? ==> r.error == ValueError || r.error == IndexError
    ensures r.Ok? ==> fresh(r.value) && r.value.sizeX == sizeX && r.value.sizeY == sizeY
                      && r.value.entities == entities && r.value.features == features
                      && CoveredUpTo(tiles, r.value.tiles, features)
  {
    var m := new Map.Empty(sizeX, sizeY, tiles, entities);
    r := Ok(m);
    var i := 0;
    while i < |features|
      invariant 0 <= i <= |features|
      invariant r == Ok(m)
      invariant m.features == features[..i]
      invariant NoEarlierSame(features[..i]) && AllReach(tiles, features[..i])
      invariant m.sizeX == sizeX && m.sizeY == sizeY && m.entities == entities
      invariant CoveredUpTo(tiles, m.tiles, features[..i])
    {
      var f := features[i];
      ghost var before := m.tiles;
      var added := m.AddFeature(f);
      if added.Err? {
        NewMapFails(tiles, before, features, i);
        r := Err(added.error);
        break;
      }
      assert !HasSame(features[..i], f);
      NewMapStep(tiles, before, m.tiles, features[..i], f);
      assert features[..i + 1] == features[..i] + [f];
      i := i + 1;
    }
    if r.Ok? {
      assert features[..i] == features;
    }
  }
}
