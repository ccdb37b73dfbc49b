/** The sprite metadata tables (frontend/visual/asset_management/
    game_obj_to_sprite_registry.py): which spritesheet, frame size and
    animation frames each rodent, squeak card and map tile is drawn from,
    and the memo that builds a tile's metadata once per map and tile id. */
module SpriteRegistries {
  import opened Wrappers
  import SqueakSets

  /** The `SpritesheetMetadata` dataclass; a path is kept as its text. */
  datatype SpritesheetMetadata = SpritesheetMetadata(
    key: string,
    path: string,
    spriteSize: (int, int),
    animationList: map<string, seq<int>>,
    frameRate: real,
    scale: (real, real))

  /** The `TilesetMetadata` dataclass. */
  datatype TilesetMetadata = TilesetMetadata(
    mapName: string,
    path: string,
    spriteSize: (int, int),
    row: int,
    col: int,
    tileCount: int)

  /** The dataclass defaults `frame_rate = 60` and `scale = (1.0, 1.0)`. */
  const DefaultFrameRate: real := 60.0
  const DefaultScale: (real, real) := (1.0, 1.0)

  /** The one tileset of `TILESET_MAP`. */
  const StartingKitchen := TilesetMetadata("Starting Kitchen", "starting-kitchen.png", (100, 100), 10, 8, 77)

  /** The rodent classes drawn from the two shared sheets, by class name, in
      sheet order (`RODENT_FIRST_SET`, `RODENT_SECOND_SET`). */
  const RodentFirstSet := ["Cracker", "Mayo", "RatbertBrewbelly", "Clanker", "Tailblazer", "PeaPeaPoolPool"]
  const RodentSecondSet := ["TheOne", "Mortar", "RailRodent", "SodaKabooma"]

  // ----- decimal text, for f"{map_name}-{tile_id}" -----

  function DigitChar(d: int): (c: char)
    requires 0 <= d < 10
    ensures '0' <= c <= '9' && c as int - '0' as int == d
  {
    ('0' as int + d) as char
  }

  /** `str(n)` for n >= 0: its decimal digits, most significant first. */
  function NatString(n: nat): (s: string)
    ensures |s| >= 1 && (n >= 10 ==> |s| >= 2)
    ensures forall i :: 0 <= i < |s| ==> '0' <= s[i] <= '9'
  {
    if n < 10 then [DigitChar(n)] else NatString(n / 10) + [DigitChar(n % 10)]
  }

  /** `str(n)` for any int: a minus sign before the digits of a negative number. */
  function IntString(n: int): string
  {
    if n < 0 then "-" + NatString(-n) else NatString(n)
  }

  /** Different numbers print differently. */
  lemma {:induction false} NatStringInjective(a: nat, b: nat)
    requires NatString(a) == NatString(b)
    ensures a == b
  {
    var s := NatString(a);
    if a >= 10 && b >= 10 {
      var p := NatString(a / 10);
      assert s == p + [DigitChar(a % 10)];
      assert s == NatString(b / 10) + [DigitChar(b % 10)];
      assert s[..|s| - 1] == p;
      assert s[..|s| - 1] == NatString(b / 10);
      NatStringInjective(a / 10, b / 10);
      assert DigitChar(a % 10) == s[|s| - 1] == DigitChar(b % 10);
    } else if a < 10 && b < 10 {
      assert DigitChar(a) == s[0] == DigitChar(b);
    }
  }

  /** Different ints print differently. */
  lemma IntStringInjective(a: int, b: int)
    requires IntString(a) == IntString(b)
    ensures a == b
  {
    SignShows(a);
    SignShows(b);
    if a < 0 {
      assert NatString(-a) == IntString(a)[1..] == NatString(-b);
      NatStringInjective(-a, -b);
    } else {
      NatStringInjective(a, b);
    }
  }

  /** The text of a number starts with a minus sign exactly when it is negative. */
  lemma SignShows(n: int)
    ensures |IntString(n)| >= 1 && (IntString(n)[0] == '-' <==> n < 0)
  {
    if n >= 0 {
      assert '0' <= NatString(n)[0] <= '9';
    }
  }

  // ----- tiles -----

  /** The spritesheet key of a map tile: f"{map_name}-{tile_id}". */
  function TileKey(mapName: string, tileId: int): string
  {
    mapName + "-" + IntString(tileId)
  }

  /** Two tiles of one map never share a spritesheet key, so the
      spritesheet cache, which is keyed by it, keeps them apart. */
  lemma TileKeysDistinct(mapName: string, a: int, b: int)
    requires a != b
    ensures TileKey(mapName, a) != TileKey(mapName, b)
  {
    if TileKey(mapName, a) == TileKey(mapName, b) {
      var n := |mapName| + 1;
      assert IntString(a) == TileKey(mapName, a)[n..];
      assert IntString(b) == TileKey(mapName, b)[n..];
      IntStringInjective(a, b);
    }
  }

  /** The metadata built for a tile that is not cached yet: the tileset's
      sheet and frame size, and the single frame tile_id - 1 (tile ids count
      from 1, frames from 0). */
  function TileMetadata(t: TilesetMetadata, tileId: int): SpritesheetMetadata
  {
    SpritesheetMetadata(TileKey(t.mapName, tileId), t.path, t.spriteSize,
                        map["NONE" := [tileId - 1]], DefaultFrameRate, DefaultScale)
  }

  /** What every cached entry for (map, tile id) shows. */
  predicate ShowsTile(m: SpritesheetMetadata, mapName: string, tileId: int)
  {
    m.key == TileKey(mapName, tileId) && m.animationList == map["NONE" := [tileId - 1]]
  }

  /** Whether (map, tile id) is in a cache. */
  predicate Cached(cache: map<string, map<int, SpritesheetMetadata>>, mapName: string, tileId: int)
  {
    mapName in cache && tileId in cache[mapName]
  }

  /** The inner dict of a `defaultdict(dict)`: empty for a map not seen yet. */
  function Inner(cache: map<string, map<int, SpritesheetMetadata>>, mapName: string): map<int, SpritesheetMetadata>
  {
    if mapName in cache then cache[mapName] else map[]
  }

  /** `spritesheet_metadata_cache` and `get_spritesheet_metadata`. */
  class MetadataCache {
    var cache: map<string, map<int, SpritesheetMetadata>>

    /** Every memoised entry is the metadata of its own map and tile id. */
    ghost predicate Valid()
      reads this
    {
      forall mapName, tileId | Cached(cache, mapName, tileId) :: ShowsTile(cache[mapName][tileId], mapName, tileId)
    }

    constructor()
      ensures cache == map[] && Valid()
    {
      cache := map[];
    }

    /** A tile id above the tileset's tile count raises ValueError; a cached
        (map, tile id) returns the stored metadata and changes nothing;
        otherwise the tile's metadata is built, stored and returned. */
    method GetSpritesheetMetadata(t: TilesetMetadata, tileId: int) returns (r: Result<SpritesheetMetadata>)
      requires Valid()
      modifies this
      ensures Valid()
      ensures tileId > t.tileCount ==> r == Err(ValueError) && cache == old(cache)
      ensures tileId <= t.tileCount ==>
                r.Ok? && Cached(cache, t.mapName, tileId) && r.value == cache[t.mapName][tileId]
                && ShowsTile(r.value, t.mapName, tileId)
      ensures tileId <= t.tileCount && Cached(old(cache), t.mapName, tileId) ==>
                cache == old(cache) && r.value == old(cache)[t.mapName][tileId]
      ensures tileId <= t.tileCount && !Cached(old(cache), t.mapName, tileId) ==>
                r.value == TileMetadata(t, tileId)
                && cache == old(cache)[t.mapName := Inner(old(cache), t.mapName)[tileId := r.value]]
    {
      if tileId > t.tileCount {
        return Err(ValueError);
      }
      var inner := Inner(cache, t.mapName);
      if tileId in inner {
        return Ok(inner[tileId]);
      }
      var m := TileMetadata(t, tileId);
      cache := cache[t.mapName := inner[tileId := m]];
      return Ok(m);
    }
  }

  /** Asking twice for the same tile of a fresh cache gives the same
      metadata; asking beyond the tileset raises ValueError both times. */
  method AskTwice(t: TilesetMetadata, tileId: int) returns (first: Result<SpritesheetMetadata>, second: Result<SpritesheetMetadata>)
    ensures first == second
    ensures first.Ok? <==> tileId <= t.tileCount
    ensures first.Ok? ==> first.value == TileMetadata(t, tileId)
  {
    var c := new MetadataCache();
    first := c.GetSpritesheetMetadata(t, tileId);
    second := c.GetSpritesheetMetadata(t, tileId);
  }

  // ----- rodents and squeak cards -----

  /** The metadata of the i-th rodent of a shared sheet: keyed by its class
      name, showing frame i as its IDLE, HURT and DIE animation. */
  function RodentMetadata(name: string, path: string, size: (int, int), i: int): SpritesheetMetadata
  {
    SpritesheetMetadata(name, path, size, map["IDLE" := [i], "HURT" := [i], "DIE" := [i]], DefaultFrameRate, DefaultScale)
  }

  /** The metadata of the i-th squeak card of a shared sheet: a fresh random
      key, showing frame i. */
  function SqueakMetadata(key: string, path: string, size: (int, int), i: int): SpritesheetMetadata
  {
    SpritesheetMetadata(key, path, size, map["NONE" := [i]], DefaultFrameRate, DefaultScale)
  }

  /** How many pairs `zip` yields. */
  function ZipLength<A, B>(a: seq<A>, b: seq<B>): nat
  {
    if |a| < |b| then |a| else |b|
  }

  /** The registry entry of the rodent class at position j of a shared sheet. */
  function RodentEntry(path: string, size: (int, int)): (string, nat) -> SpritesheetMetadata
  {
    (name: string, j: nat) => RodentMetadata(name, path, size, j)
  }

  /** The registry entry of the squeak card at position j of a shared sheet. */
  function SqueakEntry(path: string, size: (int, int), uuid: nat -> string): (SqueakSets.Squeak, nat) -> SpritesheetMetadata
  {
    (q: SqueakSets.Squeak, j: nat) => SqueakMetadata(uuid(j), path, size, j)
  }

  /** `d[keys[j]] = entry(keys[j], j)` for j = 0 .. n-1, in that order. */
  function Assign<K, V>(d: map<K, V>, keys: seq<K>, n: nat, entry: (K, nat) -> V): map<K, V>
    requires n <= |keys|
  {
    if n == 0 then d else Assign(d, keys, n - 1, entry)[keys[n - 1] := entry(keys[n - 1], n - 1)]
  }

  /** Position j holds the last occurrence of its element before position n. */
  predicate LastAt<T(==)>(s: seq<T>, j: nat, n: nat)
    requires j < n <= |s|
  {
    forall l | j < l < n :: s[l] != s[j]
  }

  /** The assignments add exactly the listed keys; a listed key holds the
      entry of its last position; any other key keeps its value. */
  lemma AssignMeaning<K, V>(d: map<K, V>, keys: seq<K>, n: nat, entry: (K, nat) -> V)
    requires n <= |keys|
    ensures Assign(d, keys, n, entry).Keys == d.Keys + set j | 0 <= j < n :: keys[j]
    ensures forall k | k in d && k !in keys[..n] :: Assign(d, keys, n, entry)[k] == d[k]
    ensures forall j | 0 <= j < n && LastAt(keys, j, n) :: Assign(d, keys, n, entry)[keys[j]] == entry(keys[j], j)
  {
    AssignKeys(d, keys, n, entry);
    forall k | k in d && k !in keys[..n]
      ensures Assign(d, keys, n, entry)[k] == d[k]
    {
      forall j | 0 <= j < n
        ensures keys[j] != k
      {
        assert keys[j] == keys[..n][j];
      }
      AssignSkips(d, keys, n, entry, k);
    }
    forall j | 0 <= j < n && LastAt(keys, j, n)
      ensures Assign(d, keys, n, entry)[keys[j]] == entry(keys[j], j)
    {
      AssignAt(d, keys, n, entry, j);
    }
  }

  /** The assignments add exactly the listed keys. */
  lemma {:induction false} AssignKeys<K, V>(d: map<K, V>, keys: seq<K>, n: nat, entry: (K, nat) -> V)
    requires n <= |keys|
    ensures Assign(d, keys, n, entry).Keys == d.Keys + set j | 0 <= j < n :: keys[j]
  {
    if n > 0 {
      AssignKeys(d, keys, n - 1, entry);
      assert (set j | 0 <= j < n :: keys[j]) == (set j | 0 <= j < n - 1 :: keys[j]) + {keys[n - 1]};
    }
  }

  /** One listed key: the entry of its last position. */
  lemma {:induction false} AssignAt<K, V>(d: map<K, V>, keys: seq<K>, n: nat, entry: (K, nat) -> V, j: nat)
    requires j < n <= |keys| && LastAt(keys, j, n)
    ensures keys[j] in Assign(d, keys, n, entry) && Assign(d, keys, n, entry)[keys[j]] == entry(keys[j], j)
  {
    if j < n - 1 {
      assert keys[n - 1] != keys[j];
      AssignAt(d, keys, n - 1, entry, j);
    }
  }

  /** One key that is not listed: its old entry. */
  lemma {:induction false} AssignSkips<K, V>(d: map<K, V>, keys: seq<K>, n: nat, entry: (K, nat) -> V, k: K)
    requires n <= |keys| && k in d && forall j | 0 <= j < n :: keys[j] != k
    ensures k in Assign(d, keys, n, entry) && Assign(d, keys, n, entry)[k] == d[k]
  {
    if n > 0 {
      AssignSkips(d, keys, n - 1, entry, k);
    }
  }

  /** Every key of the assignments either keeps its old entry or holds the
      entry of a position where it is listed. */
  lemma {:induction false} AssignOrigin<K, V>(d: map<K, V>, keys: seq<K>, n: nat, entry: (K, nat) -> V, k: K)
    requires n <= |keys| && k in Assign(d, keys, n, entry)
    ensures (k in d && Assign(d, keys, n, entry)[k] == d[k])
            || exists j :: 0 <= j < n && keys[j] == k && Assign(d, keys, n, entry)[k] == entry(k, j)
  {
    if n > 0 {
      if k == keys[n - 1] {
        assert keys[n - 1] == k && Assign(d, keys, n, entry)[k] == entry(k, n - 1);
      } else {
        AssignOrigin(d, keys, n - 1, entry, k);
      }
    }
  }

  /** `str(uuid4())` drawn afresh for every card: the i-th draw differs from
      every other. */
  ghost predicate FreshKeys(uuid: nat -> string)
  {
    forall i: nat, j: nat :: uuid(i) == uuid(j) ==> i == j
  }

  /** The draws that follow the first k. */
  function Later(uuid: nat -> string, k: nat): (r: nat -> string)
    ensures forall i: nat :: r(i) == uuid(k + i)
  {
    (i: nat) => uuid(k + i)
  }

  /** The card that draw k of the two loops belongs to. */
  function Owner(first: seq<SqueakSets.Squeak>, second: seq<SqueakSets.Squeak>, k: nat): SqueakSets.Squeak
    requires k < |first| + |second|
  {
    if k < |first| then first[k] else second[k - |first|]
  }

  /** A card of the two loops is keyed by the draw of its own position. */
  lemma SqueakKeyOwner(first: seq<SqueakSets.Squeak>, second: seq<SqueakSets.Squeak>, uuid: nat -> string,
                       p1: string, s1: (int, int), p2: string, s2: (int, int),
                       m1: map<SqueakSets.Squeak, SpritesheetMetadata>, m2: map<SqueakSets.Squeak, SpritesheetMetadata>,
                       q: SqueakSets.Squeak)
    requires m1 == Assign(map[], first, |first|, SqueakEntry(p1, s1, uuid))
    requires m2 == Assign(m1, second, |second|, SqueakEntry(p2, s2, Later(uuid, |first|)))
    requires q in m2
    ensures exists k: nat :: k < |first| + |second| && m2[q].key == uuid(k) && Owner(first, second, k) == q
  {
    AssignOrigin(m1, second, |second|, SqueakEntry(p2, s2, Later(uuid, |first|)), q);
    if q in m1 && m2[q] == m1[q] {
      AssignOrigin(map[], first, |first|, SqueakEntry(p1, s1, uuid), q);
      var j :| 0 <= j < |first| && first[j] == q && m1[q] == SqueakEntry(p1, s1, uuid)(q, j);
      assert m2[q].key == uuid(j) && Owner(first, second, j) == q;
    } else {
      var j :| 0 <= j < |second| && second[j] == q && m2[q] == SqueakEntry(p2, s2, Later(uuid, |first|))(q, j);
      assert m2[q].key == uuid(|first| + j) && Owner(first, second, |first| + j) == q;
    }
  }

  /** With fresh draws, two different cards of the two loops never share a
      key. */
  lemma SqueakKeysDistinct(first: seq<SqueakSets.Squeak>, second: seq<SqueakSets.Squeak>, uuid: nat -> string,
                           p1: string, s1: (int, int), p2: string, s2: (int, int),
                           m1: map<SqueakSets.Squeak, SpritesheetMetadata>, m2: map<SqueakSets.Squeak, SpritesheetMetadata>)
    requires FreshKeys(uuid)
    requires m1 == Assign(map[], first, |first|, SqueakEntry(p1, s1, uuid))
    requires m2 == Assign(m1, second, |second|, SqueakEntry(p2, s2, Later(uuid, |first|)))
    ensures forall q1, q2 :: q1 in m2 && q2 in m2 && q1 != q2 ==> m2[q1].key != m2[q2].key
  {
    forall q1, q2 | q1 in m2 && q2 in m2 && q1 != q2
      ensures m2[q1].key != m2[q2].key
    {
      SqueakKeyOwner(first, second, uuid, p1, s1, p2, s2, m1, m2, q1);
      SqueakKeyOwner(first, second, uuid, p1, s1, p2, s2, m1, m2, q2);
      var k1: nat :| k1 < |first| + |second| && m2[q1].key == uuid(k1) && Owner(first, second, k1) == q1;
      var k2: nat :| k2 < |first| + |second| && m2[q2].key == uuid(k2) && Owner(first, second, k2) == q2;
    }
  }

  /** `SPRITE_METADATA_REGISTRY` (by rodent class name) and
      `SQUEAK_IMAGE_METADATA_REGISTRY`. */
  class SpriteRegistry {
    var rodentSheets: map<string, SpritesheetMetadata>
    var squeakSheets: map<SqueakSets.Squeak, SpritesheetMetadata>

    constructor()
      ensures rodentSheets == map[] && squeakSheets == map[]
    {
      rodentSheets := map[];
      squeakSheets := map[];
    }

    /** One module-level loop: the j-th pair of `zip(rodents, squeaks)` maps
        the rodent class to frame j of the sheet and the squeak card to
        frame j under the j-th random key; pairs beyond the shorter list are
        dropped. By AssignMeaning, a name listed twice keeps its last
        position and names not listed keep their entries. */
    method RegisterSet(rodents: seq<string>, squeaks: seq<SqueakSets.Squeak>, path: string, size: (int, int), uuid: nat -> string)
      modifies this
      ensures rodentSheets == Assign(old(rodentSheets), rodents, ZipLength(rodents, squeaks), RodentEntry(path, size))
      ensures squeakSheets == Assign(old(squeakSheets), squeaks, ZipLength(rodents, squeaks), SqueakEntry(path, size, uuid))
    {
      var n := ZipLength(rodents, squeaks);
      var i := 0;
      while i < n
        invariant 0 <= i <= n
        invariant rodentSheets == Assign(old(rodentSheets), rodents, i, RodentEntry(path, size))
        invariant squeakSheets == Assign(old(squeakSheets), squeaks, i, SqueakEntry(path, size, uuid))
      {
        rodentSheets := rodentSheets[rodents[i] := RodentMetadata(rodents[i], path, size, i)];
        squeakSheets := squeakSheets[squeaks[i] := SqueakMetadata(uuid(i), path, size, i)];
        i := i + 1;
      }
    }
  }

  /** Both module-level loops over the shipped rodent sets: each rodent class
      is drawn from the frame of its position in its set's sheet. */
  method BuildRegistry(firstSqueaks: seq<SqueakSets.Squeak>, secondSqueaks: seq<SqueakSets.Squeak>, uuid: nat -> string)
    returns (registry: SpriteRegistry)
    requires |firstSqueaks| == |RodentFirstSet| && |secondSqueaks| == |RodentSecondSet|
    requires FreshKeys(uuid)
    ensures "Tailblazer" in registry.rodentSheets && registry.rodentSheets["Tailblazer"] == RodentMetadata("Tailblazer", "rodent_first_set.jpg", (436, 434), 4)
    ensures "TheOne" in registry.rodentSheets && registry.rodentSheets["TheOne"] == RodentMetadata("TheOne", "rodent_second_set.jpg", (347, 347), 0)
    ensures forall q1, q2 :: q1 in registry.squeakSheets && q2 in registry.squeakSheets && q1 != q2 ==>
              registry.squeakSheets[q1].key != registry.squeakSheets[q2].key
  {
    registry := new SpriteRegistry();
    registry.RegisterSet(RodentFirstSet, firstSqueaks, "rodent_first_set.jpg", (436, 434), uuid);
    var afterFirst := registry.rodentSheets;
    AssignAt(map[], RodentFirstSet, 6, RodentEntry("rodent_first_set.jpg", (436, 434)), 4);
    ghost var m1 := registry.squeakSheets;
    registry.RegisterSet(RodentSecondSet, secondSqueaks, "rodent_second_set.jpg", (347, 347), Later(uuid, |RodentFirstSet|));
    SqueakKeysDistinct(firstSqueaks, secondSqueaks, uuid, "rodent_first_set.jpg", (436, 434),
                       "rodent_second_set.jpg", (347, 347), m1, registry.squeakSheets);
    AssignSkips(afterFirst, RodentSecondSet, 4, RodentEntry("rodent_second_set.jpg", (347, 347)), "Tailblazer");
    AssignAt(afterFirst, RodentSecondSet, 4, RodentEntry("rodent_second_set.jpg", (347, 347)), 0);
  }
}
