/** Hexagon coordinates (hexagon.py): odd-r offset coordinates for pointy-top
    tiles, their axial and cube forms, the cube distance, the neighbour table
    and the hexagonal range enumeration. */
module Hexagon {
  import opened Wrappers

  /** Odd-r offset coordinate: column x, row y. */
  datatype OddR = OddR(x: int, y: int)
  datatype Axial = Axial(q: int, r: int)
  datatype Cube = Cube(q: int, r: int, s: int)

  function Abs(v: int): nat { if v < 0 then -v else v }

  /** Python's `row & 1`; for negative rows it agrees with the Euclidean `%`. */
  function Parity(row: int): (p: int)
    ensures p == 0 || p == 1
    ensures (row - p) % 2 == 0
  {
    row % 2
  }

  /** `OddRCoord.to_axial`. `(row - parity) // 2` divides an even number, so it is exact. */
  function ToAxial(c: OddR): Axial
  {
    Axial(c.x - (c.y - Parity(c.y)) / 2, c.y)
  }

  /** `_AxialCoord.to_odd_r`: the inverse of ToAxial for every pair of integers. */
  function ToOddR(a: Axial): (c: OddR)
    ensures ToAxial(c) == a
  {
    OddR(a.q + (a.r - Parity(a.r)) / 2, a.r)
  }

  /** `_AxialCoord.to_cube`: the third cube component closes q + r + s = 0. */
  function ToCube(a: Axial): (c: Cube)
    ensures c.q + c.r + c.s == 0
    ensures c.q == a.q && c.r == a.r
  {
    Cube(a.q, a.r, -a.q - a.r)
  }

  function OddRToCube(c: OddR): Cube { ToCube(ToAxial(c)) }

  /** `_CubeCoord.get_distance`: half the L1 norm of the cube difference. */
  function CubeDistance(a: Cube, b: Cube): int
  {
    (Abs(a.q - b.q) + Abs(a.r - b.r) + Abs(a.s - b.s)) / 2
  }

  /** `OddRCoord.get_distance`. */
  function Distance(a: OddR, b: OddR): int
  {
    CubeDistance(OddRToCube(a), OddRToCube(b))
  }

  /** `OddRCoord.__add__` and `__sub__`: componentwise on the offset pair. */
  function Add(a: OddR, b: OddR): OddR { OddR(a.x + b.x, a.y + b.y) }
  function Sub(a: OddR, b: OddR): OddR { OddR(a.x - b.x, a.y - b.y) }

  /** `DIRECTION_DIFFERENCES[parity][direction]`. */
  function DirectionDifference(parity: int, direction: int): (d: OddR)
    requires parity == 0 || parity == 1
    requires 0 <= direction < 6
  {
    if parity == 0 then
      [OddR(1, 0), OddR(0, -1), OddR(-1, -1), OddR(-1, 0), OddR(-1, 1), OddR(0, 1)][direction]
    else
      [OddR(1, 0), OddR(1, -1), OddR(0, -1), OddR(-1, 0), OddR(0, 1), OddR(1, 1)][direction]
  }

  /** The neighbour in a direction already known to be valid. */
  function Neighbor(c: OddR, direction: int): OddR
    requires 0 <= direction < 6
  {
    Add(c, DirectionDifference(Parity(c.y), direction))
  }

  /** `OddRCoord.get_neighbor`: ValueError outside directions 0..5. */
  function GetNeighbor(c: OddR, direction: int): (r: Result<OddR>)
    ensures r.Err? <==> !(0 <= direction < 6)
    ensures r.Err? ==> r.error == ValueError
    ensures r.Ok? ==> Distance(c, r.value) == 1
  {
    if 0 <= direction < 6 then NeighborAtDistanceOne(c, direction); Ok(Neighbor(c, direction))
    else Err(ValueError)
  }

  /** `OddRCoord.get_neighbors`: the six neighbours in direction order. */
  function Neighbors(c: OddR): (ns: seq<OddR>)
    ensures |ns| == 6
    ensures forall d :: 0 <= d < 6 ==> ns[d] == Neighbor(c, d)
  {
    seq(6, d requires 0 <= d < 6 => Neighbor(c, d))
  }

  // ---------------------------------------------------------------------------
  // Conversions

  /** Odd-r to axial and back is the identity, negative rows included. */
  lemma OddRRoundTrip(c: OddR)
    ensures ToOddR(ToAxial(c)) == c
  {
    var p := Parity(c.y);
    assert (c.y - p) / 2 * 2 == c.y - p;
  }

  lemma ToAxialInjective(a: OddR, b: OddR)
    requires ToAxial(a) == ToAxial(b)
    ensures a == b
  {
    OddRRoundTrip(a);
    OddRRoundTrip(b);
  }

  // ---------------------------------------------------------------------------
  // Distance is a metric

  /** The numerator of the cube distance is even, so the halving is exact. */
  lemma CubeNumeratorEven(a: Cube, b: Cube)
    requires a.q + a.r + a.s == 0 && b.q + b.r + b.s == 0
    ensures (Abs(a.q - b.q) + Abs(a.r - b.r) + Abs(a.s - b.s)) % 2 == 0
    ensures 2 * CubeDistance(a, b) == Abs(a.q - b.q) + Abs(a.r - b.r) + Abs(a.s - b.s)
  {
    var dq, dr, ds := a.q - b.q, a.r - b.r, a.s - b.s;
    assert dq + dr + ds == 0;
    // |v| and v differ by 2v or 0, so both sums have the parity of dq + dr + ds.
    assert (Abs(dq) - dq) % 2 == 0 && (Abs(dr) - dr) % 2 == 0 && (Abs(ds) - ds) % 2 == 0;
  }

  /** The distance equals the largest cube component of the difference. */
  lemma DistanceIsMaxComponent(a: OddR, b: OddR)
    ensures var ca, cb := OddRToCube(a), OddRToCube(b);
      var m := Abs(ca.q - cb.q);
      var m2 := if Abs(ca.r - cb.r) > m then Abs(ca.r - cb.r) else m;
      Distance(a, b) == if Abs(ca.s - cb.s) > m2 then Abs(ca.s - cb.s) else m2
  {
    CubeNumeratorEven(OddRToCube(a), OddRToCube(b));
  }

  lemma DistanceZeroIffEqual(a: OddR, b: OddR)
    ensures Distance(a, b) >= 0
    ensures Distance(a, b) == 0 <==> a == b
  {
    CubeNumeratorEven(OddRToCube(a), OddRToCube(b));
    if Distance(a, b) == 0 {
      ToAxialInjective(a, b);
    }
  }

  lemma DistanceSymmetric(a: OddR, b: OddR)
    ensures Distance(a, b) == Distance(b, a)
  {
  }

  lemma DistanceTriangle(a: OddR, b: OddR, c: OddR)
    ensures Distance(a, c) <= Distance(a, b) + Distance(b, c)
  {
    var ca, cb, cc := OddRToCube(a), OddRToCube(b), OddRToCube(c);
    CubeNumeratorEven(ca, cb);
    CubeNumeratorEven(cb, cc);
    CubeNumeratorEven(ca, cc);
    CubeNumeratorTriangle(ca, cb, cc);
  }

  /** The L1 norm of cube differences obeys the triangle inequality. */
  lemma CubeNumeratorTriangle(a: Cube, b: Cube, c: Cube)
    ensures Abs(a.q - c.q) + Abs(a.r - c.r) + Abs(a.s - c.s)
            <= (Abs(a.q - b.q) + Abs(a.r - b.r) + Abs(a.s - b.s)) + (Abs(b.q - c.q) + Abs(b.r - c.r) + Abs(b.s - c.s))
  {
    AbsTriangle(a.q, b.q, c.q);
    AbsTriangle(a.r, b.r, c.r);
    AbsTriangle(a.s, b.s, c.s);
  }

  lemma AbsTriangle(x: int, y: int, z: int)
    ensures Abs(x - z) <= Abs(x - y) + Abs(y - z)
  {
  }

  // ---------------------------------------------------------------------------
  // Neighbours

  /** Each neighbour is at distance exactly 1. */
  lemma NeighborAtDistanceOne(c: OddR, direction: int)
    requires 0 <= direction < 6
    ensures Distance(c, Neighbor(c, direction)) == 1
  {
  }

  /** The six neighbours are pairwise distinct. */
  lemma NeighborsDistinct(c: OddR, d1: int, d2: int)
    requires 0 <= d1 < 6 && 0 <= d2 < 6 && d1 != d2
    ensures Neighbor(c, d1) != Neighbor(c, d2)
  {
  }

  /** The axial unit vector of each direction; it does not depend on the row parity. */
  function AxialStep(direction: int): Axial
    requires 0 <= direction < 6
  {
    [Axial(1, 0), Axial(1, -1), Axial(0, -1), Axial(-1, 0), Axial(-1, 1), Axial(0, 1)][direction]
  }

  lemma NeighborAxial(c: OddR, direction: int)
    requires 0 <= direction < 6
    ensures ToAxial(Neighbor(c, direction))
      == Axial(ToAxial(c).q + AxialStep(direction).q, ToAxial(c).r + AxialStep(direction).r)
  {
  }

  /** Conversely, every coordinate at distance 1 is one of the six neighbours. */
  lemma DistanceOneIsNeighbor(c: OddR, n: OddR)
    requires Distance(c, n) == 1
    ensures exists d :: 0 <= d < 6 && Neighbor(c, d) == n
  {
    var cc, cn := OddRToCube(c), OddRToCube(n);
    CubeNumeratorEven(cn, cc);
    var dq, dr := cn.q - cc.q, cn.r - cc.r;
    // In axial terms the difference is one of the six unit vectors.
    var d := if (dq, dr) == (1, 0) then 0 else if (dq, dr) == (1, -1) then 1
      else if (dq, dr) == (0, -1) then 2 else if (dq, dr) == (-1, 0) then 3
      else if (dq, dr) == (-1, 1) then 4 else 5;
    assert AxialStep(d) == Axial(dq, dr);
    NeighborAxial(c, d);
    ToAxialInjective(Neighbor(c, d), n);
  }

  /** One step to a neighbour moves at most one unit away from any coordinate. */
  lemma NeighborDistanceStep(o: OddR, p: OddR, direction: int)
    requires 0 <= direction < 6
    ensures Distance(o, Neighbor(p, direction)) <= Distance(o, p) + 1
  {
    DistanceTriangle(o, p, Neighbor(p, direction));
    NeighborAtDistanceOne(p, direction);
  }

  /** `(a + b) - b == a`. */
  lemma AddSubInverse(a: OddR, b: OddR)
    ensures Sub(Add(a, b), b) == a && Add(Sub(a, b), b) == a
  {
  }

  // ---------------------------------------------------------------------------
  // Range enumeration

  function Min(a: int, b: int): int { if a < b then a else b }
  function Max(a: int, b: int): int { if a < b then b else a }

  /** The inner loop of `_AxialCoord.all_in_range` for one column offset q:
      r runs from max(-N, -q-N) to min(N, -q+N), each offset added to the centre. */
  function RangeColumn(center: Axial, n: int, q: int): seq<OddR>
  {
    var lo, hi := Max(-n, -q - n), Min(n, -q + n);
    if hi < lo then []
    else seq(hi - lo + 1, i requires 0 <= i < hi - lo + 1 => ToOddR(Axial(center.q + q, center.r + lo + i)))
  }

  /** The outer loop, from column offset q up to N. */
  function RangeFrom(center: Axial, n: int, q: int): seq<OddR>
    decreases n + 1 - q
  {
    if q > n then [] else RangeColumn(center, n, q) + RangeFrom(center, n, q + 1)
  }

  /** `OddRCoord.all_in_range`: the enumeration runs in axial coordinates
      and converts each coordinate back to odd-r. */
  function AllInRange(c: OddR, n: int): seq<OddR>
  {
    RangeFrom(ToAxial(c), n, -n)
  }

  /** The axial offset of a lies in the three bands |dq|, |dr|, |dq + dr| <= N. */
  predicate InHexagon(center: Axial, n: int, a: Axial)
  {
    var dq, dr := a.q - center.q, a.r - center.r;
    -n <= dq <= n && Max(-n, -dq - n) <= dr <= Min(n, -dq + n)
  }

  lemma RangeColumnMembers(center: Axial, n: int, q: int, x: OddR)
    requires -n <= q <= n
    ensures x in RangeColumn(center, n, q)
      <==> ToAxial(x).q == center.q + q && InHexagon(center, n, ToAxial(x))
  {
    var lo, hi := Max(-n, -q - n), Min(n, -q + n);
    var s := RangeColumn(center, n, q);
    if x in s {
      var i :| 0 <= i < |s| && s[i] == x;
      assert hi >= lo && s[i] == ToOddR(Axial(center.q + q, center.r + lo + i));
    }
    if ToAxial(x).q == center.q + q && InHexagon(center, n, ToAxial(x)) {
      var i := ToAxial(x).r - center.r - lo;
      assert 0 <= i <= hi - lo;
      OddRRoundTrip(x);
      assert s[i] == ToOddR(ToAxial(x));
    }
  }

  lemma {:induction false} RangeFromMembers(center: Axial, n: int, q: int, x: OddR)
    requires -n <= q
    ensures x in RangeFrom(center, n, q)
      <==> q <= ToAxial(x).q - center.q && InHexagon(center, n, ToAxial(x))
    decreases n + 1 - q
  {
    if q <= n {
      RangeColumnMembers(center, n, q, x);
      RangeFromMembers(center, n, q + 1, x);
    }
  }

  predicate Distinct<T(==)>(s: seq<T>)
  {
    forall i, j :: 0 <= i < j < |s| ==> s[i] != s[j]
  }

  lemma {:induction false} RangeFromDistinct(center: Axial, n: int, q: int)
    requires -n <= q
    ensures Distinct(RangeFrom(center, n, q))
    decreases n + 1 - q
  {
    if q <= n {
      var col, rest := RangeColumn(center, n, q), RangeFrom(center, n, q + 1);
      RangeFromDistinct(center, n, q + 1);
      forall i, j | 0 <= i < j < |col| ensures col[i] != col[j] {
        var lo := Max(-n, -q - n);
        assert col[i] == ToOddR(Axial(center.q + q, center.r + lo + i));
        assert col[j] == ToOddR(Axial(center.q + q, center.r + lo + j));
        assert ToAxial(col[i]).r != ToAxial(col[j]).r;
      }
      forall i, j | 0 <= i < |col| && 0 <= j < |rest| ensures col[i] != rest[j] {
        RangeColumnMembers(center, n, q, col[i]);
        RangeFromMembers(center, n, q + 1, rest[j]);
      }
      var s := col + rest;
      forall i, j | 0 <= i < j < |s| ensures s[i] != s[j] {
        if j < |col| {
        } else if i >= |col| {
          assert s[i] == rest[i - |col|] && s[j] == rest[j - |col|];
        } else {
          assert s[j] == rest[j - |col|];
        }
      }
    }
  }

  /** Being in the axial bands is being within cube distance N. */
  lemma InHexagonIsDistance(c: OddR, n: int, x: OddR)
    ensures InHexagon(ToAxial(c), n, ToAxial(x)) <==> Distance(c, x) <= n
  {
    CubeNumeratorEven(OddRToCube(x), OddRToCube(c));
    DistanceSymmetric(c, x);
  }

  /** `all_in_range(N)` yields exactly the coordinates within distance N of the
      centre, each exactly once (nothing at all for a negative N). */
  lemma AllInRangeExact(c: OddR, n: int, x: OddR)
    ensures x in AllInRange(c, n) <==> Distance(c, x) <= n
    ensures Distinct(AllInRange(c, n))
  {
    RangeFromMembers(ToAxial(c), n, -n, x);
    InHexagonIsDistance(c, n, x);
    RangeFromDistinct(ToAxial(c), n, -n);
  }
}
