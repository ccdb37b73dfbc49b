/** Which texture each of the twelve triangles of a feature hexagon takes
    (frontend/feature_texture.py): triangle i is one half of edge i // 2, and
    its texture depends on whether the feature continues across that edge and
    across the neighbouring edge that the half touches. */
module FeatureTextures {
  import opened Wrappers
  import opened Hexagon

  datatype TriangleType = Isolated | Connected | FullConnected

  /** The neighbours re-indexed from "east, then counter-clockwise" (the
      direction order of the hexagon) to "east, then clockwise": position k
      holds direction 0 for k = 0 and direction 6 - k otherwise. */
  function Clockwise(ns: seq<OddR>): (r: seq<OddR>)
    requires |ns| == 6
    ensures |r| == 6
    ensures r[0] == ns[0] && forall k :: 1 <= k < 6 ==> r[k] == ns[6 - k]
  {
    [ns[0]] + [ns[5], ns[4], ns[3], ns[2], ns[1]]
  }

  /** The direction of the hexagon that clockwise position k shows. */
  function Direction(k: int): (d: int)
    requires 0 <= k < 6
    ensures 0 <= d < 6
  {
    if k == 0 then 0 else 6 - k
  }

  /** Python's `xs[k]` on a list of six: negative positions count from the end,
      and anything outside -6..5 raises IndexError. */
  function At6(xs: seq<OddR>, k: int): Result<OddR>
    requires |xs| == 6
  {
    if 0 <= k < 6 then Ok(xs[k])
    else if -6 <= k < 0 then Ok(xs[k + 6])
    else Err(IndexError)
  }

  /** `_get_triangle_type`. The floor division and the remainders agree with
      Python's for every integer index. */
  function GetTriangleType(i: int, coord: OddR, featureCoords: seq<OddR>): Result<TriangleType>
  {
    var edge := i / 2;
    var isRight := i % 2 == 1;
    var ns := Clockwise(Neighbors(coord));
    match At6(ns, edge)
    case Err(e) => Err(e)
    case Ok(n) =>
      if n !in featureCoords then Ok(Isolated)
      else
        var adjacent := if isRight then ns[(edge + 1) % 6] else ns[(edge - 1) % 6];
        if adjacent in featureCoords then Ok(FullConnected) else Ok(Connected)
  }

  /** The texture of each of the twelve triangles: ISOLATED exactly when the
      hexagon across its edge holds no feature; otherwise FULL_CONNECTED
      exactly when the hexagon across the edge it touches (the next edge
      clockwise for a right half, the previous one for a left half) holds a
      feature too, and CONNECTED if not. */
  lemma TriangleTypeMeaning(i: int, coord: OddR, featureCoords: seq<OddR>)
    requires 0 <= i < 12
    ensures var r := GetTriangleType(i, coord, featureCoords);
            var edge := i / 2;
            var across := Neighbor(coord, Direction(edge));
            var beside := Neighbor(coord, Direction(if i % 2 == 1 then (edge + 1) % 6 else (edge + 5) % 6));
            && r.Ok?
            && (r.value == Isolated <==> across !in featureCoords)
            && (r.value == FullConnected <==> across in featureCoords && beside in featureCoords)
            && (r.value == Connected <==> across in featureCoords && beside !in featureCoords)
  {
    var edge := i / 2;
    assert (edge - 1) % 6 == (edge + 5) % 6;
  }

  /** Indices past the twelfth triangle, or before the twelfth from the end,
      raise IndexError; every other index is answered. */
  lemma TriangleIndexBounds(i: int, coord: OddR, featureCoords: seq<OddR>)
    ensures GetTriangleType(i, coord, featureCoords).Err? <==> i < -12 || i >= 12
    ensures GetTriangleType(i, coord, featureCoords).Err? ==> GetTriangleType(i, coord, featureCoords).error == IndexError
  {
  }

  /** The two triangles that meet at the corner between edge e and the next
      edge clockwise look at the same two neighbours, so one is fully
      connected exactly when the other is. */
  lemma {:induction false} CornerAgrees(e: int, coord: OddR, featureCoords: seq<OddR>)
    requires 0 <= e < 6
    ensures (GetTriangleType(2 * e + 1, coord, featureCoords) == Ok(FullConnected)) <==>
            (GetTriangleType(2 * ((e + 1) % 6), coord, featureCoords) == Ok(FullConnected))
  {
    var f := (e + 1) % 6;
    TriangleTypeMeaning(2 * e + 1, coord, featureCoords);
    TriangleTypeMeaning(2 * f, coord, featureCoords);
    assert (2 * e + 1) / 2 == e && (2 * e + 1) % 2 == 1;
    assert (2 * f) / 2 == f && (2 * f) % 2 == 0;
    assert (f + 5) % 6 == e;
  }

  /** A triangle index and the same index shifted by twelve (Python's negative
      indexing) give the same texture. */
  lemma NegativeIndexWraps(i: int, coord: OddR, featureCoords: seq<OddR>)
    requires 0 <= i < 12
    ensures GetTriangleType(i - 12, coord, featureCoords) == GetTriangleType(i, coord, featureCoords)
  {
    assert (i - 12) / 2 == i / 2 - 6;
    assert (i - 12) % 2 == i % 2;
    assert (i / 2 - 6 + 1) % 6 == (i / 2 + 1) % 6;
    assert (i / 2 - 6 - 1) % 6 == (i / 2 - 1) % 6;
  }
}
