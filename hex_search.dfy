/** The two searches of hexagon.py: the bounded breadth-first reachability
    search `get_reachable_coords` and the A* `path_find`. Both take the
    movement-blocking callback `is_coord_blocked(target, source)`. */
module HexSearch {
  import opened Wrappers
  import opened Hexagon

  /** `IsCoordBlocked`: whether `target` cannot be entered from `source`. */
  type Blocked = (OddR, OddR) -> bool

  /** One unblocked step from p to n. */
  ghost predicate StepOk(p: OddR, n: OddR, blocked: Blocked)
  {
    exists d :: 0 <= d < 6 && Neighbor(p, d) == n && !blocked(n, p)
  }

  /** The neighbours of p in the first `upTo` directions that are not blocked from p. */
  ghost function Out(p: OddR, blocked: Blocked, upTo: int): set<OddR>
    requires 0 <= upTo <= 6
  {
    set d | 0 <= d < upTo && !blocked(Neighbor(p, d), p) :: Neighbor(p, d)
  }

  /** Everything one unblocked step away from a coordinate of s. */
  ghost function Step(s: set<OddR>, blocked: Blocked): set<OddR>
  {
    set p, d | p in s && 0 <= d < 6 && !blocked(Neighbor(p, d), p) :: Neighbor(p, d)
  }

  /** The coordinates reachable from o in at most k unblocked steps. */
  ghost function Reach(o: OddR, blocked: Blocked, k: nat): set<OddR>
  {
    if k == 0 then {o} else Reach(o, blocked, k - 1) + Step(Reach(o, blocked, k - 1), blocked)
  }

  /** The coordinates first reached after exactly k steps (the k-th fringe). */
  ghost function Fringe(o: OddR, blocked: Blocked, k: nat): set<OddR>
  {
    if k == 0 then {o} else Reach(o, blocked, k) - Reach(o, blocked, k - 1)
  }

  ghost predicate Reachable(o: OddR, goal: OddR, blocked: Blocked)
  {
    exists k: nat :: goal in Reach(o, blocked, k)
  }

  ghost function Elems(s: seq<OddR>): set<OddR>
  {
    set x | x in s
  }

  // ---------------------------------------------------------------------------
  // Facts about the specification

  lemma StepUnion(a: set<OddR>, b: set<OddR>, blocked: Blocked)
    ensures Step(a + b, blocked) == Step(a, blocked) + Step(b, blocked)
  {
  }

  lemma StepSingleton(p: OddR, blocked: Blocked)
    ensures Step({p}, blocked) == Out(p, blocked, 6)
  {
  }

  lemma OutNext(p: OddR, blocked: Blocked, d: int)
    requires 0 <= d < 6
    ensures Out(p, blocked, d + 1)
      == Out(p, blocked, d) + (if blocked(Neighbor(p, d), p) then {} else {Neighbor(p, d)})
  {
  }

  lemma ElemsAppend(s: seq<OddR>, x: OddR)
    ensures Elems(s + [x]) == Elems(s) + {x}
  {
  }

  lemma ElemsSnoc(s: seq<OddR>, i: int)
    requires 0 <= i < |s|
    ensures Elems(s[..i + 1]) == Elems(s[..i]) + {s[i]}
  {
    assert s[..i + 1] == s[..i] + [s[i]];
  }

  lemma {:induction false} ReachMonotone(o: OddR, blocked: Blocked, k: nat, j: nat)
    requires k <= j
    ensures Reach(o, blocked, k) <= Reach(o, blocked, j)
    decreases j - k
  {
    if k < j {
      ReachMonotone(o, blocked, k, j - 1);
    }
  }

  /** Expanding only the newest fringe is enough: every step out of an older
      level already lands inside Reach(k). */
  lemma ReachFromFringe(o: OddR, blocked: Blocked, k: nat)
    ensures Reach(o, blocked, k + 1) == Reach(o, blocked, k) + Step(Fringe(o, blocked, k), blocked)
  {
    if k > 0 {
      var older, now := Reach(o, blocked, k - 1), Reach(o, blocked, k);
      assert now == older + Fringe(o, blocked, k);
      StepUnion(older, Fringe(o, blocked, k), blocked);
    }
  }

  /** Every coordinate of Reach(k) lies within distance k of the origin. */
  lemma {:induction false} ReachWithinDistance(o: OddR, blocked: Blocked, k: nat, x: OddR)
    requires x in Reach(o, blocked, k)
    ensures Distance(o, x) <= k
  {
    if k == 0 {
      DistanceZeroIffEqual(o, x);
    } else if x in Reach(o, blocked, k - 1) {
      ReachWithinDistance(o, blocked, k - 1, x);
    } else {
      var p, d :| p in Reach(o, blocked, k - 1) && 0 <= d < 6
        && !blocked(Neighbor(p, d), p) && Neighbor(p, d) == x;
      ReachWithinDistance(o, blocked, k - 1, p);
      NeighborDistanceStep(o, p, d);
    }
  }

  /** Every reached coordinate other than the origin was entered from a
      coordinate reached one step earlier, by a step that is not blocked. */
  lemma {:induction false} ReachEntered(o: OddR, blocked: Blocked, k: nat, x: OddR)
    requires x in Reach(o, blocked, k) && x != o
    ensures k > 0 && exists p :: p in Reach(o, blocked, k - 1) && StepOk(p, x, blocked)
  {
    assert k > 0;
    if x in Reach(o, blocked, k - 1) {
      ReachEntered(o, blocked, k - 1, x);
      var p :| p in Reach(o, blocked, k - 2) && StepOk(p, x, blocked);
      ReachMonotone(o, blocked, k - 2, k - 1);
    } else {
      var p, d :| p in Reach(o, blocked, k - 1) && 0 <= d < 6
        && !blocked(Neighbor(p, d), p) && Neighbor(p, d) == x;
      assert StepOk(p, x, blocked);
    }
  }

  // ---------------------------------------------------------------------------
  // get_reachable_coords

  /** `OddRCoord.get_reachable_coords`: breadth-first, one fringe per step of
      reach. The result is exactly what can be reached in `reach` unblocked
      steps (none for a negative reach), without the origin unless asked for. */
  method GetReachableCoords(o: OddR, reach: int, blocked: Blocked, includeSelf: bool)
    returns (visited: set<OddR>)
    ensures visited == Reach(o, blocked, if reach < 0 then 0 else reach)
      - (if includeSelf then {} else {o})
  {
    visited := {o};
    var fringes: seq<seq<OddR>> := [[o]];
    var k := 0;
    while k < reach
      invariant 0 <= k && (reach >= 0 ==> k <= reach) && (reach < 0 ==> k == 0)
      invariant |fringes| == k + 1
      invariant visited == Reach(o, blocked, k)
      invariant Elems(fringes[k]) == Fringe(o, blocked, k)
    {
      ghost var reached := visited;
      // `fringes.append([])`, filled through `next` while fringes[k] is scanned.
      var current, next := fringes[k], [];
      var i := 0;
      while i < |current|
        invariant 0 <= i <= |current|
        invariant visited == reached + Step(Elems(current[..i]), blocked)
        invariant Elems(next) == visited - reached
      {
        var coord := current[i];
        ghost var before := visited;
        var d := 0;
        while d < 6
          invariant 0 <= d <= 6
          invariant visited == before + Out(coord, blocked, d)
          invariant reached <= before
          invariant Elems(next) == visited - reached
        {
          var neighbor := Neighbor(coord, d);
          OutNext(coord, blocked, d);
          if neighbor !in visited && !blocked(neighbor, coord) {
            visited := visited + {neighbor};
            ElemsAppend(next, neighbor);
            next := next + [neighbor];
          }
          d := d + 1;
        }
        ElemsSnoc(current, i);
        StepSingleton(coord, blocked);
        StepUnion(Elems(current[..i]), {coord}, blocked);
        i := i + 1;
      }
      assert current[..|current|] == current;
      ReachFromFringe(o, blocked, k);
      fringes := fringes + [next];
      k := k + 1;
    }
    if !includeSelf {
      visited := visited - {o};
    }
  }

  // ---------------------------------------------------------------------------
  // path_find

  /** `_AStarCoord`: a frontier entry, ordered by its priority only. */
  datatype AStarCoord = AStarCoord(priority: int, coord: OddR)

  /** A path from o to goal made of unblocked neighbour steps. */
  ghost predicate IsPath(path: seq<OddR>, o: OddR, goal: OddR, blocked: Blocked)
  {
    |path| > 0 && path[0] == o && path[|path| - 1] == goal
    && forall i :: 0 <= i < |path| - 1 ==> StepOk(path[i], path[i + 1], blocked)
  }

  ghost function Coords(frontier: seq<AStarCoord>): set<OddR>
  {
    set i | 0 <= i < |frontier| :: frontier[i].coord
  }

  /** Every unblocked neighbour of k has been discovered. */
  ghost predicate Closed(k: OddR, known: set<OddR>, blocked: Blocked)
  {
    forall d :: 0 <= d < 6 && !blocked(Neighbor(k, d), k) ==> Neighbor(k, d) in known
  }

  /** The `came_from` links: the start has none, every other discovered
      coordinate was entered from its parent by an unblocked step, and the
      parent's cost is strictly lower, so following links always ends. */
  ghost predicate LinksOk(o: OddR, cameFrom: map<OddR, Option<OddR>>, costSoFar: map<OddR, nat>,
                          blocked: Blocked)
  {
    && cameFrom.Keys == costSoFar.Keys
    && o in cameFrom && cameFrom[o] == None && costSoFar[o] == 0
    && forall k :: k in cameFrom && k != o ==>
         && cameFrom[k].Some? && cameFrom[k].value in costSoFar
         && costSoFar[cameFrom[k].value] < costSoFar[k]
         && StepOk(cameFrom[k].value, k, blocked)
  }

  /** Giving `next` the parent `current` and a cost above the parent's keeps the links sound. */
  lemma LinksUpdate(o: OddR, cameFrom: map<OddR, Option<OddR>>, costSoFar: map<OddR, nat>,
                    blocked: Blocked, current: OddR, next: OddR, newCost: nat)
    requires LinksOk(o, cameFrom, costSoFar, blocked)
    requires current in costSoFar && StepOk(current, next, blocked)
    requires costSoFar[current] < newCost
    requires next !in costSoFar || newCost < costSoFar[next]
    ensures LinksOk(o, cameFrom[next := Some(current)], costSoFar[next := newCost], blocked)
  {
  }

  lemma ClosedGrow(known: set<OddR>, more: set<OddR>, blocked: Blocked)
    requires known <= more
    ensures forall k :: Closed(k, known, blocked) ==> Closed(k, more, blocked)
  {
  }

  /** Sum of all costs; it falls whenever a known cost is lowered. */
  ghost function CostSum(m: map<OddR, nat>): nat
    decreases |m.Keys|
  {
    if m.Keys == {} then 0
    else
      var k :| k in m.Keys;
      assert (m - {k}).Keys == m.Keys - {k};
      m[k] + CostSum(m - {k})
  }

  lemma {:induction false} CostSumRemove(m: map<OddR, nat>, k: OddR)
    requires k in m
    ensures CostSum(m) == m[k] + CostSum(m - {k})
    decreases |m.Keys|
  {
    var j :| j in m.Keys && CostSum(m) == m[j] + CostSum(m - {j});
    if j != k {
      assert (m - {j}).Keys == m.Keys - {j};
      assert (m - {k}).Keys == m.Keys - {k};
      CostSumRemove(m - {j}, k);
      CostSumRemove(m - {k}, j);
      assert m - {j} - {k} == m - {k} - {j};
    }
  }

  lemma CostSumLowered(m: map<OddR, nat>, k: OddR, v: nat)
    requires k in m && v < m[k]
    ensures CostSum(m[k := v]) < CostSum(m)
  {
    CostSumRemove(m, k);
    CostSumRemove(m[k := v], k);
    assert m[k := v] - {k} == m - {k};
  }

  lemma CoordsAppend(frontier: seq<AStarCoord>, e: AStarCoord)
    ensures Coords(frontier + [e]) == Coords(frontier) + {e.coord}
  {
    var f := frontier + [e];
    assert forall i :: 0 <= i < |frontier| ==> f[i] == frontier[i];
    assert f[|frontier|] == e;
  }

  lemma CoordsRemove(frontier: seq<AStarCoord>, j: int)
    requires 0 <= j < |frontier|
    ensures Coords(frontier) - {frontier[j].coord} <= Coords(frontier[..j] + frontier[j + 1..])
    ensures Coords(frontier[..j] + frontier[j + 1..]) <= Coords(frontier)
  {
    var f := frontier[..j] + frontier[j + 1..];
    forall x | x in Coords(frontier) - {frontier[j].coord} ensures x in Coords(f) {
      var i :| 0 <= i < |frontier| && frontier[i].coord == x;
      if i < j { assert f[i] == frontier[i]; } else { assert f[i - 1] == frontier[i]; }
    }
    forall x | x in Coords(f) ensures x in Coords(frontier) {
      var i :| 0 <= i < |f| && f[i].coord == x;
      if i < j { assert f[i] == frontier[i]; } else { assert f[i] == frontier[i + 1]; }
    }
  }

  lemma CardDrop(known: set<OddR>, keys: set<OddR>, n: OddR)
    requires n in known && n !in keys
    ensures |known - (keys + {n})| == |known - keys| - 1
  {
    assert known - (keys + {n}) == (known - keys) - {n};
  }

  /** A path of n + 1 coordinates stays inside Reach(n). */
  lemma {:induction false} PathInReach(path: seq<OddR>, o: OddR, x: OddR, blocked: Blocked)
    requires IsPath(path, o, x, blocked)
    ensures x in Reach(o, blocked, |path| - 1)
    decreases |path|
  {
    if |path| > 1 {
      var n := |path| - 1;
      var prefix := path[..n];
      assert IsPath(prefix, o, path[n - 1], blocked) by {
        forall i | 0 <= i < |prefix| - 1 ensures StepOk(prefix[i], prefix[i + 1], blocked) {
          assert StepOk(path[i], path[i + 1], blocked);
        }
      }
      PathInReach(prefix, o, path[n - 1], blocked);
      assert StepOk(path[n - 1], x, blocked);
      var d :| 0 <= d < 6 && Neighbor(path[n - 1], d) == x && !blocked(x, path[n - 1]);
      assert x in Step(Reach(o, blocked, n - 1), blocked);
    }
  }

  /** A set that holds the origin and is closed under unblocked steps holds every
      reachable coordinate. */
  lemma {:induction false} ClosedHoldsReach(o: OddR, known: set<OddR>, blocked: Blocked, k: nat)
    requires o in known
    requires forall x :: x in known ==> Closed(x, known, blocked)
    ensures Reach(o, blocked, k) <= known
  {
    if k > 0 {
      ClosedHoldsReach(o, known, blocked, k - 1);
      forall x | x in Step(Reach(o, blocked, k - 1), blocked) ensures x in known {
        var p, d :| p in Reach(o, blocked, k - 1) && 0 <= d < 6
          && !blocked(Neighbor(p, d), p) && Neighbor(p, d) == x;
        assert Closed(p, known, blocked);
      }
    }
  }

  /** `PriorityQueue.get`: the index of an entry of least priority. Which of
      several equal priorities the heap returns is not specified. */
  method MinPriority(frontier: seq<AStarCoord>) returns (j: int)
    requires |frontier| > 0
    ensures 0 <= j < |frontier|
    ensures forall i :: 0 <= i < |frontier| ==> frontier[j].priority <= frontier[i].priority
  {
    j := 0;
    var i := 1;
    while i < |frontier|
      invariant 0 <= j < i <= |frontier|
      invariant forall m :: 0 <= m < i ==> frontier[j].priority <= frontier[m].priority
    {
      if frontier[i].priority < frontier[j].priority {
        j := i;
      }
      i := i + 1;
    }
  }

  /** The search state of `path_find` is consistent: links are sound, all
      discovered coordinates lie in `known`, and each one is either still
      queued or has had all its unblocked neighbours discovered. */
  ghost predicate SearchOk(o: OddR, frontier: seq<AStarCoord>, cameFrom: map<OddR, Option<OddR>>,
                           costSoFar: map<OddR, nat>, blocked: Blocked, known: set<OddR>)
  {
    && LinksOk(o, cameFrom, costSoFar, blocked)
    && costSoFar.Keys <= known
    && Coords(frontier) <= costSoFar.Keys
    && forall k :: k in costSoFar ==> k in Coords(frontier) || Closed(k, costSoFar.Keys, blocked)
  }

  /** The bookkeeping of one expansion step of `path_find`, common to all
      six directions: links sound, discovered coordinates in `known`, queued
      coordinates discovered, and every discovered coordinate queued, closed or
      the one being expanded. */
  ghost predicate ExpandOk(o: OddR, current: OddR, frontier: seq<AStarCoord>,
                           cameFrom: map<OddR, Option<OddR>>, costSoFar: map<OddR, nat>,
                           blocked: Blocked, known: set<OddR>)
  {
    && LinksOk(o, cameFrom, costSoFar, blocked)
    && costSoFar.Keys <= known
    && Coords(frontier) <= costSoFar.Keys
    && current in costSoFar
    && forall k :: k in costSoFar ==>
         k in Coords(frontier) || Closed(k, costSoFar.Keys, blocked) || k == current
  }

  /** The body of `for next_coord in current.get_neighbors()` for one
      neighbour `next` of `current`: when the step is not blocked and `next` is
      new or now cheaper, it gets the new cost, a frontier entry and `current`
      as parent. Either a coordinate is discovered, or the sum of costs falls
      by at least the number of entries pushed. */
  method Relax(o: OddR, goal: OddR, current: OddR, d: int, blocked: Blocked,
               getCost: (OddR, OddR) -> nat, ghost known: set<OddR>,
               frontier0: seq<AStarCoord>, cameFrom0: map<OddR, Option<OddR>>,
               costSoFar0: map<OddR, nat>)
    returns (frontier: seq<AStarCoord>, cameFrom: map<OddR, Option<OddR>>, costSoFar: map<OddR, nat>)
    requires 0 <= d < 6
    requires forall p, e :: 0 <= e < 6 && !blocked(Neighbor(p, e), p) ==> Neighbor(p, e) in known
    requires forall a, b :: getCost(a, b) >= 1
    requires ExpandOk(o, current, frontier0, cameFrom0, costSoFar0, blocked, known)
    ensures ExpandOk(o, current, frontier, cameFrom, costSoFar, blocked, known)
    ensures costSoFar0.Keys <= costSoFar.Keys
    ensures !blocked(Neighbor(current, d), current) ==> Neighbor(current, d) in costSoFar
    ensures |frontier| >= |frontier0|
    ensures || |known - costSoFar.Keys| < |known - costSoFar0.Keys|
            || (costSoFar.Keys == costSoFar0.Keys
                && CostSum(costSoFar) + (|frontier| - |frontier0|) <= CostSum(costSoFar0))
  {
    frontier, cameFrom, costSoFar := frontier0, cameFrom0, costSoFar0;
    var next := Neighbor(current, d);
    if blocked(next, current) {
      return;
    }
    var newCost := costSoFar[current] + getCost(current, next);
    if next !in costSoFar || newCost < costSoFar[next] {
      if next !in costSoFar {
        CardDrop(known, costSoFar.Keys, next);
      } else {
        CostSumLowered(costSoFar, next, newCost);
      }
      assert StepOk(current, next, blocked);
      LinksUpdate(o, cameFrom, costSoFar, blocked, current, next, newCost);
      ClosedGrow(costSoFar.Keys, costSoFar.Keys + {next}, blocked);
      costSoFar := costSoFar[next := newCost];
      var priority := newCost + Distance(goal, next);
      CoordsAppend(frontier, AStarCoord(priority, next));
      frontier := frontier + [AStarCoord(priority, next)];
      cameFrom := cameFrom[next := Some(current)];
    }
  }

  lemma CardMonotone(known: set<OddR>, a: set<OddR>, b: set<OddR>)
    requires a <= b
    ensures |known - b| <= |known - a|
  {
    assert known - b <= known - a;
    SubsetCard(known - b, known - a);
  }

  lemma {:induction false} SubsetCard(a: set<OddR>, b: set<OddR>)
    requires a <= b
    ensures |a| <= |b|
    decreases |b|
  {
    if a != {} {
      var x :| x in a;
      SubsetCard(a - {x}, b - {x});
    }
  }

  /** Two steps that each discover a coordinate or lower the cost sum
      compose into one such step. */
  lemma ProgressCompose(known: set<OddR>, k0: set<OddR>, k1: set<OddR>, k2: set<OddR>,
                        s0: int, s1: int, s2: int, f0: int, f1: int, f2: int)
    requires k0 <= k1 <= k2
    requires |known - k1| < |known - k0| || (k1 == k0 && s1 + (f1 - f0) <= s0)
    requires |known - k2| < |known - k1| || (k2 == k1 && s2 + (f2 - f1) <= s1)
    ensures |known - k2| < |known - k0| || (k2 == k0 && s2 + (f2 - f0) <= s0)
  {
    CardMonotone(known, k1, k2);
  }

  /** Once all six directions are done, the expanded coordinate is closed. */
  lemma CloseExpanded(o: OddR, current: OddR, frontier: seq<AStarCoord>,
                      cameFrom: map<OddR, Option<OddR>>, costSoFar: map<OddR, nat>,
                      blocked: Blocked, known: set<OddR>)
    requires ExpandOk(o, current, frontier, cameFrom, costSoFar, blocked, known)
    requires Out(current, blocked, 6) <= costSoFar.Keys
    ensures SearchOk(o, frontier, cameFrom, costSoFar, blocked, known)
  {
    forall e | 0 <= e < 6 && !blocked(Neighbor(current, e), current)
      ensures Neighbor(current, e) in costSoFar
    {
      assert Neighbor(current, e) in Out(current, blocked, 6);
    }
  }

  /** The `for next_coord in current.get_neighbors()` loop of `path_find`,
      after `current` has been taken off the frontier. Afterwards `current` is
      closed, and either a coordinate was discovered or the sum of costs fell
      by at least the number of entries pushed. */
  method ExpandNeighbors(o: OddR, goal: OddR, current: OddR, blocked: Blocked,
                         getCost: (OddR, OddR) -> nat, ghost known: set<OddR>,
                         frontier0: seq<AStarCoord>, cameFrom0: map<OddR, Option<OddR>>,
                         costSoFar0: map<OddR, nat>)
    returns (frontier: seq<AStarCoord>, cameFrom: map<OddR, Option<OddR>>, costSoFar: map<OddR, nat>)
    requires forall p, d :: 0 <= d < 6 && !blocked(Neighbor(p, d), p) ==> Neighbor(p, d) in known
    requires forall a, b :: getCost(a, b) >= 1
    requires ExpandOk(o, current, frontier0, cameFrom0, costSoFar0, blocked, known)
    ensures SearchOk(o, frontier, cameFrom, costSoFar, blocked, known)
    ensures costSoFar0.Keys <= costSoFar.Keys
    ensures || |known - costSoFar.Keys| < |known - costSoFar0.Keys|
            || (costSoFar.Keys == costSoFar0.Keys
                && CostSum(costSoFar) + (|frontier| - |frontier0|) <= CostSum(costSoFar0)
                && |frontier| >= |frontier0|)
  {
    frontier, cameFrom, costSoFar := frontier0, cameFrom0, costSoFar0;
    var d := 0;
    while d < 6
      invariant 0 <= d <= 6
      invariant ExpandOk(o, current, frontier, cameFrom, costSoFar, blocked, known)
      invariant costSoFar0.Keys <= costSoFar.Keys
      invariant Out(current, blocked, d) <= costSoFar.Keys
      invariant |frontier| >= |frontier0|
      invariant || |known - costSoFar.Keys| < |known - costSoFar0.Keys|
                || (costSoFar.Keys == costSoFar0.Keys
                    && CostSum(costSoFar) + (|frontier| - |frontier0|) <= CostSum(costSoFar0))
    {
      ghost var keys, sum, len := costSoFar.Keys, CostSum(costSoFar), |frontier|;
      frontier, cameFrom, costSoFar :=
        Relax(o, goal, current, d, blocked, getCost, known, frontier, cameFrom, costSoFar);
      ProgressCompose(known, costSoFar0.Keys, keys, costSoFar.Keys, CostSum(costSoFar0), sum,
                      CostSum(costSoFar), |frontier0|, len, |frontier|);
      OutNext(current, blocked, d);
      d := d + 1;
    }
    CloseExpanded(o, current, frontier, cameFrom, costSoFar, blocked, known);
  }

  /** The closing `while current_ is not None` loop of `path_find`: follows the
      links back from the goal to the start. The source appends and then
      reverses the list, which is the same as prepending here. */
  method RebuildPath(o: OddR, goal: OddR, cameFrom: map<OddR, Option<OddR>>,
                     costSoFar: map<OddR, nat>, blocked: Blocked)
    returns (p: seq<OddR>)
    requires LinksOk(o, cameFrom, costSoFar, blocked)
    requires goal in cameFrom
    ensures IsPath(p, o, goal, blocked)
  {
    p := [];
    var cur: Option<OddR> := Some(goal);
    while cur.Some?
      invariant cur.Some? ==> cur.value in cameFrom
      invariant cur.Some? && |p| == 0 ==> cur.value == goal
      invariant cur.Some? && |p| > 0 ==> StepOk(cur.value, p[0], blocked)
      invariant cur.None? ==> |p| > 0 && p[0] == o
      invariant |p| > 0 ==> p[|p| - 1] == goal
      invariant forall i :: 0 <= i < |p| - 1 ==> StepOk(p[i], p[i + 1], blocked)
      decreases if cur.Some? then costSoFar[cur.value] + 1 else 0
    {
      var c := cur.value;
      p := [c] + p;
      cur := cameFrom[c];
    }
  }

  /** `OddRCoord.path_find`: A* over unblocked neighbour steps, with integer
      step costs of at least 1 (the default cost is 1). `area` is a finite set
      outside of which every step is blocked (the board blocks every coordinate
      without a tile); without it the search need not end. A returned path runs
      from o to goal by unblocked steps, and None is returned exactly when goal
      cannot be reached at all. */
  method PathFind(o: OddR, goal: OddR, blocked: Blocked, getCost: (OddR, OddR) -> nat,
                  ghost area: set<OddR>)
    returns (path: Option<seq<OddR>>)
    requires forall p, d :: 0 <= d < 6 && !blocked(Neighbor(p, d), p) ==> Neighbor(p, d) in area
    requires forall a, b :: getCost(a, b) >= 1
    ensures path.Some? ==> IsPath(path.value, o, goal, blocked)
    ensures path.None? <==> !Reachable(o, goal, blocked)
  {
    var frontier := [AStarCoord(0, o)];
    var cameFrom: map<OddR, Option<OddR>> := map[o := None];
    var costSoFar: map<OddR, nat> := map[o := 0];
    ghost var known := area + {o};
    CoordsAppend([], AStarCoord(0, o));
    assert [] + [AStarCoord(0, o)] == frontier;
    while |frontier| > 0
      invariant SearchOk(o, frontier, cameFrom, costSoFar, blocked, known)
      decreases |known - costSoFar.Keys|, CostSum(costSoFar), |frontier|
    {
      var j := MinPriority(frontier);
      var current := frontier[j].coord;
      CoordsRemove(frontier, j);
      frontier := frontier[..j] + frontier[j + 1..];
      if current == goal {
        break;
      }
      frontier, cameFrom, costSoFar :=
        ExpandNeighbors(o, goal, current, blocked, getCost, known, frontier, cameFrom, costSoFar);
    }

    if goal !in cameFrom {
      forall k: nat ensures goal !in Reach(o, blocked, k) {
        ClosedHoldsReach(o, costSoFar.Keys, blocked, k);
      }
      return None;
    }
    var p := RebuildPath(o, goal, cameFrom, costSoFar, blocked);
    PathInReach(p, o, goal, blocked);
    path := Some(p);
  }
}
