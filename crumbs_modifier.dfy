/** The per-turn crumb income (crumbs_per_turn_modifier.py): a base schedule,
    multipliers and adders that hold for ranges of turns, and per-side
    multipliers and adders that features such as the crumbs stack change. */
module CrumbsModifier {
  import opened Sides

  /** `ceil(t / 4)` for an integer t: Dafny's `/` by a positive divisor floors. */
  function CeilQuarter(t: int): (r: int)
    ensures 4 * r - 3 <= t <= 4 * r
  {
    (t + 3) / 4
  }

  /** `default_base_crumbs_per_turn`: 10 crumbs more every four turns, capped at 50. */
  function DefaultBaseCrumbsPerTurn(turnCount: int): (r: int)
    ensures r <= 50 && r % 10 == 0
    ensures 1 <= turnCount <= 4 ==> r == 10
    ensures r == 50 <==> turnCount >= 17
  {
    var c := CeilQuarter(turnCount) * 10;
    if c < 50 then c else 50
  }

  lemma DefaultBaseMonotone(a: int, b: int)
    requires a <= b
    ensures DefaultBaseCrumbsPerTurn(a) <= DefaultBaseCrumbsPerTurn(b)
  {
    assert CeilQuarter(a) <= CeilQuarter(b);
  }

  /** Python's `range(start, stop, step)`; building one with step 0 raises,
      so every range the program holds has a non-zero step. */
  datatype PyRange = PyRange(start: int, stop: int, step: int)
  type TurnRange = r: PyRange | r.step != 0 witness PyRange(0, 0, 1)

  /** `t in range(start, stop, step)`. */
  predicate InRange(t: int, rg: TurnRange)
  {
    if rg.step > 0 then rg.start <= t < rg.stop && (t - rg.start) % rg.step == 0
    else rg.stop < t <= rg.start && (rg.start - t) % (-rg.step) == 0
  }

  /** The sum of the adders whose range holds turn t (the specification of
      `_get_turn_adder`'s accumulation). */
  function AdderSum(adders: seq<(TurnRange, int)>, t: int): int
  {
    if adders == [] then 0
    else
      var last := adders[|adders| - 1];
      AdderSum(adders[..|adders| - 1], t) + (if InRange(t, last.0) then last.1 else 0)
  }

  /** The sum of the multipliers whose range holds turn t. */
  function MultiplierSum(multipliers: seq<(TurnRange, real)>, t: int): real
  {
    if multipliers == [] then 0.0
    else
      var last := multipliers[|multipliers| - 1];
      MultiplierSum(multipliers[..|multipliers| - 1], t) + (if InRange(t, last.0) then last.1 else 0.0)
  }

  /** When no range holds t, no adder contributes. */
  lemma {:induction false} AdderSumNone(adders: seq<(TurnRange, int)>, t: int)
    requires forall i :: 0 <= i < |adders| ==> !InRange(t, adders[i].0)
    ensures AdderSum(adders, t) == 0
  {
    if adders != [] {
      AdderSumNone(adders[..|adders| - 1], t);
    }
  }

  lemma {:induction false} MultiplierSumNone(multipliers: seq<(TurnRange, real)>, t: int)
    requires forall i :: 0 <= i < |multipliers| ==> !InRange(t, multipliers[i].0)
    ensures MultiplierSum(multipliers, t) == 0.0
  {
    if multipliers != [] {
      MultiplierSumNone(multipliers[..|multipliers| - 1], t);
    }
  }

  /** The income of `get_crumbs`: the base, multiplied by one plus the turn
      multipliers plus the side's multiplier and floored, then the turn adders
      and the side's adder. */
  function CrumbsFor(base: int, sideMultiplier: real, sideAdder: int,
                     turnMultiplier: seq<(TurnRange, real)>, turnAdder: seq<(TurnRange, int)>,
                     t: int): int
  {
    (base as real * (1.0 + MultiplierSum(turnMultiplier, t) + sideMultiplier)).Floor
      + AdderSum(turnAdder, t) + sideAdder
  }

  /** Without any modifier, the income is the base. */
  lemma CrumbsForDefault(base: int, t: int)
    ensures CrumbsFor(base, 0.0, 0, [], [], t) == base
  {
    assert (base as real * 1.0).Floor == base;
  }

  /** Adders apply after flooring: raising the side's adder by k raises the income by k. */
  lemma CrumbsForAdderShift(base: int, m: real, a: int, tm: seq<(TurnRange, real)>,
                            ta: seq<(TurnRange, int)>, t: int, k: int)
    ensures CrumbsFor(base, m, a + k, tm, ta, t) == CrumbsFor(base, m, a, tm, ta, t) + k
  {
  }

  /** A non-negative base never earns less when a side's multiplier grows. */
  lemma CrumbsForMultiplierMonotone(base: nat, m1: real, m2: real, a: int,
                                    tm: seq<(TurnRange, real)>, ta: seq<(TurnRange, int)>, t: int)
    requires m1 <= m2
    ensures CrumbsFor(base, m1, a, tm, ta, t) <= CrumbsFor(base, m2, a, tm, ta, t)
  {
    var s := 1.0 + MultiplierSum(tm, t);
    assert base as real * (s + m1) <= base as real * (s + m2);
  }

  /** `CrumbsPerTurnModifier`. The side maps are default dictionaries: a side
      without an entry reads as 0. */
  class CrumbsPerTurnModifier {
    const baseCrumbsPerTurn: int -> int
    var multiplier: map<Side, real>
    var adder: map<Side, int>
    var turnMultiplier: seq<(TurnRange, real)>
    var turnAdder: seq<(TurnRange, int)>

    constructor (baseCrumbsPerTurn: int -> int)
      ensures this.baseCrumbsPerTurn == baseCrumbsPerTurn
      ensures multiplier == map[] && adder == map[]
      ensures turnMultiplier == [] && turnAdder == []
    {
      this.baseCrumbsPerTurn := baseCrumbsPerTurn;
      multiplier := map[];
      adder := map[];
      turnMultiplier := [];
      turnAdder := [];
    }

    function MultiplierOf(s: Side): real
      reads this
    {
      if s in multiplier then multiplier[s] else 0.0
    }

    function AdderOf(s: Side): int
      reads this
    {
      if s in adder then adder[s] else 0
    }

    /** `_get_turn_adder`. */
    method GetTurnAdder(turnCount: int) returns (totalAdder: int)
      ensures totalAdder == AdderSum(turnAdder, turnCount)
    {
      totalAdder := 0;
      var i := 0;
      while i < |turnAdder|
        invariant 0 <= i <= |turnAdder|
        invariant totalAdder == AdderSum(turnAdder[..i], turnCount)
      {
        assert turnAdder[..i + 1][..i] == turnAdder[..i];
        if InRange(turnCount, turnAdder[i].0) {
          totalAdder := totalAdder + turnAdder[i].1;
        }
        i := i + 1;
      }
      assert turnAdder[..i] == turnAdder;
    }

    /** `_get_turn_multiplier`: starts from 1.0. */
    method GetTurnMultiplier(turnCount: int) returns (totalMultiplier: real)
      ensures totalMultiplier == 1.0 + MultiplierSum(turnMultiplier, turnCount)
    {
      totalMultiplier := 1.0;
      var i := 0;
      while i < |turnMultiplier|
        invariant 0 <= i <= |turnMultiplier|
        invariant totalMultiplier == 1.0 + MultiplierSum(turnMultiplier[..i], turnCount)
      {
        assert turnMultiplier[..i + 1][..i] == turnMultiplier[..i];
        if InRange(turnCount, turnMultiplier[i].0) {
          totalMultiplier := totalMultiplier + turnMultiplier[i].1;
        }
        i := i + 1;
      }
      assert turnMultiplier[..i] == turnMultiplier;
    }

    /** `get_crumbs`. */
    method GetCrumbs(turnCount: int, turnSide: Side) returns (crumbs: int)
      ensures crumbs == CrumbsFor(baseCrumbsPerTurn(turnCount), MultiplierOf(turnSide),
                                  AdderOf(turnSide), turnMultiplier, turnAdder, turnCount)
    {
      crumbs := baseCrumbsPerTurn(turnCount);
      var m := GetTurnMultiplier(turnCount);
      crumbs := (crumbs as real * (m + MultiplierOf(turnSide))).Floor;
      var a := GetTurnAdder(turnCount);
      crumbs := crumbs + a + AdderOf(turnSide);
    }
  }
}
