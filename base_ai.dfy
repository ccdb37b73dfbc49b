/** The computer player's frame (ai/base_ai.py): the actions offered to a
    strategy, and the loop that plays them until the turn passes. The
    strategy itself (`select_action`) and the game manager's answers are
    inputs: what each step chose and what it led to. */
module BaseAIs {
  import opened Wrappers
  import opened Sides
  import opened Hexagon
  import opened Entities
  import opened CommonSkills
  import Boards
  import SqueakSets
  import GameManagers

  type Squeak = SqueakSets.Squeak

  /** The action records of ai/ai_action.py (frozen dataclasses, so equal
      fields make equal actions; entities compare by identity). */
  datatype MoveAlly = MoveAlly(crumbCost: int, ally: Entity, target: OddR)
  datatype ActivateSkill = ActivateSkill(crumbCost: int, entity: Entity, skillIndex: nat)
  datatype SelectTargets = SelectTargets(targeting: SkillResult, selected: seq<OddR>)
  datatype PlaceSqueak = PlaceSqueak(crumbCost: int, target: OddR, handIndex: nat, squeak: Squeak)

  /** `AIActions`: the candidate lists by kind; `EndTurn()` carries no data,
      so its list is kept as a count. */
  datatype AIActions = AIActions(endTurn: nat, moveAlly: seq<MoveAlly>, activateSkill: seq<ActivateSkill>,
                                 selectTargets: seq<SelectTargets>, placeSqueak: seq<PlaceSqueak>)

  /** One chosen action. */
  datatype AIAction = EndTurnAction | Move(move: MoveAlly) | Activate(activate: ActivateSkill)
                    | Select(select: SelectTargets) | Place(place: PlaceSqueak)

  // ---------------------------------------------------------------------------
  // Selecting targets: every combination of the requested size

  function Binomial(n: nat, k: nat): nat
  {
    if k == 0 then 1 else if n == 0 then 0 else Binomial(n - 1, k - 1) + Binomial(n - 1, k)
  }

  function Prepend<T>(x: T, cs: seq<seq<T>>): (r: seq<seq<T>>)
    ensures |r| == |cs|
    ensures forall i :: 0 <= i < |cs| ==> r[i] == [x] + cs[i]
  {
    seq(|cs|, i requires 0 <= i < |cs| => [x] + cs[i])
  }

  /** `itertools.combinations(xs, k)` in its order: the combinations holding
      the first element (in order), then those without it. There are
      C(|xs|, k) of them, each of size k. */
  function Combinations<T>(xs: seq<T>, k: nat): (r: seq<seq<T>>)
    ensures |r| == Binomial(|xs|, k)
    ensures forall i :: 0 <= i < |r| ==> |r[i]| == k
    decreases |xs|
  {
    if k == 0 then [[]]
    else if xs == [] then []
    else
      var with := Prepend(xs[0], Combinations(xs[1..], k - 1));
      var without := Combinations(xs[1..], k);
      assert forall i :: 0 <= i < |with| ==> |with[i]| == k;
      with + without
  }

  /** Each combination keeps its elements in the order of `xs`. */
  lemma {:induction false} CombinationsAreSubsequences<T>(xs: seq<T>, k: nat, i: nat)
    requires i < |Combinations(xs, k)|
    ensures SubsequenceOf(Combinations(xs, k)[i], xs)
    decreases |xs|
  {
    if k == 0 {
      assert Combinations(xs, k)[i] == [];
    } else {
      assert xs != [];
      var inner := Combinations(xs[1..], k - 1);
      var with := Prepend(xs[0], inner);
      var without := Combinations(xs[1..], k);
      assert Combinations(xs, k) == with + without;
      assert xs == [xs[0]] + xs[1..];
      if i < |with| {
        CombinationsAreSubsequences(xs[1..], k - 1, i);
        SubsequencePrependBoth(inner[i], xs[1..], xs[0]);
      } else {
        CombinationsAreSubsequences(xs[1..], k, i - |with|);
        SubsequencePrependRight(without[i - |with|], xs[1..], xs[0]);
      }
    }
  }

  /** `__get_selecting_target_actions`: one SelectTargets per combination of
      `target_count` of the available targets, and nothing else. */
  method SelectingTargetActions(targeting: SkillResult) returns (actions: AIActions)
    requires targeting.Targeting?
    ensures actions.endTurn == 0 && actions.moveAlly == [] && actions.activateSkill == [] && actions.placeSqueak == []
    ensures |actions.selectTargets| == Binomial(|targeting.availableTargets|, targeting.targetCount)
    ensures forall i :: 0 <= i < |actions.selectTargets| ==>
              actions.selectTargets[i]
              == SelectTargets(targeting, Combinations(targeting.availableTargets, targeting.targetCount)[i])
    ensures forall a :: a in actions.selectTargets ==>
              |a.selected| == targeting.targetCount && SubsequenceOf(a.selected, targeting.availableTargets)
  {
    var combos := Combinations(targeting.availableTargets, targeting.targetCount);
    var selects: seq<SelectTargets> := [];
    var i := 0;
    while i < |combos|
      invariant 0 <= i <= |combos|
      invariant |selects| == i
      invariant forall j :: 0 <= j < i ==> selects[j] == SelectTargets(targeting, combos[j])
    {
      selects := selects + [SelectTargets(targeting, combos[i])];
      i := i + 1;
    }
    forall a | a in selects
      ensures |a.selected| == targeting.targetCount && SubsequenceOf(a.selected, targeting.availableTargets)
    {
      var j :| 0 <= j < |selects| && selects[j] == a;
      CombinationsAreSubsequences(targeting.availableTargets, targeting.targetCount, j);
    }
    actions := AIActions(0, [], [], selects, []);
  }

  // ---------------------------------------------------------------------------
  // Outside target selection: end the turn, move, use a skill, place a card

  /** The tests a unit passes before its moves are offered: a Rodent with
      move stamina left whose move cost the crumbs cover. */
  predicate CanMove(e: Entity, crumbs: int)
    reads e
  {
    e.isRodent && e.moveStamina > 0 && crumbs >= e.moveCost
  }

  function MovesTo(e: Entity, targets: seq<OddR>): (r: seq<MoveAlly>)
    reads e
    ensures |r| == |targets|
    ensures forall i :: 0 <= i < |targets| ==> r[i] == MoveAlly(e.moveCost, e, targets[i])
  {
    seq(|targets|, i requires 0 <= i < |targets| reads e => MoveAlly(e.moveCost, e, targets[i]))
  }

  /** The MoveAlly actions for `allies` in order; `reachable(e)` is what
      `board.get_reachable_coords(e)` returns on the current board. */
  function MoveActions(allies: seq<Entity>, crumbs: int, reachable: Entity -> seq<OddR>): seq<MoveAlly>
    reads allies
  {
    if allies == [] then []
    else
      var e := allies[|allies| - 1];
      MoveActions(allies[..|allies| - 1], crumbs, reachable) + (if CanMove(e, crumbs) then MovesTo(e, reachable(e)) else [])
  }

  /** A unit may use skills unless it has a skill stamina that is used up. */
  predicate SkillReady(e: Entity)
    reads e
  {
    e.skillStamina.None? || e.skillStamina.value > 0
  }

  /** The ActivateSkill actions for the first n skills of e that the crumbs cover. */
  function SkillActions(e: Entity, n: nat, crumbs: int): seq<ActivateSkill>
    requires n <= |e.skills|
  {
    if n == 0 then []
    else
      var cost := e.skills[n - 1].crumbCost;
      SkillActions(e, n - 1, crumbs) + (if crumbs >= cost then [ActivateSkill(cost, e, n - 1)] else [])
  }

  function ActivateActions(es: seq<Entity>, crumbs: int): seq<ActivateSkill>
    reads es
  {
    if es == [] then []
    else
      var e := es[|es| - 1];
      ActivateActions(es[..|es| - 1], crumbs) + (if SkillReady(e) then SkillActions(e, |e.skills|, crumbs) else [])
  }

  function PlacesAt(q: Squeak, handIndex: nat, targets: seq<OddR>): (r: seq<PlaceSqueak>)
    ensures |r| == |targets|
    ensures forall i :: 0 <= i < |targets| ==> r[i] == PlaceSqueak(q.crumbCost, targets[i], handIndex, q)
  {
    seq(|targets|, i requires 0 <= i < |targets| => PlaceSqueak(q.crumbCost, targets[i], handIndex, q))
  }

  /** The PlaceSqueak actions for the first n cards of the hand;
      `placable(q)` is what `q.get_placable_tiles(game_manager)` returns. */
  function PlaceActions(hand: seq<Squeak>, n: nat, crumbs: int, placable: Squeak -> seq<OddR>): seq<PlaceSqueak>
    requires n <= |hand|
  {
    if n == 0 then []
    else
      var q := hand[n - 1];
      PlaceActions(hand, n - 1, crumbs, placable) + (if crumbs >= q.crumbCost then PlacesAt(q, n - 1, placable(q)) else [])
  }

  /** `__get_non_selecting_target_actions` on a side's units (`allies`), the
      side-less units (`neutral`), the crumbs and the hand: exactly one
      EndTurn, then the moves, skills and placements the loops collect. */
  method NonSelectingTargetActions(allies: seq<Entity>, neutral: seq<Entity>, crumbs: int, hand: seq<Squeak>,
                                   reachable: Entity -> seq<OddR>, placable: Squeak -> seq<OddR>)
    returns (actions: AIActions)
    ensures actions.endTurn == 1 && actions.selectTargets == []
    ensures actions.moveAlly == MoveActions(allies, crumbs, reachable)
    ensures actions.activateSkill == ActivateActions(allies + neutral, crumbs)
    ensures actions.placeSqueak == PlaceActions(hand, |hand|, crumbs, placable)
  {
    var moves := CollectMoves(allies, crumbs, reachable);
    var skills := CollectSkills(allies + neutral, crumbs);
    var places := CollectPlacements(hand, crumbs, placable);
    actions := AIActions(1, moves, skills, [], places);
  }

  /** The loop over the side's units that collects their moves. */
  method CollectMoves(allies: seq<Entity>, crumbs: int, reachable: Entity -> seq<OddR>) returns (moves: seq<MoveAlly>)
    ensures moves == MoveActions(allies, crumbs, reachable)
  {
    moves := [];
    var i := 0;
    while i < |allies|
      invariant 0 <= i <= |allies|
      invariant moves == MoveActions(allies[..i], crumbs, reachable)
    {
      assert allies[..i + 1][..i] == allies[..i];
      var ally := allies[i];
      if ally.isRodent && ally.moveStamina > 0 && crumbs >= ally.moveCost {
        var targets := reachable(ally);
        var j := 0;
        var before := moves;
        while j < |targets|
          invariant 0 <= j <= |targets|
          invariant moves == before + MovesTo(ally, targets[..j])
        {
          moves := moves + [MoveAlly(ally.moveCost, ally, targets[j])];
          j := j + 1;
        }
        assert targets[..j] == targets;
      }
      i := i + 1;
    }
    assert allies[..i] == allies;
  }

  /** The loop over the side's and the side-less units that collects their skills. */
  method CollectSkills(units: seq<Entity>, crumbs: int) returns (skills: seq<ActivateSkill>)
    ensures skills == ActivateActions(units, crumbs)
  {
    skills := [];
    var i := 0;
    while i < |units|
      invariant 0 <= i <= |units|
      invariant skills == ActivateActions(units[..i], crumbs)
    {
      assert units[..i + 1][..i] == units[..i];
      var e := units[i];
      if e.skillStamina.None? || e.skillStamina.value > 0 {
        var before := skills;
        var k := 0;
        while k < |e.skills|
          invariant 0 <= k <= |e.skills|
          invariant skills == before + SkillActions(e, k, crumbs)
        {
          if crumbs >= e.skills[k].crumbCost {
            skills := skills + [ActivateSkill(e.skills[k].crumbCost, e, k)];
          }
          k := k + 1;
        }
      }
      i := i + 1;
    }
    assert units[..i] == units;
  }

  /** The loop over the hand that collects the placements. */
  method CollectPlacements(hand: seq<Squeak>, crumbs: int, placable: Squeak -> seq<OddR>) returns (places: seq<PlaceSqueak>)
    ensures places == PlaceActions(hand, |hand|, crumbs, placable)
  {
    places := [];
    var i := 0;
    while i < |hand|
      invariant 0 <= i <= |hand|
      invariant places == PlaceActions(hand, i, crumbs, placable)
    {
      var q := hand[i];
      if crumbs >= q.crumbCost {
        var targets := placable(q);
        var before := places;
        var j := 0;
        while j < |targets|
          invariant 0 <= j <= |targets|
          invariant places == before + PlacesAt(q, i, targets[..j])
        {
          places := places + [PlaceSqueak(q.crumbCost, targets[j], i, q)];
          j := j + 1;
        }
        assert targets[..j] == targets;
      }
      i := i + 1;
    }
  }

  /** A move is offered exactly for a listed unit that passes the tests, to a
      coordinate it can reach, at its move cost. */
  lemma {:induction false} MoveActionsMeaning(allies: seq<Entity>, crumbs: int, reachable: Entity -> seq<OddR>, m: MoveAlly)
    ensures m in MoveActions(allies, crumbs, reachable)
            <==> m.ally in allies && CanMove(m.ally, crumbs) && m.target in reachable(m.ally)
                 && m.crumbCost == m.ally.moveCost
    decreases |allies|
  {
    if allies != [] {
      var init := allies[..|allies| - 1];
      var e := allies[|allies| - 1];
      MoveActionsMeaning(init, crumbs, reachable, m);
      assert allies == init + [e];
      if CanMove(e, crumbs) && m.ally == e && m.target in reachable(e) && m.crumbCost == e.moveCost {
        var ts := reachable(e);
        var i :| 0 <= i < |ts| && ts[i] == m.target;
        assert MovesTo(e, ts)[i] == m;
      }
    }
  }

  lemma {:induction false} SkillActionsMeaning(e: Entity, n: nat, crumbs: int, a: ActivateSkill)
    requires n <= |e.skills|
    ensures a in SkillActions(e, n, crumbs)
            <==> a.entity == e && a.skillIndex < n && a.crumbCost == e.skills[a.skillIndex].crumbCost
                 && crumbs >= a.crumbCost
  {
    if n > 0 {
      SkillActionsMeaning(e, n - 1, crumbs, a);
    }
  }

  /** A skill is offered exactly for a listed unit whose skill stamina is not
      used up, for a skill it has, at that skill's cost, when the crumbs
      cover it. */
  lemma {:induction false} ActivateActionsMeaning(es: seq<Entity>, crumbs: int, a: ActivateSkill)
    ensures a in ActivateActions(es, crumbs)
            <==> a.entity in es && SkillReady(a.entity) && a.skillIndex < |a.entity.skills|
                 && a.crumbCost == a.entity.skills[a.skillIndex].crumbCost && crumbs >= a.crumbCost
    decreases |es|
  {
    if es != [] {
      var init := es[..|es| - 1];
      var e := es[|es| - 1];
      ActivateActionsMeaning(init, crumbs, a);
      SkillActionsMeaning(e, |e.skills|, crumbs, a);
      assert es == init + [e];
    }
  }

  /** A placement is offered exactly for a card of the hand at its index, to
      a tile where it can go, when the crumbs cover its cost. */
  lemma {:induction false} PlaceActionsMeaning(hand: seq<Squeak>, n: nat, crumbs: int, placable: Squeak -> seq<OddR>,
                                               p: PlaceSqueak)
    requires n <= |hand|
    ensures p in PlaceActions(hand, n, crumbs, placable)
            <==> p.handIndex < n && p.squeak == hand[p.handIndex] && p.crumbCost == p.squeak.crumbCost
                 && crumbs >= p.crumbCost && p.target in placable(p.squeak)
  {
    if n > 0 {
      PlaceActionsMeaning(hand, n - 1, crumbs, placable, p);
      var q := hand[n - 1];
      if p.handIndex == n - 1 && p.squeak == q && p.crumbCost == q.crumbCost && crumbs >= q.crumbCost
         && p.target in placable(q) {
        var ts := placable(q);
        var i :| 0 <= i < |ts| && ts[i] == p.target;
        assert PlacesAt(q, n - 1, ts)[i] == p;
      }
    }
  }

  /** `_get_all_actions` on a game manager whose crumbs are set: the target
      combinations while a request for targets is open, otherwise the
      actions of the AI's side. */
  method GetAllActions(gm: GameManagers.GameManager, aiSide: Side,
                       reachable: Entity -> seq<OddR>, placable: Squeak -> seq<OddR>) returns (actions: AIActions)
    requires gm.Valid() && gm.crumbs.Some?
    requires gm.skillTargeting.Some? ==> gm.skillTargeting.value.Targeting?
    ensures gm.skillTargeting.Some? ==>
              var t := gm.skillTargeting.value;
              actions.endTurn == 0 && actions.moveAlly == [] && actions.activateSkill == [] && actions.placeSqueak == []
              && |actions.selectTargets| == Binomial(|t.availableTargets|, t.targetCount)
              && (forall i :: 0 <= i < |actions.selectTargets| ==>
                    actions.selectTargets[i] == SelectTargets(t, Combinations(t.availableTargets, t.targetCount)[i]))
    ensures gm.skillTargeting.None? ==>
              var allies := Boards.ListOf(gm.board.cache.sides, Some(aiSide));
              actions.endTurn == 1 && actions.selectTargets == []
              && actions.moveAlly == MoveActions(allies, gm.crumbs.value, reachable)
              && actions.activateSkill
                 == ActivateActions(allies + Boards.ListOf(gm.board.cache.sides, None), gm.crumbs.value)
              && actions.placeSqueak == PlaceActions(gm.hands[aiSide], |gm.hands[aiSide]|, gm.crumbs.value, placable)
  {
    if gm.skillTargeting.Some? {
      actions := SelectingTargetActions(gm.skillTargeting.value);
    } else {
      assert gm.Ready(aiSide) by {
        if aiSide != gm.turn {
          assert aiSide == OtherSide(gm.turn) by { match aiSide case Rat => case Mouse => }
        }
      }
      actions := NonSelectingTargetActions(
        Boards.ListOf(gm.board.cache.sides, Some(aiSide)), Boards.ListOf(gm.board.cache.sides, None),
        gm.crumbs.value, gm.hands[aiSide], reachable, placable);
    }
  }

  // ---------------------------------------------------------------------------
  // The play loop and its banned skills

  /** `list.remove(x)` under `except ValueError: pass`. */
  function TryRemove<T(==)>(xs: seq<T>, x: T): (r: seq<T>)
  {
    if x in xs then Boards.RemoveFirst(xs, x) else xs
  }

  /** Removing every banned action from a candidate list, in ban order. */
  function RemoveAll<T(==)>(xs: seq<T>, bs: seq<T>): (r: seq<T>)
    decreases |bs|
  {
    if bs == [] then xs else RemoveAll(TryRemove(xs, bs[0]), bs[1..])
  }

  /** No action appears twice. */
  predicate NoDup<T(==)>(xs: seq<T>)
  {
    xs == [] || (xs[0] !in xs[1..] && NoDup(xs[1..]))
  }

  lemma {:induction false} RemoveFirstNoDup<T>(xs: seq<T>, b: T, x: T)
    requires NoDup(xs) && b in xs
    ensures NoDup(Boards.RemoveFirst(xs, b))
    ensures x in Boards.RemoveFirst(xs, b) <==> x in xs && x != b
  {
    if xs[0] != b {
      RemoveFirstNoDup(xs[1..], b, x);
      RemoveFirstNoDup(xs[1..], b, xs[0]);
    }
  }

  /** On a list without repeats, removing the banned actions leaves exactly
      the candidates that are not banned. */
  lemma {:induction false} RemoveAllMeaning<T>(xs: seq<T>, bs: seq<T>, x: T)
    requires NoDup(xs)
    ensures NoDup(RemoveAll(xs, bs))
    ensures x in RemoveAll(xs, bs) <==> x in xs && x !in bs
    decreases |bs|
  {
    if bs != [] {
      var ys := TryRemove(xs, bs[0]);
      if bs[0] in xs {
        RemoveFirstNoDup(xs, bs[0], x);
      }
      RemoveAllMeaning(ys, bs[1..], x);
      assert bs == [bs[0]] + bs[1..];
    }
  }

  /** The loop over `banned_actions` that removes each from the offered skills. */
  method RemoveBanned(actions: seq<ActivateSkill>, banned: seq<ActivateSkill>) returns (r: seq<ActivateSkill>)
    ensures r == RemoveAll(actions, banned)
  {
    r := actions;
    var k := 0;
    while k < |banned|
      invariant 0 <= k <= |banned|
      invariant RemoveAll(r, banned[k..]) == RemoveAll(actions, banned)
    {
      assert banned[k..][1..] == banned[k + 1..];
      r := TryRemove(r, banned[k]);
      k := k + 1;
    }
  }

  /** What one turn of the loop saw and did: whether a game-over event was
      pending, the skill actions `_get_all_actions` offered, what the
      strategy chose, what the skill returned when the choice was one, and
      whose turn it was afterwards. */
  datatype Step = Step(gameOver: bool, offered: seq<ActivateSkill>, chosen: AIAction,
                       skillResult: SkillResult, turnAfter: Side)

  /** The choice was a skill and it came back CANCELLED. */
  predicate CancelledSkill(s: Step)
  {
    s.chosen.Activate? && s.skillResult == Completed(Cancelled)
  }

  /** Every step from m up to (not including) j was a cancelled skill. */
  predicate CancelledFrom(steps: seq<Step>, m: nat, j: nat)
    requires j <= |steps|
  {
    forall q :: m <= q < j ==> CancelledSkill(steps[q])
  }

  /** The skills banned when step j starts: those chosen in the unbroken run
      of cancelled skills just before it. */
  function BanRun(steps: seq<Step>, j: nat): seq<ActivateSkill>
    requires j <= |steps|
  {
    if j == 0 || !CancelledSkill(steps[j - 1]) then []
    else BanRun(steps, j - 1) + [steps[j - 1].chosen.activate]
  }

  /** A skill is banned exactly when it was chosen at some earlier step and
      every step from there on was a cancelled skill: the ban lasts until
      some other action is taken. */
  lemma {:induction false} BanRunMeaning(steps: seq<Step>, j: nat, a: ActivateSkill)
    requires j <= |steps|
    ensures a in BanRun(steps, j)
            <==> exists m :: 0 <= m < j && steps[m].chosen == Activate(a)
                             && CancelledFrom(steps, m, j)
  {
    if j > 0 && CancelledSkill(steps[j - 1]) {
      BanRunMeaning(steps, j - 1, a);
      if a in BanRun(steps, j) && a !in BanRun(steps, j - 1) {
        assert steps[j - 1].chosen == Activate(a);
      }
      if exists m :: 0 <= m < j && steps[m].chosen == Activate(a) && CancelledFrom(steps, m, j) {
        var m :| 0 <= m < j && steps[m].chosen == Activate(a) && CancelledFrom(steps, m, j);
        if m < j - 1 {
          assert a in BanRun(steps, j - 1);
        }
      }
    } else if j > 0 {
      forall m | 0 <= m < j
        ensures !CancelledFrom(steps, m, j)
      {
        assert m <= j - 1 < j && !CancelledSkill(steps[j - 1]);
      }
    }
  }

  /** The skill candidates of the first n passes. */
  function Offers(steps: seq<Step>, n: nat): (r: seq<seq<ActivateSkill>>)
    requires n <= |steps|
    ensures |r| == n
  {
    if n == 0 then [] else Offers(steps, n - 1) + [RemoveAll(steps[n - 1].offered, BanRun(steps, n - 1))]
  }

  lemma OffersIndex(steps: seq<Step>, n: nat)
    requires n <= |steps|
    ensures forall j :: 0 <= j < n ==> Offers(steps, n)[j] == RemoveAll(steps[j].offered, BanRun(steps, j))
  {
    forall j | 0 <= j < n
      ensures Offers(steps, n)[j] == RemoveAll(steps[j].offered, BanRun(steps, j))
    {
      OffersAt(steps, n, j);
    }
  }

  /** Pass j's candidates are the offered skills without the banned ones. */
  lemma {:induction false} OffersAt(steps: seq<Step>, n: nat, j: nat)
    requires j < n <= |steps|
    ensures Offers(steps, n)[j] == RemoveAll(steps[j].offered, BanRun(steps, j))
  {
    if j < n - 1 {
      OffersAt(steps, n - 1, j);
      assert Offers(steps, n)[j] == Offers(steps, n - 1)[j];
    }
  }

  /** One more pass: its candidates and the ban list it leaves. */
  lemma PassStep(steps: seq<Step>, i: nat)
    requires i < |steps|
    ensures Offers(steps, i + 1) == Offers(steps, i) + [RemoveAll(steps[i].offered, BanRun(steps, i))]
    ensures BanRun(steps, i + 1) == if CancelledSkill(steps[i]) then BanRun(steps, i) + [steps[i].chosen.activate] else []
  {
  }

  /** Why the loop stopped: the turn passed, a game-over event was pending,
      or the recorded steps ran out while it was still the AI's turn. */
  datatype Stop = TurnPassed | GameOver | StepsExhausted

  /** `run_ai_and_update_game_manager` with a readable game-over event:
      NotAITurnError off the AI's turn; otherwise one step per pass of the
      loop, each offering the skills with the banned ones removed. `offered`
      holds, per pass, the skill candidates handed to `select_action`. */
  method RunAI(aiSide: Side, turn: Side, steps: seq<Step>) returns (r: Result<Stop>, offered: seq<seq<ActivateSkill>>)
    ensures turn != aiSide <==> r == Err(NotAITurn)
    ensures r.Err? ==> offered == []
    ensures |offered| <= |steps|
    ensures offered == Offers(steps, |offered|)
    ensures forall j :: 0 <= j < |offered| ==> !steps[j].gameOver
    ensures forall j :: 0 <= j < |offered| - 1 ==> steps[j].turnAfter == aiSide
    ensures r == Ok(GameOver) ==> |offered| < |steps| && steps[|offered|].gameOver
                                  && (|offered| > 0 ==> steps[|offered| - 1].turnAfter == aiSide)
    ensures r == Ok(TurnPassed) ==> |offered| > 0 && steps[|offered| - 1].turnAfter != aiSide
    ensures r == Ok(StepsExhausted) ==> |offered| == |steps| && (|steps| > 0 ==> steps[|steps| - 1].turnAfter == aiSide)
  {
    offered := [];
    if turn != aiSide {
      return Err(NotAITurn), offered;
    }
    r := Ok(StepsExhausted);
    var current := turn;
    var banned: seq<ActivateSkill> := [];
    var bannedUpdated := false;
    var i := 0;
    while current == aiSide && i < |steps|
      invariant 0 <= i <= |steps| && |offered| == i
      invariant bannedUpdated == (i > 0 && CancelledSkill(steps[i - 1]))
      invariant bannedUpdated ==> banned == BanRun(steps, i)
      invariant offered == Offers(steps, i)
      invariant forall j :: 0 <= j < i ==> !steps[j].gameOver
      invariant forall j :: 0 <= j < i - 1 ==> steps[j].turnAfter == aiSide
      invariant i > 0 ==> current == steps[i - 1].turnAfter
      invariant i == 0 ==> current == aiSide
      invariant r == Ok(StepsExhausted)
    {
      var step := steps[i];
      if step.gameOver {
        r := Ok(GameOver);
        break;
      }
      if !bannedUpdated {
        banned := [];
      }
      PassStep(steps, i);
      var candidates := RemoveBanned(step.offered, banned);
      offered := offered + [candidates];
      bannedUpdated := false;
      if CancelledSkill(step) {
        banned := banned + [step.chosen.activate];
        bannedUpdated := true;
      }
      current := step.turnAfter;
      i := i + 1;
    }
    if r != Ok(GameOver) && current != aiSide {
      r := Ok(TurnPassed);
    }
  }

  /** With no repeated candidates, a banned skill is never offered again
      while the run of cancellations lasts, and every other candidate still is. */
  lemma BannedNotOffered(steps: seq<Step>, j: nat, a: ActivateSkill)
    requires j < |steps| && NoDup(steps[j].offered)
    ensures a in RemoveAll(steps[j].offered, BanRun(steps, j))
            <==> a in steps[j].offered
                 && !exists m :: 0 <= m < j && steps[m].chosen == Activate(a)
                                 && CancelledFrom(steps, m, j)
  {
    RemoveAllMeaning(steps[j].offered, BanRun(steps, j), a);
    BanRunMeaning(steps, j, a);
  }

  /** `run_ai_and_update_game_manager` as written: on the AI's turn the loop
      reads `game_manager.game_over_event`, an attribute GameManager never
      defines, so the first pass raises AttributeError. */
  method RunAIAsWritten(aiSide: Side, turn: Side) returns (r: Result<Stop>)
    ensures turn != aiSide ==> r == Err(NotAITurn)
    ensures turn == aiSide ==> r == Err(AttributeError)
  {
    if turn != aiSide {
      return Err(NotAITurn);
    }
    return Err(AttributeError);
  }
}
