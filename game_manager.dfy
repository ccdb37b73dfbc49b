/** The game rules (game_manager.py): whose turn it is and how many turns have
    passed, the crumbs the side to move may spend, each player's hand and
    deck of squeak cards, skills that wait for targets, moving rodents, and
    how status effects of the same name stack and expire. */
module GameManagers {
  import opened Wrappers
  import opened Sides
  import opened Hexagon
  import opened Entities
  import opened Tiles
  import opened Boards
  import Maps
  import SqueakSets
  import CrumbsModifier

  type Squeak = SqueakSets.Squeak
  type SqueakSet = SqueakSets.SqueakSet

  /** `HAND_LENGTH`: a hand always holds five cards. */
  const HandLength := 5

  // ----- Crumb income -----

  /** `crumb_per_turn`: ten crumbs for every four turns begun, at most fifty. */
  function CrumbPerTurn(turnCount: int): (r: int)
    ensures r <= 50 && r % 10 == 0
    ensures 1 <= turnCount <= 4 ==> r == 10
    ensures r == 50 <==> turnCount >= 17
  {
    var c := CrumbsModifier.CeilQuarter(turnCount) * 10;
    if c < 50 then c else 50
  }

  /** The income never falls as the game goes on. */
  lemma CrumbPerTurnMonotone(a: int, b: int)
    requires a <= b
    ensures CrumbPerTurn(a) <= CrumbPerTurn(b)
  {
    assert CrumbsModifier.CeilQuarter(a) <= CrumbsModifier.CeilQuarter(b);
  }

  /** The game manager's schedule is the modifier's default base schedule. */
  lemma CrumbPerTurnIsDefaultBase(t: int)
    ensures CrumbPerTurn(t) == CrumbsModifier.DefaultBaseCrumbsPerTurn(t)
  {
  }

  // ----- Turn bookkeeping -----

  /** The turn and turn count after `end_turn`: the other side moves, and the
      count grows when the move passes back to the side that moved first. */
  function NextTurn(turn: Side, turnCount: int, first: Side): (Side, int)
  {
    var next := OtherSide(turn);
    (next, if next == first then turnCount + 1 else turnCount)
  }

  /** The turn and count after n calls of `end_turn`. */
  function AfterTurns(turn: Side, turnCount: int, first: Side, n: nat): (Side, int)
  {
    if n == 0 then (turn, turnCount)
    else
      var s := AfterTurns(turn, turnCount, first, n - 1);
      NextTurn(s.0, s.1, first)
  }

  /** Starting on the first side's move, after n turn ends the count has grown
      by one for every full round, and the first side moves again after every
      even number of ends. */
  lemma {:induction false} TurnCountCountsRounds(first: Side, turnCount: int, n: nat)
    ensures AfterTurns(first, turnCount, first, n) ==
              (if n % 2 == 0 then first else OtherSide(first), turnCount + n / 2)
  {
    if n > 0 {
      TurnCountCountsRounds(first, turnCount, n - 1);
      OtherSideInvolution(first);
    }
  }

  /** A round of two turn ends from either side returns the move to that side
      and raises the count by exactly one. */
  lemma RoundRaisesCountOnce(turn: Side, turnCount: int, first: Side)
    ensures var a := NextTurn(turn, turnCount, first);
            var b := NextTurn(a.0, a.1, first);
            b == (turn, turnCount + 1)
  {
    OtherSideInvolution(turn);
  }

  // ----- Python values -----

  /** `_draw_squeak` on values: pop the last card of the deck or, when the deck
      is empty, of the freshly shuffled new deck; popping an empty list raises
      IndexError. The result is the card and the deck left behind. */
  function Draw(deck: seq<Squeak>, shuffled: seq<Squeak>): Result<(Squeak, seq<Squeak>)>
  {
    var source := if deck != [] then deck else shuffled;
    if source == [] then Err(IndexError)
    else Ok((source[|source| - 1], source[..|source| - 1]))
  }

  /** A draw takes one card from the deck it draws from (the new deck when
      the old one was empty) and loses none: it fails only when both are
      empty. */
  lemma DrawConserves(deck: seq<Squeak>, shuffled: seq<Squeak>)
    ensures Draw(deck, shuffled).Err? <==> deck == [] && shuffled == []
    ensures var source := if deck != [] then deck else shuffled;
            Draw(deck, shuffled).Ok? ==>
              |Draw(deck, shuffled).value.1| == |source| - 1
              && multiset(Draw(deck, shuffled).value.1) + multiset{Draw(deck, shuffled).value.0} == multiset(source)
  {
    var source := if deck != [] then deck else shuffled;
    if source != [] {
      assert source == source[..|source| - 1] + [source[|source| - 1]];
    }
  }

  /** n draws in a row: the cards drawn, in order, and the deck left. The
      first failing draw stops the rest and leaves the deck empty. */
  function DrawN(deck: seq<Squeak>, shuffled: seq<Squeak>, n: nat): (Result<seq<Squeak>>, seq<Squeak>)
  {
    if n == 0 then (Ok([]), deck)
    else
      var (r, rest) := DrawN(deck, shuffled, n - 1);
      if r.Err? then (r, rest)
      else
        match Draw(rest, shuffled)
        case Err(e) => (Err(e), [])
        case Ok((c, left)) => (Ok(r.value + [c]), left)
  }

  /** A failed draw ends the run: later draws change nothing. */
  lemma {:induction false} DrawNStops(deck: seq<Squeak>, shuffled: seq<Squeak>, k: nat, n: nat)
    requires k <= n && DrawN(deck, shuffled, k).0.Err?
    ensures DrawN(deck, shuffled, n) == DrawN(deck, shuffled, k)
    decreases n - k
  {
    if k < n {
      DrawNStops(deck, shuffled, k, n - 1);
    }
  }

  /** n draws that succeed give n cards. */
  lemma {:induction false} DrawNLength(deck: seq<Squeak>, shuffled: seq<Squeak>, n: nat)
    ensures DrawN(deck, shuffled, n).0.Ok? ==> |DrawN(deck, shuffled, n).0.value| == n
  {
    if n > 0 {
      DrawNLength(deck, shuffled, n - 1);
    }
  }

  /** With at least n cards in the deck, n draws take its last n cards, the
      last one first, and leave the rest. */
  lemma {:induction false} DrawNFromDeck(deck: seq<Squeak>, shuffled: seq<Squeak>, n: nat)
    requires |deck| >= n
    ensures DrawN(deck, shuffled, n).0.Ok?
    ensures DrawN(deck, shuffled, n).1 == deck[..|deck| - n]
    ensures |DrawN(deck, shuffled, n).0.value| == n
    ensures forall j :: 0 <= j < n ==> DrawN(deck, shuffled, n).0.value[j] == deck[|deck| - 1 - j]
  {
    if n == 0 {
      assert deck[..|deck| - 0] == deck;
    } else {
      DrawNFromDeck(deck, shuffled, n - 1);
      var rest := deck[..|deck| - (n - 1)];
      assert rest != [] && rest[..|rest| - 1] == deck[..|deck| - n];
      assert rest[|rest| - 1] == deck[|deck| - 1 - (n - 1)];
    }
  }

  /** Five draws that succeed make an opening hand of the deck. */
  lemma DrawNOpening(deck: seq<Squeak>, shuffled: seq<Squeak>)
    ensures var (r, left) := DrawN(deck, shuffled, HandLength);
            r.Ok? ==> OpeningHand(r.value, left, deck)
  {
    DrawNLength(deck, shuffled, HandLength);
    if |deck| >= HandLength {
      DrawNFromDeck(deck, shuffled, HandLength);
    }
  }

  // ----- Looking up entities -----

  /** What `get_enemy_on_pos` / `get_ally_on_pos` look for: an entity with
      health whose side differs from (enemy) or equals (ally) the side to move.
      An entity without a side is an enemy of both sides. */
  predicate Wanted(e: Entity, turn: Side, enemy: bool)
    reads e
  {
    e.health.Some? && (if enemy then e.side != Some(turn) else e.side == Some(turn))
  }

  /** The loop over `reversed(tile.entities)`: the wanted entity nearest the end
      of the list, or None when no entity is wanted. */
  method TopWanted(es: seq<Entity>, turn: Side, enemy: bool) returns (r: Option<Entity>)
    ensures r.None? <==> forall i :: 0 <= i < |es| ==> !Wanted(es[i], turn, enemy)
    ensures r.Some? ==> exists i :: 0 <= i < |es| && es[i] == r.value && Wanted(es[i], turn, enemy)
                                    && forall j :: i < j < |es| ==> !Wanted(es[j], turn, enemy)
  {
    var i := |es|;
    while i > 0
      invariant 0 <= i <= |es|
      invariant forall j :: i <= j < |es| ==> !Wanted(es[j], turn, enemy)
    {
      i := i - 1;
      var e := es[i];
      if e.health.None? {
        continue;
      }
      if enemy && e.side == Some(turn) {
        continue;
      }
      if !enemy && e.side != Some(turn) {
        continue;
      }
      return Some(e);
    }
    return None;
  }

  // ----- Effects -----

  /** `(e.duration is None) or (e.duration > 1)`: the effect outlives this turn. */
  predicate Lasting(e: EntityEffect)
    reads e
  {
    e.duration.None? || e.duration.value > 1
  }

  /** The dict comprehension of `effect_duration_over`: the entries whose
      effect outlives this turn. */
  function Survivors(m: map<string, EntityEffect>): (r: map<string, EntityEffect>)
    reads m.Values
    ensures forall n :: n in r <==> n in m && Lasting(m[n])
    ensures forall n :: n in r ==> r[n] == m[n]
  {
    map n | n in m && Lasting(m[n]) :: m[n]
  }

  /** The position `max(effects, key=lambda e: e.intensity)` picks: an effect
      of the greatest intensity, the first one when several tie. */
  function Strongest(es: seq<EntityEffect>): (k: nat)
    reads es
    requires es != []
    ensures k < |es|
    ensures forall j :: 0 <= j < |es| ==> es[j].intensity <= es[k].intensity
    ensures forall j :: 0 <= j < k ==> es[j].intensity < es[k].intensity
  {
    if |es| == 1 then 0
    else
      var k := Strongest(es[..|es| - 1]);
      if es[|es| - 1].intensity > es[k].intensity then |es| - 1 else k
  }

  /** The new duration outlasts a finite old one (None means forever). */
  predicate Outlasts(d: Option<int>, old_: Option<int>)
  {
    old_.Some? && (d.None? || d.value > old_.value)
  }

  /** The duration `apply_effect` leaves on the old effect for an equally
      strong new one: the new duration when it outlasts a finite old one. */
  function Extended(old_: Option<int>, d: Option<int>): Option<int>
  {
    if Outlasts(d, old_) then d else old_
  }

  /** `d` lasts at least as long as `e` (None is forever). */
  predicate AtLeast(d: Option<int>, e: Option<int>)
  {
    d.None? || (e.Some? && d.value >= e.value)
  }

  /** Reapplying an equally strong effect never shortens the old one, never
      touches a permanent one, and leaves it lasting as long as both. */
  lemma ExtendedNeverShortens(old_: Option<int>, d: Option<int>)
    ensures AtLeast(Extended(old_, d), old_)
    ensures old_.None? ==> Extended(old_, d).None?
    ensures old_.Some? ==> AtLeast(Extended(old_, d), d)
  {
  }

  /** One duration decrement per occurrence in the effect list; a permanent
      effect stays permanent. */
  function Shortened(d: Option<int>, k: nat): Option<int>
  {
    if d.None? then None else Some(d.value - k)
  }

  /** The grid after a successful `try_move` of `e` from cell `from` to cell
      `to`: appended to the tile at `to`, then its first occurrence removed
      from the tile at `from`. */
  function MovedGrid(tiles: seq<seq<Option<Tile>>>, e: Entity, from: OddR, to: OddR): seq<seq<Option<Tile>>>
    requires HasTileAt(tiles, from) && HasTileAt(tiles, to)
    requires e in EntitiesAt(WithEntities(tiles, to, EntitiesAt(tiles, to) + [e]), from)
  {
    var moved := WithEntities(tiles, to, EntitiesAt(tiles, to) + [e]);
    WithEntities(moved, from, RemoveFirst(EntitiesAt(moved, from), e))
  }

  /** `e` has moved to `to` as `try_move` moves it: the grid is the old one
      with `e` appended on the tile at `to` and then removed from the tile at
      its old position, and its position is `to`. */
  twostate predicate MovedAlong(b: Board, e: Entity, to: OddR)
    reads b`tiles, e`pos
  {
    HasTileAt(old(b.tiles), old(e.pos)) && HasTileAt(old(b.tiles), to)
    && e in EntitiesAt(WithEntities(old(b.tiles), to, EntitiesAt(old(b.tiles), to) + [e]), old(e.pos))
    && b.tiles == MovedGrid(old(b.tiles), e, old(e.pos), to)
    && e.pos == to
  }

  /** What `effect_duration_over(effect)` leaves behind, with `r` its outcome.
      The effect leaves the effect cache (ValueError when it is not there).
      With nothing waiting under it, its name is deleted from the entity
      (KeyError when absent) and the entity keeps only the effects that
      outlive this turn. Otherwise those survivors are kept and the strongest
      waiting effect, the first among equals, takes the name over and
      inherits the rest of the waiting list. */
  twostate predicate DurationOverDone(c: Cache, effect: EntityEffect, new r: Result<()>)
    requires old(effect.Valid())
    reads *
  {
    var n := old(effect.Name());
    var m := old(effect.entity.effects);
    var os := old(effect.overriddenEffects);
    if effect !in old(c.effects) then
      r == Err(ValueError) && c.effects == old(c.effects) && effect.entity.effects == m
    else
      c.effects == RemoveFirst(old(c.effects), effect)
      && if os == [] then
           if n !in m then r == Err(KeyError) && effect.entity.effects == m
           else r == Ok(()) && effect.entity.effects == old(Survivors(m - {n}))
         else
           var nw := os[old(Strongest(os))];
           r == Ok(()) && effect.entity.effects == old(Survivors(m))[n := nw]
           && effect.overriddenEffects == RemoveFirst(os, nw) && nw.overriddenEffects == RemoveFirst(os, nw)
  }

  /** The squeak set of side `s` when `first` moves first: the first set of
      the pair belongs to the first side. */
  function SetFor(first: Side, sets: (SqueakSet, SqueakSet), s: Side): SqueakSet
  {
    if s == first then sets.0 else sets.1
  }

  /** What `activate_skill` hands back for the skill's own result: a request
      for targets with no candidates becomes CANCELLED. */
  function Returned(outcome: Option<SkillResult>): Option<SkillResult>
  {
    if outcome.Some? && outcome.value.Targeting? && outcome.value.availableTargets == []
    then Some(Completed(Cancelled))
    else outcome
  }

  class GameManager {
    var turn: Side
    var turnCount: int
    const board: Board
    /** `players_info[side].get_squeak_set()` for each side. */
    const squeakSets: map<Side, SqueakSet>
    var decks: map<Side, seq<Squeak>>
    var hands: map<Side, seq<Squeak>>
    /** `crumbs`; None while the attribute has never been assigned. */
    var crumbs: Option<int>
    /** `first_turn`; None while the attribute has never been assigned. */
    var firstTurn: Option<Side>
    /** `skill_targeting`: the request for targets being answered, if any. */
    var skillTargeting: Option<SkillResult>
    /** `self.__target`, which Python stores under the mangled name
        `_GameManager__target`. */
    var mangledTarget: Option<SkillResult>

    /** The side has a squeak set, a deck and a hand of five cards. */
    predicate Ready(s: Side)
      reads this
    {
      s in squeakSets && s in decks && s in hands && |hands[s]| == HandLength
    }

    /** Both sides are ready: the side to move and the other one. */
    predicate Valid()
      reads this
    {
      Ready(turn) && Ready(OtherSide(turn))
    }

    /** The assignments of `__init__` before the hands are drawn: the side
        that moves first, turn 1, the board, the squeak sets by side and the
        unshuffled new decks. Neither `first_turn` nor `crumbs` is assigned. */
    constructor Init(board: Board, first: Side, sets: (SqueakSet, SqueakSet))
      ensures this.board == board && turn == first && turnCount == 1
      ensures squeakSets == map[first := sets.0, OtherSide(first) := sets.1]
      ensures decks == map[Rat := SqueakSets.NewDeck(squeakSets[Rat]), Mouse := SqueakSets.NewDeck(squeakSets[Mouse])]
      ensures hands == map[Rat := [], Mouse := []]
      ensures crumbs.None? && firstTurn.None? && skillTargeting.None? && mangledTarget.None?
    {
      turn := first;
      turnCount := 1;
      this.board := board;
      var ss := map[first := sets.0, OtherSide(first) := sets.1];
      assert Rat in ss && Mouse in ss by {
        match first
        case Rat =>
        case Mouse =>
      }
      squeakSets := ss;
      decks := map[Rat := SqueakSets.NewDeck(ss[Rat]), Mouse := SqueakSets.NewDeck(ss[Mouse])];
      hands := map[Rat := [], Mouse := []];
      crumbs := None;
      firstTurn := None;
      skillTargeting := None;
      mangledTarget := None;
    }

    /** `_draw_squeak(side)`: pop the last card of the side's deck; an empty
        deck is first replaced by a new deck in shuffled order. `shuffled`
        stands for the order `random.shuffle` produces. */
    method DrawSqueak(side: Side, shuffled: seq<Squeak>) returns (r: Result<Squeak>)
      requires side in decks && side in squeakSets
      requires multiset(shuffled) == multiset(SqueakSets.NewDeck(squeakSets[side]))
      modifies this`decks
      ensures var d := Draw(old(decks[side]), shuffled);
              (d.Ok? ==> r == Ok(d.value.0) && decks == old(decks)[side := d.value.1])
              && (d.Err? ==> r == Err(IndexError) && decks == old(decks)[side := []])
    {
      if decks[side] != [] {
        var deck := decks[side];
        decks := decks[side := deck[..|deck| - 1]];
        return Ok(deck[|deck| - 1]);
      }
      decks := decks[side := shuffled];
      if shuffled == [] {
        return Err(IndexError);
      }
      decks := decks[side := shuffled[..|shuffled| - 1]];
      return Ok(shuffled[|shuffled| - 1]);
    }

    /** The five draws that fill one side's opening hand. While the deck
        holds five cards the hand is its last five cards, the last card
        first. Every refill on the way uses the order `shuffled`. */
    method DrawHand(side: Side, shuffled: seq<Squeak>) returns (r: Result<seq<Squeak>>)
      requires side in decks && side in squeakSets
      requires multiset(shuffled) == multiset(SqueakSets.NewDeck(squeakSets[side]))
      modifies this`decks
      ensures var (res, left) := DrawN(old(decks[side]), shuffled, HandLength);
              r == res && decks == old(decks)[side := left]
      ensures r.Ok? ==> OpeningHand(r.value, decks[side], old(decks[side]))
    {
      ghost var d := decks[side];
      var hand := [];
      var k := 0;
      while k < HandLength
        invariant 0 <= k <= HandLength
        invariant DrawN(d, shuffled, k).0 == Ok(hand)
        invariant decks == old(decks)[side := DrawN(d, shuffled, k).1]
      {
        var c := DrawSqueak(side, shuffled);
        if c.Err? {
          DrawNStops(d, shuffled, k + 1, HandLength);
          r := Err(c.error);
          break;
        }
        hand := hand + [c.value];
        k := k + 1;
      }
      if k == HandLength {
        r := Ok(hand);
      }
      DrawNOpening(d, shuffled);
    }

    /** The hands of `__init__`: five draws for RAT, then five for MOUSE,
        from the new decks. */
    method DealHands(shuffledRat: seq<Squeak>, shuffledMouse: seq<Squeak>) returns (r: Result<()>)
      requires Rat in squeakSets && Mouse in squeakSets
      requires decks == map[Rat := SqueakSets.NewDeck(squeakSets[Rat]), Mouse := SqueakSets.NewDeck(squeakSets[Mouse])]
      requires multiset(shuffledRat) == multiset(SqueakSets.NewDeck(squeakSets[Rat]))
      requires multiset(shuffledMouse) == multiset(SqueakSets.NewDeck(squeakSets[Mouse]))
      modifies this`decks, this`hands
      ensures r.Ok? ==> Ready(Rat) && Ready(Mouse)
                        && OpeningHand(hands[Rat], decks[Rat], old(decks[Rat]))
                        && OpeningHand(hands[Mouse], decks[Mouse], old(decks[Mouse]))
    {
      var hr := DrawHand(Rat, shuffledRat);
      if hr.Err? {
        return Err(hr.error);
      }
      ghost var deckRat := decks[Rat];
      assert OpeningHand(hr.value, deckRat, old(decks[Rat]));
      var hm := DrawHand(Mouse, shuffledMouse);
      if hm.Err? {
        return Err(hm.error);
      }
      hands := map[Rat := hr.value, Mouse := hm.value];
      return Ok(());
    }

    /** `place_squeak(hand_index, coord)`: the card at `hand_index` of the side
        to move is played when the side has the crumbs for it. `placed` is
        what the card's own `on_place` did: an exception, or it returned.
        Then the cost is paid and the slot gets a freshly drawn card. */
    method PlaceSqueak(handIndex: int, coord: OddR, placed: Result<bool>, shuffled: seq<Squeak>) returns (r: Result<()>)
      requires Valid()
      requires multiset(shuffled) == multiset(SqueakSets.NewDeck(squeakSets[turn]))
      modifies this`crumbs, this`hands, this`decks
      ensures Valid()
      ensures var hand := old(hands[turn]);
              var k := PyIndex(|hand|, handIndex);
              var same := crumbs == old(crumbs) && hands == old(hands) && decks == old(decks);
              (k.None? ==> r == Err(IndexError) && same)
              && (k.Some? && old(crumbs).None? ==> r == Err(AttributeError) && same)
              && (k.Some? && old(crumbs).Some? && old(crumbs).value < hand[k.value].crumbCost ==>
                    r == Err(NotEnoughCrumb) && same)
              && (k.Some? && old(crumbs).Some? && old(crumbs).value >= hand[k.value].crumbCost ==>
                    (placed.Err? ==> r == Err(placed.error) && same)
                    && (placed.Ok? ==>
                          crumbs == Some(old(crumbs).value - hand[k.value].crumbCost)
                          && var d := Draw(old(decks[turn]), shuffled);
                             (d.Err? ==> r == Err(IndexError) && hands == old(hands)
                                         && decks == old(decks)[turn := []])
                             && (d.Ok? ==> r == Ok(()) && hands == old(hands)[turn := hand[k.value := d.value.0]]
                                           && decks == old(decks)[turn := d.value.1])))
    {
      var hand := hands[turn];
      var k := PyIndex(|hand|, handIndex);
      if k.None? {
        return Err(IndexError);
      }
      var squeak := hand[k.value];
      if crumbs.None? {
        return Err(AttributeError);
      }
      if crumbs.value < squeak.crumbCost {
        return Err(NotEnoughCrumb);
      }
      if placed.Err? {
        return Err(placed.error);
      }
      crumbs := Some(crumbs.value - squeak.crumbCost);
      var drawn := DrawSqueak(turn, shuffled);
      if drawn.Err? {
        return Err(drawn.error);
      }
      hands := hands[turn := hand[k.value := drawn.value]];
      return Ok(());
    }

    /** `activate_skill(entity, skill_index)` as written. `outcome` is what the
        skill's function returned (None included). The result is stored in
        `self.__target`, so `skill_targeting` stays None. */
    method ActivateSkillAsWritten(entity: Entity, skillIndex: int, outcome: Option<SkillResult>)
      returns (r: Result<Option<SkillResult>>)
      modifies this`crumbs, this`mangledTarget, entity`skillStamina
      ensures skillTargeting == old(skillTargeting)
      ensures r.Ok? && outcome.Some? && outcome.value.Targeting? && outcome.value.availableTargets != [] ==>
                mangledTarget == outcome && skillTargeting.None?
      ensures r.Ok? ==> r.value == Returned(outcome)
    {
      if skillTargeting.Some? {
        return Err(ActionInSelectingMode);
      }
      var k := PyIndex(|entity.skills|, skillIndex);
      if k.None? {
        return Err(IndexError);
      }
      var skill := entity.skills[k.value];
      if crumbs.None? {
        return Err(AttributeError);
      }
      if crumbs.value < skill.crumbCost {
        return Err(NotEnoughCrumb);
      }
      if entity.skillStamina.Some? && entity.skillStamina.value <= 0 {
        return Err(NotEnoughSkillStamina);
      }
      if outcome == Some(Completed(Success)) {
        crumbs := Some(crumbs.value - skill.crumbCost);
        if entity.skillStamina.Some? {
          entity.skillStamina := Some(entity.skillStamina.value - 1);
        }
      }
      if outcome.Some? && outcome.value.Targeting? {
        if outcome.value.availableTargets == [] {
          return Ok(Some(Completed(Cancelled)));
        }
        mangledTarget := outcome;
      }
      return Ok(outcome);
    }

    /** `activate_skill(entity, skill_index)` with the request for targets
        stored in `skill_targeting`, which puts the game in selecting mode.
        Nothing happens unless the manager is not selecting, the index is a
        valid list index, the side has the skill's crumbs and the entity has
        skill stamina left; crumbs and stamina are paid only on SUCCESS. */
    method ActivateSkill(entity: Entity, skillIndex: int, outcome: Option<SkillResult>)
      returns (r: Result<Option<SkillResult>>)
      modifies this`crumbs, this`skillTargeting, entity`skillStamina
      ensures var k := PyIndex(|entity.skills|, skillIndex);
              var same := crumbs == old(crumbs) && skillTargeting == old(skillTargeting)
                               && entity.skillStamina == old(entity.skillStamina);
              (old(skillTargeting).Some? ==> r == Err(ActionInSelectingMode) && same)
              && (old(skillTargeting).None? ==>
                    (k.None? ==> r == Err(IndexError) && same)
                    && (k.Some? && old(crumbs).None? ==> r == Err(AttributeError) && same)
                    && (k.Some? && old(crumbs).Some? ==>
                          var cost := entity.skills[k.value].crumbCost;
                          var st := old(entity.skillStamina);
                          (old(crumbs).value < cost ==> r == Err(NotEnoughCrumb) && same)
                          && (old(crumbs).value >= cost && st.Some? && st.value <= 0 ==>
                                r == Err(NotEnoughSkillStamina) && same)
                          && (old(crumbs).value >= cost && (st.None? || st.value > 0) ==>
                                r == Ok(Returned(outcome))
                                && (outcome == Some(Completed(Success)) ==>
                                      crumbs == Some(old(crumbs).value - cost)
                                      && entity.skillStamina == Shortened(st, 1))
                                && (outcome != Some(Completed(Success)) ==>
                                      crumbs == old(crumbs) && entity.skillStamina == st)
                                && (if outcome.Some? && outcome.value.Targeting? && outcome.value.availableTargets != []
                                    then skillTargeting == outcome
                                    else skillTargeting.None?))))
    {
      if skillTargeting.Some? {
        return Err(ActionInSelectingMode);
      }
      var k := PyIndex(|entity.skills|, skillIndex);
      if k.None? {
        return Err(IndexError);
      }
      var skill := entity.skills[k.value];
      if crumbs.None? {
        return Err(AttributeError);
      }
      if crumbs.value < skill.crumbCost {
        return Err(NotEnoughCrumb);
      }
      if entity.skillStamina.Some? && entity.skillStamina.value <= 0 {
        return Err(NotEnoughSkillStamina);
      }
      if outcome == Some(Completed(Success)) {
        crumbs := Some(crumbs.value - skill.crumbCost);
        if entity.skillStamina.Some? {
          entity.skillStamina := Some(entity.skillStamina.value - 1);
        }
      }
      if outcome.Some? && outcome.value.Targeting? {
        if outcome.value.availableTargets == [] {
          return Ok(Some(Completed(Cancelled)));
        }
        skillTargeting := outcome;
      }
      return Ok(outcome);
    }

    /** `apply_skill_callback(selected_targets)`: only in selecting mode; the
        callback's result `outcome` pays the requesting skill's crumbs and
        stamina on SUCCESS, and becomes the next request when it asks for
        targets again; otherwise selecting mode ends. */
    method ApplySkillCallback(selected: seq<OddR>, outcome: Option<SkillResult>) returns (r: Result<Option<SkillResult>>)
      modifies this`crumbs, this`skillTargeting
      modifies (if skillTargeting.Some? && skillTargeting.value.Targeting? then {skillTargeting.value.sourceEntity} else {})`skillStamina
      ensures old(skillTargeting).None? ==> r == Err(CallbackInNonSelectingMode) && skillTargeting.None? && crumbs == old(crumbs)
      ensures old(skillTargeting).Some? && old(skillTargeting).value.Targeting? ==>
                var t := old(skillTargeting).value;
                var st := old(t.sourceEntity.skillStamina);
                (outcome == Some(Completed(Success)) && old(crumbs).None? ==>
                   r == Err(AttributeError) && skillTargeting == old(skillTargeting))
                && (outcome == Some(Completed(Success)) && old(crumbs).Some? ==>
                      crumbs == Some(old(crumbs).value - t.sourceSkill.crumbCost)
                      && t.sourceEntity.skillStamina == Shortened(st, 1))
                && (outcome != Some(Completed(Success)) ==> crumbs == old(crumbs) && t.sourceEntity.skillStamina == st)
                && (r.Ok? ==> r.value == outcome
                              && skillTargeting == if outcome.Some? && outcome.value.Targeting? then outcome else None)
                && (r.Err? ==> r.error == AttributeError)
    {
      if skillTargeting.None? {
        return Err(CallbackInNonSelectingMode);
      }
      var t := skillTargeting.value;
      if !t.Targeting? {
        // `skill_targeting` only ever holds a request for targets
        skillTargeting := None;
        return Ok(outcome);
      }
      if outcome == Some(Completed(Success)) {
        if crumbs.None? {
          return Err(AttributeError);
        }
        crumbs := Some(crumbs.value - t.sourceSkill.crumbCost);
        if t.sourceEntity.skillStamina.Some? {
          t.sourceEntity.skillStamina := Some(t.sourceEntity.skillStamina.value - 1);
        }
      }
      if outcome.Some? && outcome.value.Targeting? {
        skillTargeting := outcome;
      } else {
        skillTargeting := None;
      }
      return Ok(outcome);
    }

    /** `get_enemy_on_pos(pos)`: ValueError when no tile is there; otherwise
        the entity with health nearest the end of the tile's list whose side
        is not the side to move, or None. */
    method GetEnemyOnPos(pos: OddR) returns (r: Result<Option<Entity>>)
      ensures var t := TileAt(board.tiles, board.sizeX, board.sizeY, pos);
              (t.Err? ==> r == Err(IndexError))
              && (t == Ok(None) ==> r == Err(ValueError))
              && (t.Ok? && t.value.Some? ==>
                    var es := t.value.value.entities;
                    r.Ok?
                    && (r.value.None? <==> forall i :: 0 <= i < |es| ==> !Wanted(es[i], turn, true))
                    && (r.value.Some? ==>
                          exists i :: 0 <= i < |es| && es[i] == r.value.value && Wanted(es[i], turn, true)
                                      && forall j :: i < j < |es| ==> !Wanted(es[j], turn, true)))
    {
      var t := TileAt(board.tiles, board.sizeX, board.sizeY, pos);
      if t.Err? {
        return Err(IndexError);
      }
      if t.value.None? {
        return Err(ValueError);
      }
      var e := TopWanted(t.value.value.entities, turn, true);
      return Ok(e);
    }

    /** `get_ally_on_pos(pos)`: as `get_enemy_on_pos`, for an entity with
        health on the side to move. */
    method GetAllyOnPos(pos: OddR) returns (r: Result<Option<Entity>>)
      ensures var t := TileAt(board.tiles, board.sizeX, board.sizeY, pos);
              (t.Err? ==> r == Err(IndexError))
              && (t == Ok(None) ==> r == Err(ValueError))
              && (t.Ok? && t.value.Some? ==>
                    var es := t.value.value.entities;
                    r.Ok?
                    && (r.value.None? <==> forall i :: 0 <= i < |es| ==> !Wanted(es[i], turn, false))
                    && (r.value.Some? ==>
                          exists i :: 0 <= i < |es| && es[i] == r.value.value && Wanted(es[i], turn, false)
                                      && forall j :: i < j < |es| ==> !Wanted(es[j], turn, false)))
    {
      var t := TileAt(board.tiles, board.sizeX, board.sizeY, pos);
      if t.Err? {
        return Err(IndexError);
      }
      if t.value.None? {
        return Err(ValueError);
      }
      var e := TopWanted(t.value.value.entities, turn, false);
      return Ok(e);
    }

    /** The checks `move_rodent` makes before it looks for a path, in the
        source's order: selecting mode, crumbs (AttributeError while `crumbs`
        was never assigned), move stamina, reach, and a custom path. */
    function MoveChecks(rodent: Entity, target: OddR, customPath: Option<seq<OddR>>): (r: Result<()>)
      reads this, rodent
      ensures r.Ok? <==> skillTargeting.None? && crumbs.Some? && crumbs.value >= rodent.moveCost
                         && rodent.moveStamina > 0 && Distance(rodent.pos, target) <= rodent.speed
                         && customPath.None?
    {
      if skillTargeting.Some? then Err(ActionInSelectingMode)
      else if crumbs.None? then Err(AttributeError)
      else if crumbs.value < rodent.moveCost then Err(NotEnoughCrumb)
      else if rodent.moveStamina <= 0 then Err(NotEnoughMoveStamina)
      else if Distance(rodent.pos, target) > rodent.speed then Err(InvalidMoveTarget)
      else if customPath.Some? then Err(NotImplementedError)
      else Ok(())
    }

    /** `board.try_move(entity, path)` seen from the game manager: either
        the entity moved to the end of the path, or its position is kept and
        the grid too, except after a ValueError, which leaves the append. */
    method MoveOnBoard(entity: Entity, path: seq<OddR>) returns (r: Result<bool>)
      modifies board`tiles, entity`pos
      ensures r == Ok(true) ==> path != [] && MovedAlong(board, entity, path[|path| - 1])
      ensures r != Ok(true) ==> entity.pos == old(entity.pos)
      ensures r != Ok(true) && r != Err(ValueError) ==> board.tiles == old(board.tiles)
    {
      r := board.TryMove(entity, path);
    }

    /** `move_rodent(rodent, target, custom_path)` with the found path handed
        to `try_move`. `found` is what `board.path_find(rodent, target)`
        returned. Crumbs and move stamina are paid only when the rodent moved,
        and the path is returned. */
    method MoveRodent(rodent: Entity, target: OddR, customPath: Option<seq<OddR>>, found: Option<seq<OddR>>)
      returns (r: Result<seq<OddR>>)
      modifies this`crumbs, board`tiles, rodent`pos, rodent`moveStamina
      ensures var c := old(MoveChecks(rodent, target, customPath));
              (c.Err? ==> r == Err(c.error))
              && (c.Ok? && found.None? ==> r == Err(InvalidMoveTarget))
              && (r.Ok? ==> c.Ok? && found == Some(r.value))
      ensures r.Err? ==> crumbs == old(crumbs) && rodent.moveStamina == old(rodent.moveStamina)
                         && rodent.pos == old(rodent.pos)
      ensures r.Err? && r.error != ValueError ==> board.tiles == old(board.tiles)
      ensures r.Ok? ==>
                r.value != [] && MovedAlong(board, rodent, r.value[|r.value| - 1])
                && crumbs == Some(old(crumbs).value - rodent.moveCost)
                && rodent.moveStamina == old(rodent.moveStamina) - 1
    {
      var c := MoveChecks(rodent, target, customPath);
      if c.Err? {
        return Err(c.error);
      }
      if found.None? {
        return Err(InvalidMoveTarget);
      }
      var path := found.value;
      var left := crumbs.value - rodent.moveCost;
      var stamina := rodent.moveStamina - 1;
      var moved := MoveOnBoard(rodent, path);
      if moved.Err? {
        return Err(moved.error);
      }
      if !moved.value {
        return Err(InvalidMoveTarget);
      }
      crumbs := Some(left);
      rodent.moveStamina := stamina;
      return Ok(path);
    }

    /** `move_rodent` as written: `try_move` is handed the target coordinate
        where it expects a path. Once the start tile is found, iterating over
        the coordinate raises TypeError, so the call never returns a path and
        never moves the rodent or spends anything. */
    method MoveRodentAsWritten(rodent: Entity, target: OddR, customPath: Option<seq<OddR>>, found: Option<seq<OddR>>)
      returns (r: Result<seq<OddR>>)
      ensures r.Err?
      ensures var c := MoveChecks(rodent, target, customPath);
              var start := TileAt(board.tiles, board.sizeX, board.sizeY, rodent.pos);
              (c.Err? ==> r == Err(c.error))
              && (c.Ok? && found.None? ==> r == Err(InvalidMoveTarget))
              && (c.Ok? && found.Some? ==>
                    (start.Err? ==> r == Err(IndexError))
                    && (start == Ok(None) ==> r == Err(EntityInvalidPos))
                    && (start.Ok? && start.value.Some? ==> r == Err(TypeError)))
    {
      var c := MoveChecks(rodent, target, customPath);
      if c.Err? {
        return Err(c.error);
      }
      if found.None? {
        return Err(InvalidMoveTarget);
      }
      var start := TileAt(board.tiles, board.sizeX, board.sizeY, rodent.pos);
      if start.Err? {
        return Err(IndexError);
      }
      if start.value.None? {
        return Err(EntityInvalidPos);
      }
      // `for path_coord in path` over an OddRCoord, which is not iterable
      return Err(TypeError);
    }

    /** `apply_effect(entity, effect)` as written. With no effect of the same
        name on the entity, the effect is registered and cached. A stronger
        effect takes the old one into its overridden list and is cached, but
        the old one stays registered. An equally strong one extends a finite
        duration it outlasts. A weaker one that outlasts a finite old duration
        waits in the old effect's overridden list and is cached. */
    method ApplyEffectAsWritten(entity: Entity, effect: EntityEffect)
      requires effect.Valid()
      modifies entity`effects, board.cache`effects, effect`overriddenEffects
      modifies entity.effects.Values`duration, entity.effects.Values`overriddenEffects
      ensures var n := effect.Name();
              var cached := board.cache.effects == old(board.cache.effects) + [effect];
              (n !in old(entity.effects) ==>
                 entity.effects == old(entity.effects)[n := effect] && cached
                 && effect.overriddenEffects == old(effect.overriddenEffects))
              && (n in old(entity.effects) ==>
                  var o := old(entity.effects)[n];
                  entity.effects == old(entity.effects)
                  && (old(effect.intensity) > old(o.intensity) ==>
                        effect.overriddenEffects == old(effect.overriddenEffects) + [o] && cached
                        && o.overriddenEffects == old(o.overriddenEffects)
                        && o.duration == old(o.duration) && effect.duration == old(effect.duration))
                  && (old(effect.intensity) == old(o.intensity) ==>
                        o.duration == Extended(old(o.duration), old(effect.duration))
                        && board.cache.effects == old(board.cache.effects)
                        && effect.overriddenEffects == old(effect.overriddenEffects))
                  && (old(effect.intensity) < old(o.intensity) ==>
                        o.duration == old(o.duration)
                        && (Outlasts(old(effect.duration), old(o.duration)) ==>
                              o.overriddenEffects == old(o.overriddenEffects) + [effect] && cached)
                        && (!Outlasts(old(effect.duration), old(o.duration)) ==>
                              o.overriddenEffects == old(o.overriddenEffects)
                              && board.cache.effects == old(board.cache.effects))))
    {
      var n := effect.Name();
      if n !in entity.effects {
        entity.effects := entity.effects[n := effect];
        board.cache.effects := board.cache.effects + [effect];
        return;
      }
      var o := entity.effects[n];
      if effect.intensity > o.intensity {
        effect.overriddenEffects := effect.overriddenEffects + [o];
        board.cache.effects := board.cache.effects + [effect];
        return;
      } else if effect.intensity == o.intensity {
        if o.duration.None? {
          return;
        }
        if effect.duration.Some? && effect.duration.value <= o.duration.value {
          return;
        }
        o.duration := effect.duration;
        return;
      } else {
        if o.duration.None? {
          return;
        }
        if effect.duration.Some? && effect.duration.value <= o.duration.value {
          return;
        }
        o.overriddenEffects := o.overriddenEffects + [effect];
        board.cache.effects := board.cache.effects + [effect];
      }
    }

    /** `apply_effect(entity, effect)` with a stronger effect also registered
        under its name, so that it is the active effect and the old one waits
        in its overridden list. The other cases are as written. */
    method ApplyEffect(entity: Entity, effect: EntityEffect)
      requires effect.Valid()
      modifies entity`effects, board.cache`effects, effect`overriddenEffects
      modifies entity.effects.Values`duration, entity.effects.Values`overriddenEffects
      ensures var n := effect.Name();
              var cached := board.cache.effects == old(board.cache.effects) + [effect];
              (n !in old(entity.effects) ==>
                 entity.effects == old(entity.effects)[n := effect] && cached
                 && effect.overriddenEffects == old(effect.overriddenEffects))
              && (n in old(entity.effects) ==>
                  var o := old(entity.effects)[n];
                  (old(effect.intensity) > old(o.intensity) ==>
                     entity.effects == old(entity.effects)[n := effect]
                     && effect.overriddenEffects == old(effect.overriddenEffects) + [o] && cached
                     && o.overriddenEffects == old(o.overriddenEffects)
                     && o.duration == old(o.duration) && effect.duration == old(effect.duration))
                  && (old(effect.intensity) == old(o.intensity) ==>
                        entity.effects == old(entity.effects)
                        && o.duration == Extended(old(o.duration), old(effect.duration))
                        && board.cache.effects == old(board.cache.effects)
                        && effect.overriddenEffects == old(effect.overriddenEffects))
                  && (old(effect.intensity) < old(o.intensity) ==>
                        entity.effects == old(entity.effects) && o.duration == old(o.duration)
                        && (Outlasts(old(effect.duration), old(o.duration)) ==>
                              o.overriddenEffects == old(o.overriddenEffects) + [effect] && cached)
                        && (!Outlasts(old(effect.duration), old(o.duration)) ==>
                              o.overriddenEffects == old(o.overriddenEffects)
                              && board.cache.effects == old(board.cache.effects))))
    {
      var n := effect.Name();
      if n !in entity.effects {
        entity.effects := entity.effects[n := effect];
        board.cache.effects := board.cache.effects + [effect];
        return;
      }
      var o := entity.effects[n];
      if effect.intensity > o.intensity {
        effect.overriddenEffects := effect.overriddenEffects + [o];
        board.cache.effects := board.cache.effects + [effect];
        entity.effects := entity.effects[n := effect];
        return;
      } else if effect.intensity == o.intensity {
        if o.duration.None? {
          return;
        }
        if effect.duration.Some? && effect.duration.value <= o.duration.value {
          return;
        }
        o.duration := effect.duration;
        return;
      } else {
        if o.duration.None? {
          return;
        }
        if effect.duration.Some? && effect.duration.value <= o.duration.value {
          return;
        }
        o.overriddenEffects := o.overriddenEffects + [effect];
        board.cache.effects := board.cache.effects + [effect];
      }
    }

    /** As written, a stronger effect is never registered, so when its last
        turn comes `end_turn` looks for it in the waiting list of the
        weaker, still active effect, where it is not: ValueError. */
    method StrongerEffectExpiryAsWritten(entity: Entity, effect: EntityEffect) returns (r: Result<()>)
      requires effect.Valid() && effect.entity == entity
      requires effect.Name() in entity.effects && entity.effects[effect.Name()] != effect
      requires effect.intensity > entity.effects[effect.Name()].intensity
      requires effect !in entity.effects[effect.Name()].overriddenEffects
      requires effect.duration == Some(1) && effect.ShouldClear(turn) == Ok(true)
      modifies entity`effects, board.cache`effects, effect`overriddenEffects
      modifies entity.effects.Values`duration, entity.effects.Values`overriddenEffects
      modifies effect.overriddenEffects`overriddenEffects
      ensures r == Err(ValueError)
    {
      ApplyEffectAsWritten(entity, effect);
      r := ExpireEffect(effect);
    }

    /** With the stronger effect registered, its expiry hands the name back
        to the strongest effect waiting under it. */
    method StrongerEffectExpiry(entity: Entity, effect: EntityEffect) returns (r: Result<()>)
      requires effect.Valid() && effect.entity == entity
      requires effect.Name() in entity.effects && entity.effects[effect.Name()] != effect
      requires effect.intensity > entity.effects[effect.Name()].intensity
      requires effect.duration == Some(1) && effect.ShouldClear(turn) == Ok(true)
      modifies entity`effects, board.cache`effects, effect`overriddenEffects
      modifies entity.effects.Values`duration, entity.effects.Values`overriddenEffects
      modifies effect.overriddenEffects`overriddenEffects
      ensures r == Ok(())
    {
      ApplyEffect(entity, effect);
      r := ExpireEffect(effect);
    }

    /** As written, a skill that asks for targets leaves the game out of
        selecting mode, so the answer to its request is refused. */
    method TargetAnswerAsWritten(entity: Entity, skillIndex: int, outcome: Option<SkillResult>,
                                 selected: seq<OddR>, answer: Option<SkillResult>)
      returns (r: Result<Option<SkillResult>>)
      requires skillTargeting.None?
      modifies this`crumbs, this`mangledTarget, this`skillTargeting, entity`skillStamina
      ensures r == Err(CallbackInNonSelectingMode)
    {
      var _ := ActivateSkillAsWritten(entity, skillIndex, outcome);
      r := ApplySkillCallback(selected, answer);
    }

    /** With the request stored in `skill_targeting`, a skill activated with
        candidates to pick from has its answer accepted. */
    method TargetAnswer(entity: Entity, skillIndex: int, outcome: Option<SkillResult>,
                        selected: seq<OddR>, answer: Option<SkillResult>)
      returns (activated: Result<Option<SkillResult>>, r: Result<Option<SkillResult>>)
      requires skillTargeting.None?
      requires outcome.Some? && outcome.value.Targeting? && outcome.value.availableTargets != []
      modifies this`crumbs, this`skillTargeting, entity`skillStamina, outcome.value.sourceEntity`skillStamina
      ensures activated.Ok? ==> r != Err(CallbackInNonSelectingMode)
    {
      activated := ActivateSkill(entity, skillIndex, outcome);
      assert skillTargeting.None? || skillTargeting == outcome;
      r := ApplySkillCallback(selected, answer);
    }

    /** `effect_duration_over(effect)` with the evidently intended ending: when
        no effect waits under the expiring one, the name is simply gone. */
    method EffectDurationOver(effect: EntityEffect) returns (r: Result<()>)
      requires effect.Valid()
      modifies board.cache`effects, effect.entity`effects, effect`overriddenEffects
      modifies effect.overriddenEffects`overriddenEffects
      ensures DurationOverDone(board.cache, effect, r)
    {
      var c := board.cache;
      var n := effect.Name();
      var e := effect.entity;
      var os := effect.overriddenEffects;
      var m := e.effects;
      if effect !in c.effects {
        r := Err(ValueError);
      } else if os == [] && n !in m {
        c.effects := RemoveFirst(c.effects, effect);
        r := Err(KeyError);
      } else {
        // The comprehension and `max` read only durations and intensities,
        // which nothing here changes, so they are taken before the updates.
        var kept := Survivors(if os == [] then m - {n} else m);
        var k := if os == [] then 0 else Strongest(os);
        c.effects := RemoveFirst(c.effects, effect);
        if os == [] {
          e.effects := kept;
        } else {
          var nw := os[k];
          var rest := RemoveFirst(os, nw);
          effect.overriddenEffects := rest;
          nw.overriddenEffects := rest;
          e.effects := kept[n := nw];
        }
        r := Ok(());
      }
    }

    /** `effect_duration_over(effect)` as written: after the name is deleted,
        `max` over the empty waiting list raises ValueError, so the last
        effect of a name never expires without an exception. Otherwise it
        behaves as the intended version. */
    method EffectDurationOverAsWritten(effect: EntityEffect) returns (r: Result<()>)
      requires effect.Valid()
      modifies board.cache`effects, effect.entity`effects, effect`overriddenEffects
      modifies effect.overriddenEffects`overriddenEffects
      ensures old(effect.overriddenEffects) == [] ==> r.Err?
      ensures old(effect.overriddenEffects) == [] && effect !in old(board.cache.effects) ==>
                r == Err(ValueError) && board.cache.effects == old(board.cache.effects)
                && effect.entity.effects == old(effect.entity.effects)
      ensures var n := old(effect.Name());
              var m := old(effect.entity.effects);
              old(effect.overriddenEffects) == [] && effect in old(board.cache.effects) && n in m ==>
                r == Err(ValueError) && effect.entity.effects == old(Survivors(m - {n}))
                && board.cache.effects == RemoveFirst(old(board.cache.effects), effect)
      ensures old(effect.overriddenEffects) != [] ==> DurationOverDone(board.cache, effect, r)
    {
      var os := effect.overriddenEffects;
      r := EffectDurationOver(effect);
      if os == [] && r.Ok? {
        r := Err(ValueError);
      }
    }

    /** The check `end_turn` makes on one cached effect after its
        `on_turn_change` hook: an effect in its last turn that clears on the
        side to move ends. When it is not the active effect of its name, it
        just leaves the active effect's waiting list; otherwise its duration
        is over, through `effect_duration_over` as written: the last effect
        of a name is removed and then ValueError is raised. */
    method ExpireEffect(effect: EntityEffect) returns (r: Result<()>)
      requires effect.Valid()
      modifies board.cache`effects, effect.entity`effects, effect`overriddenEffects
      modifies effect.overriddenEffects`overriddenEffects, effect.entity.effects.Values`overriddenEffects
      ensures var same := board.cache.effects == old(board.cache.effects)
                          && effect.entity.effects == old(effect.entity.effects);
              var sc := old(effect.ShouldClear(turn));
              var n := old(effect.Name());
              var m := old(effect.entity.effects);
              (old(effect.duration) != Some(1) ==> r == Ok(()) && same)
              && (old(effect.duration) == Some(1) ==>
                    (sc.Err? ==> r == Err(sc.error) && same)
                    && (sc == Ok(false) ==> r == Ok(()) && same)
                    && (sc == Ok(true) && n !in m ==> r == Err(KeyError) && same)
                    && (sc == Ok(true) && n in m && m[n] != effect ==>
                          same
                          && (effect !in old(m[n].overriddenEffects) ==> r == Err(ValueError))
                          && (effect in old(m[n].overriddenEffects) ==>
                                r == Ok(()) && m[n].overriddenEffects == RemoveFirst(old(m[n].overriddenEffects), effect)))
                    && (sc == Ok(true) && n in m && m[n] == effect && old(effect.overriddenEffects) != [] ==>
                          DurationOverDone(board.cache, effect, r))
                    && (sc == Ok(true) && n in m && m[n] == effect && old(effect.overriddenEffects) == [] ==>
                          r == Err(ValueError)
                          && (effect in old(board.cache.effects) ==>
                                board.cache.effects == RemoveFirst(old(board.cache.effects), effect)
                                && effect.entity.effects == old(Survivors(m - {n})))
                          && (effect !in old(board.cache.effects) ==>
                                board.cache.effects == old(board.cache.effects) && effect.entity.effects == m)))
    {
      if effect.duration != Some(1) {
        return Ok(());
      }
      var sc := effect.ShouldClear(turn);
      if sc.Err? {
        return Err(sc.error);
      }
      if !sc.value {
        return Ok(());
      }
      var n := effect.Name();
      if n !in effect.entity.effects {
        return Err(KeyError);
      }
      var active := effect.entity.effects[n];
      if active != effect {
        if effect !in active.overriddenEffects {
          return Err(ValueError);
        }
        active.overriddenEffects := RemoveFirst(active.overriddenEffects, effect);
        return Ok(());
      }
      r := EffectDurationOverAsWritten(effect);
    }

    /** The loop of `end_turn` that shortens every cached effect with a
        duration by one; an effect listed k times is shortened k times. */
    method DecrementDurations()
      modifies set e | e in board.cache.effects
      ensures forall e :: e in old(board.cache.effects) ==>
                e.duration == Shortened(old(e.duration), multiset(old(board.cache.effects))[e])
    {
      var es := board.cache.effects;
      var i := 0;
      while i < |es|
        invariant 0 <= i <= |es| && es == board.cache.effects
        invariant forall e :: e in es ==> e.duration == Shortened(old(e.duration), multiset(es[..i])[e])
      {
        var e := es[i];
        assert es[..i + 1] == es[..i] + [e];
        if e.duration.Some? {
          e.duration := Some(e.duration.value - 1);
        }
        i := i + 1;
      }
      assert es[..|es|] == es;
    }

    /** `end_turn` apart from its walk over the cached effects: the other side
        moves; when the move comes back to the side that moved first, every
        cached duration shrinks and the turn count grows; then the crumbs are
        refilled to `crumb_per_turn(turn_count)`. While `first_turn` was never
        assigned, reading it raises AttributeError after the turn flipped. */
    method EndTurn() returns (r: Result<()>)
      requires Valid()
      modifies this`turn, this`turnCount, this`crumbs, set e | e in board.cache.effects
      ensures Valid()
      ensures old(skillTargeting).Some? ==>
                r == Err(ActionInSelectingMode) && turn == old(turn) && turnCount == old(turnCount) && crumbs == old(crumbs)
                && forall e :: e in old(board.cache.effects) ==> e.duration == old(e.duration)
      ensures old(skillTargeting).None? && firstTurn.None? ==>
                r == Err(AttributeError) && turn == OtherSide(old(turn)) && turnCount == old(turnCount) && crumbs == old(crumbs)
                && forall e :: e in old(board.cache.effects) ==> e.duration == old(e.duration)
      ensures old(skillTargeting).None? && firstTurn.Some? ==>
                r == Ok(())
                && (turn, turnCount) == NextTurn(old(turn), old(turnCount), firstTurn.value)
                && crumbs == Some(CrumbPerTurn(turnCount))
                && (turn == firstTurn.value ==>
                      forall e :: e in old(board.cache.effects) ==>
                        e.duration == Shortened(old(e.duration), multiset(old(board.cache.effects))[e]))
                && (turn != firstTurn.value ==>
                      forall e :: e in old(board.cache.effects) ==> e.duration == old(e.duration))
    {
      if skillTargeting.Some? {
        return Err(ActionInSelectingMode);
      }
      turn := OtherSide(turn);
      OtherSideInvolution(turn);
      if firstTurn.None? {
        return Err(AttributeError);
      }
      if turn == firstTurn.value {
        DecrementDurations();
        turnCount := turnCount + 1;
      }
      crumbs := Some(CrumbPerTurn(turnCount));
      return Ok(());
    }
  }

  /** `GameManager(map, players_info, first_turn)` as written: the board is
      built from the map, each side's deck is its new deck, and each side draws
      five cards, RAT first; `shuffledRat` and `shuffledMouse` stand for the
      orders `random.shuffle` gives a side's refilled deck. `first_turn` and
      `crumbs` are never assigned. */
  method NewGameManagerAsWritten(m: Maps.Map, sets: (SqueakSet, SqueakSet), first: Side,
                                 shuffledRat: seq<Squeak>, shuffledMouse: seq<Squeak>)
    returns (r: Result<GameManager>)
    requires multiset(shuffledRat) == multiset(SqueakSets.NewDeck(SetFor(first, sets, Rat)))
    requires multiset(shuffledMouse) == multiset(SqueakSets.NewDeck(SetFor(first, sets, Mouse)))
    ensures r.Ok? ==>
              fresh(r.value) && r.value.Valid() && r.value.turn == first && r.value.turnCount == 1
              && r.value.crumbs.None? && r.value.firstTurn.None? && r.value.skillTargeting.None?
              && fresh(r.value.board) && fresh(r.value.board.cache) && r.value.board.cache.effects == []
              && r.value.squeakSets[Rat] == SetFor(first, sets, Rat) && r.value.squeakSets[Mouse] == SetFor(first, sets, Mouse)
    ensures r.Ok? ==> forall s :: s in r.value.hands && s in r.value.decks
                                  && OpeningHand(r.value.hands[s], r.value.decks[s], SqueakSets.NewDeck(SetFor(first, sets, s)))
  {
    var b := NewBoard(m);
    if b.Err? {
      return Err(b.error);
    }
    var g := new GameManager.Init(b.value, first, sets);
    var dealt := g.DealHands(shuffledRat, shuffledMouse);
    if dealt.Err? {
      return Err(dealt.error);
    }
    OtherSideInvolution(first);
    forall s: Side
      ensures s in g.hands && s in g.decks && OpeningHand(g.hands[s], g.decks[s], SqueakSets.NewDeck(SetFor(first, sets, s)))
    {
      match s
      case Rat =>
      case Mouse =>
    }
    return Ok(g);
  }

  /** The opening hand and deck a side is dealt from a new deck of at least
      five cards: the hand holds its last five cards, the last one first, and
      the deck keeps the rest in order. Both always exist, and the hand has
      five cards. */
  predicate OpeningHand(hand: seq<Squeak>, deck: seq<Squeak>, newDeck: seq<Squeak>)
  {
    |hand| == HandLength
    && (|newDeck| >= HandLength ==>
          deck == newDeck[..|newDeck| - HandLength]
          && forall j :: 0 <= j < HandLength ==> hand[j] == newDeck[|newDeck| - 1 - j])
  }

  /** The evidently intended constructor: as written, and `first_turn` and
      `crumbs` are set to the side that moves first and
      `crumb_per_turn(1)`, which is 10. */
  method NewGameManager(m: Maps.Map, sets: (SqueakSet, SqueakSet), first: Side,
                        shuffledRat: seq<Squeak>, shuffledMouse: seq<Squeak>)
    returns (r: Result<GameManager>)
    requires multiset(shuffledRat) == multiset(SqueakSets.NewDeck(SetFor(first, sets, Rat)))
    requires multiset(shuffledMouse) == multiset(SqueakSets.NewDeck(SetFor(first, sets, Mouse)))
    ensures r.Ok? ==>
              fresh(r.value) && r.value.Valid() && r.value.turn == first && r.value.turnCount == 1
              && r.value.crumbs == Some(10) && r.value.firstTurn == Some(first) && r.value.skillTargeting.None?
              && fresh(r.value.board) && fresh(r.value.board.cache) && r.value.board.cache.effects == []
              && r.value.squeakSets[Rat] == SetFor(first, sets, Rat) && r.value.squeakSets[Mouse] == SetFor(first, sets, Mouse)
    ensures r.Ok? ==> forall s :: s in r.value.hands && s in r.value.decks
                                  && OpeningHand(r.value.hands[s], r.value.decks[s], SqueakSets.NewDeck(SetFor(first, sets, s)))
  {
    r := NewGameManagerAsWritten(m, sets, first, shuffledRat, shuffledMouse);
    if r.Ok? {
      r.value.firstTurn := Some(first);
      r.value.crumbs := Some(CrumbPerTurn(1));
    }
  }
  /** As written, the first `end_turn` of every game fails: `first_turn` was
      never assigned. */
  method FirstEndTurnAsWritten(m: Maps.Map, sets: (SqueakSet, SqueakSet), first: Side,
                               shuffledRat: seq<Squeak>, shuffledMouse: seq<Squeak>)
    returns (r: Result<()>)
    requires multiset(shuffledRat) == multiset(SqueakSets.NewDeck(SetFor(first, sets, Rat)))
    requires multiset(shuffledMouse) == multiset(SqueakSets.NewDeck(SetFor(first, sets, Mouse)))
    ensures r.Err?
  {
    var g := NewGameManagerAsWritten(m, sets, first, shuffledRat, shuffledMouse);
    if g.Err? {
      return Err(g.error);
    }
    r := g.value.EndTurn();
  }

  /** With `first_turn` and `crumbs` assigned, the first `end_turn` passes the
      move to the other side, still in turn 1, with 10 crumbs to spend. */
  method FirstEndTurn(m: Maps.Map, sets: (SqueakSet, SqueakSet), first: Side,
                      shuffledRat: seq<Squeak>, shuffledMouse: seq<Squeak>)
    returns (r: Result<GameManager>)
    requires multiset(shuffledRat) == multiset(SqueakSets.NewDeck(SetFor(first, sets, Rat)))
    requires multiset(shuffledMouse) == multiset(SqueakSets.NewDeck(SetFor(first, sets, Mouse)))
    ensures r.Ok? ==> r.value.turn == OtherSide(first) && r.value.turnCount == 1 && r.value.crumbs == Some(10)
  {
    r := NewGameManager(m, sets, first, shuffledRat, shuffledMouse);
    if r.Ok? {
      var e := r.value.EndTurn();
    }
  }
}
