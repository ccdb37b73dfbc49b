/** The playability of a squeak card in the hand
    (frontend/pages/page_elements/preset_elements/squeak_element.py): a card
    is playable while its crumb cost does not exceed the crumbs at hand, and a
    change of playability queues a fade animation on the card. */
module SqueakElements {

  /** The override animations a card queues: the fade-out shown when it
      becomes playable and the fade-in shown when it stops being playable. */
  datatype CardAnim = EnableFade | DisableFade

  /** The animation queued for a change of playability, if any. */
  function Transition(before: bool, after: bool): seq<CardAnim>
  {
    if before == after then [] else if after then [EnableFade] else [DisableFade]
  }

  /** Playability and the queued animations after deciding interactivity
      for each crumb count in turn. */
  function Trace(cost: int, playable: bool, crumbs: seq<int>): (bool, seq<CardAnim>)
  {
    if crumbs == [] then (playable, [])
    else
      var (before, anims) := Trace(cost, playable, crumbs[..|crumbs| - 1]);
      var after := cost <= crumbs[|crumbs| - 1];
      (after, anims + Transition(before, after))
  }

  /** Whatever the crumb counts, the queued animations alternate, the first
      one undoes the starting state, and the last one matches the final
      state: the card's look always follows its playability. */
  lemma {:induction false} TraceAlternates(cost: int, playable: bool, crumbs: seq<int>)
    ensures var (final, anims) := Trace(cost, playable, crumbs);
            && (forall i :: 0 <= i < |anims| - 1 ==> anims[i] != anims[i + 1])
            && (anims != [] ==> anims[0] == (if playable then DisableFade else EnableFade))
            && (anims != [] ==> anims[|anims| - 1] == (if final then EnableFade else DisableFade))
            && (anims == [] ==> final == playable)
            && (crumbs != [] ==> (final <==> cost <= crumbs[|crumbs| - 1]))
  {
    if crumbs != [] {
      TraceAlternates(cost, playable, crumbs[..|crumbs| - 1]);
    }
  }

  class SqueakElement {
    /** The crumb cost of the card's squeak. */
    const crumbCost: int
    /** `can_be_played`. */
    var canBePlayed: bool
    /** The override animations queued on the card's visual, oldest first. */
    var queued: seq<CardAnim>

    /** A new card starts playable with nothing queued. */
    constructor (crumbCost: int)
      ensures this.crumbCost == crumbCost && canBePlayed && queued == []
    {
      this.crumbCost := crumbCost;
      canBePlayed := true;
      queued := [];
    }

    /** `decide_interactivity`: playable exactly when the cost does not exceed
        the crumbs; the enable animation is queued on a change to playable, the
        disable animation on a change to unplayable, nothing otherwise. */
    method DecideInteractivity(currentCrumb: int)
      modifies this`canBePlayed, this`queued
      ensures canBePlayed <==> crumbCost <= currentCrumb
      ensures queued == old(queued) + Transition(old(canBePlayed), canBePlayed)
      ensures queued != old(queued) <==> canBePlayed != old(canBePlayed)
    {
      var higherCost := crumbCost > currentCrumb;
      var wasPlayable := canBePlayed;
      canBePlayed := !higherCost;
      if canBePlayed != wasPlayable {
        if canBePlayed {
          queued := queued + [EnableFade];
        } else {
          queued := queued + [DisableFade];
        }
      }
    }
  }

  /** Deciding again with the same crumbs queues nothing. */
  method DecideTwice(cost: int, crumbs: int) returns (card: SqueakElement, second: seq<CardAnim>)
    ensures card.crumbCost == cost && (card.canBePlayed <==> cost <= crumbs)
    ensures second == []
  {
    card := new SqueakElement(cost);
    card.DecideInteractivity(crumbs);
    var before := card.queued;
    card.DecideInteractivity(crumbs);
    second := card.queued[|before|..];
  }
}
