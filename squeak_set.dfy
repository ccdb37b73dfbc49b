/** A player's squeak set (player_info/squeak_set.py): how many copies of each
    squeak card go into the deck and into the opening hand, checked against
    the cards the player owns. A Python dict is modelled by its items in
    insertion order, which is the order the comprehensions visit them. */
module SqueakSets {
  import opened Wrappers

  /** `HAND_LENGTH`: the number of entries the hand map must have. */
  const HandLength := 5

  datatype SqueakType = RodentSqueak | TrickSqueak

  /** A frozen `Squeak` dataclass: equal cards are equal values. */
  datatype Squeak = Squeak(name: string, crumbCost: int, kind: SqueakType, deploymentZoneOnly: bool)

  /** The items of a `dict[Squeak, int]`, in insertion order. */
  type Counts = seq<(Squeak, int)>

  /** A dict holds each key once. */
  predicate IsDict(d: Counts)
  {
    forall i, j :: 0 <= i < j < |d| ==> d[i].0 != d[j].0
  }

  /** `d[k]`, or None when k is not a key. */
  function Lookup(d: Counts, k: Squeak): Option<int>
  {
    if d == [] then None
    else if d[0].0 == k then Some(d[0].1)
    else Lookup(d[1..], k)
  }

  /** A key is found exactly when some item has it, and the value found
      belongs to such an item. */
  lemma {:induction false} LookupMeaning(d: Counts, k: Squeak)
    ensures Lookup(d, k).Some? <==> exists i :: 0 <= i < |d| && d[i].0 == k
    ensures Lookup(d, k).Some? ==> exists i :: 0 <= i < |d| && d[i] == (k, Lookup(d, k).value)
  {
    if d != [] && d[0].0 != k {
      LookupMeaning(d[1..], k);
      if exists i :: 0 <= i < |d| && d[i].0 == k {
        var i :| 0 <= i < |d| && d[i].0 == k;
        assert d[1..][i - 1] == d[i];
      }
      if Lookup(d, k).Some? {
        var i :| 0 <= i < |d[1..]| && d[1..][i] == (k, Lookup(d, k).value);
        assert d[i + 1] == d[1..][i];
      }
    }
  }

  /** In a dict, the entry at index i is what looking up its key gives. */
  lemma {:induction false} LookupAt(d: Counts, i: int)
    requires IsDict(d) && 0 <= i < |d|
    ensures Lookup(d, d[i].0) == Some(d[i].1)
  {
    if i > 0 {
      assert d[0].0 != d[i].0;
      assert d[1..][i - 1] == d[i];
      LookupAt(d[1..], i - 1);
    }
  }

  /** `[q for _ in range(n)]`: n copies of q, none when n is not positive. */
  function Repeat(q: Squeak, n: int): (r: seq<Squeak>)
    ensures |r| == if n > 0 then n else 0
    ensures forall i :: 0 <= i < |r| ==> r[i] == q
  {
    if n <= 0 then [] else [q] + Repeat(q, n - 1)
  }

  function Pos(n: int): nat { if n > 0 then n else 0 }

  /** `[squeak for squeak, count in d.items() for _ in range(count)]`. */
  function Expand(d: Counts): seq<Squeak>
  {
    if d == [] then [] else Repeat(d[0].0, d[0].1) + Expand(d[1..])
  }

  /** The number of cards `Expand` yields: the sum of the positive counts. */
  function CountSum(d: Counts): nat
  {
    if d == [] then 0 else Pos(d[0].1) + CountSum(d[1..])
  }

  /** The players' collection as `_validate_deck` reads it: a dict from card to
      the number owned. */
  datatype SqueakSet = SqueakSet(deck: Counts, hands: Counts, owned: Counts)

  /** The check `_validate_deck` applies to each item of one dict, in order. */
  function CheckItems(items: Counts, owned: Counts): (r: Result<()>)
    ensures r.Err? ==> r.error == InvalidDeck
  {
    if items == [] then Ok(())
    else
      var (q, count) := items[0];
      var have := Lookup(owned, q);
      if have.None? then Err(InvalidDeck)
      else if count > have.value then Err(InvalidDeck)
      else CheckItems(items[1..], owned)
  }

  /** An item is allowed when its card is owned at least `count` times. */
  predicate Allowed(item: (Squeak, int), owned: Counts)
  {
    Lookup(owned, item.0).Some? && item.1 <= Lookup(owned, item.0).value
  }

  lemma {:induction false} CheckItemsMeaning(items: Counts, owned: Counts)
    ensures CheckItems(items, owned).Ok? <==> forall i :: 0 <= i < |items| ==> Allowed(items[i], owned)
  {
    if items != [] {
      CheckItemsMeaning(items[1..], owned);
      if CheckItems(items, owned).Ok? {
        forall i | 0 <= i < |items|
          ensures Allowed(items[i], owned)
        {
          if i > 0 {
            assert items[i] == items[1..][i - 1];
          }
        }
      }
      if forall i :: 0 <= i < |items| ==> Allowed(items[i], owned) {
        assert Allowed(items[0], owned);
        forall i | 0 <= i < |items[1..]|
          ensures Allowed(items[1..][i], owned)
        {
          assert items[1..][i] == items[i + 1];
        }
      }
    }
  }

  /** `_validate_deck`: the hand map must have exactly `HAND_LENGTH` entries;
      then every hand item and every deck item must name an owned card with a
      count no larger than the number owned. Each failure is InvalidDeckError. */
  function Validate(s: SqueakSet): (r: Result<()>)
    ensures r.Err? ==> r.error == InvalidDeck
  {
    if |s.hands| != HandLength then Err(InvalidDeck)
    else if CheckItems(s.hands, s.owned).Err? then CheckItems(s.hands, s.owned)
    else CheckItems(s.deck, s.owned)
  }

  /** A set passes validation exactly when the hand map has five entries and
      every item of both maps is allowed by the owned counts. */
  lemma ValidateMeaning(s: SqueakSet)
    ensures Validate(s).Ok? <==>
              |s.hands| == HandLength
              && (forall i :: 0 <= i < |s.hands| ==> Allowed(s.hands[i], s.owned))
              && (forall i :: 0 <= i < |s.deck| ==> Allowed(s.deck[i], s.owned))
  {
    CheckItemsMeaning(s.hands, s.owned);
    CheckItemsMeaning(s.deck, s.owned);
  }

  /** `get_new_deck`: every deck card repeated by its count, in dict order. */
  function NewDeck(s: SqueakSet): (r: seq<Squeak>)
    ensures |r| == CountSum(s.deck)
  {
    ExpandLength(s.deck);
    Expand(s.deck)
  }

  lemma {:induction false} ExpandLength(d: Counts)
    ensures |Expand(d)| == CountSum(d)
  {
    if d != [] {
      ExpandLength(d[1..]);
    }
  }

  /** In `Expand(d)` of a dict, a card occurs as many times as its positive
      count, and not at all when it is not a key. */
  lemma {:induction false} ExpandCounts(d: Counts, q: Squeak)
    requires IsDict(d)
    ensures multiset(Expand(d))[q] == match Lookup(d, q) case None => 0 case Some(n) => Pos(n)
  {
    if d != [] {
      HeadNotInTail(d);
      ExpandCounts(d[1..], q);
      RepeatCount(d[0].0, d[0].1, q);
    }
  }

  /** The first key of a dict does not occur again in its tail, and the tail
      is a dict. */
  lemma HeadNotInTail(d: Counts)
    requires IsDict(d) && d != []
    ensures Lookup(d[1..], d[0].0).None? && IsDict(d[1..])
  {
    LookupMeaning(d[1..], d[0].0);
    forall i | 0 <= i < |d[1..]|
      ensures d[1..][i].0 != d[0].0
    {
      assert d[1..][i] == d[i + 1];
    }
    forall i, j | 0 <= i < j < |d[1..]|
      ensures d[1..][i].0 != d[1..][j].0
    {
      assert d[1..][i] == d[i + 1] && d[1..][j] == d[j + 1];
    }
  }

  lemma {:induction false} RepeatCount(q: Squeak, n: int, x: Squeak)
    ensures multiset(Repeat(q, n))[x] == if x == q then Pos(n) else 0
  {
    if n > 0 {
      RepeatCount(q, n - 1, x);
      assert Repeat(q, n) == [q] + Repeat(q, n - 1);
    }
  }

  /** Every card of a new deck appears exactly as often as the deck map says. */
  lemma NewDeckCounts(s: SqueakSet, q: Squeak)
    requires IsDict(s.deck)
    ensures multiset(NewDeck(s))[q] == match Lookup(s.deck, q) case None => 0 case Some(n) => Pos(n)
  {
    ExpandCounts(s.deck, q);
  }

  /** The deck part of `get_deck_and_hand`: each deck card `count -
      hands[card]` times; a deck card missing from the hand map raises
      KeyError. */
  function DeckPart(deck: Counts, hands: Counts): (r: Result<seq<Squeak>>)
    ensures r.Err? ==> r.error == KeyError
  {
    if deck == [] then Ok([])
    else
      var (q, count) := deck[0];
      match Lookup(hands, q)
      case None => Err(KeyError)
      case Some(h) =>
        match DeckPart(deck[1..], hands)
        case Err(e) => Err(e)
        case Ok(rest) => Ok(Repeat(q, count - h) + rest)
  }

  /** `get_deck_and_hand`: the remaining deck and the opening hand. */
  function DeckAndHand(s: SqueakSet): (r: Result<(seq<Squeak>, seq<Squeak>)>)
    ensures r.Err? ==> r.error == KeyError
  {
    match DeckPart(s.deck, s.hands)
    case Err(e) => Err(e)
    case Ok(deck) => Ok((deck, Expand(s.hands)))
  }

  /** The deck part fails exactly when some deck card has no hand entry. */
  lemma {:induction false} DeckPartFails(deck: Counts, hands: Counts)
    ensures DeckPart(deck, hands).Err? <==> exists i :: 0 <= i < |deck| && Lookup(hands, deck[i].0).None?
  {
    if deck != [] {
      DeckPartFails(deck[1..], hands);
      if exists i :: 0 <= i < |deck[1..]| && Lookup(hands, deck[1..][i].0).None? {
        var i :| 0 <= i < |deck[1..]| && Lookup(hands, deck[1..][i].0).None?;
        assert deck[i + 1] == deck[1..][i];
      }
      if exists i :: 0 <= i < |deck| && Lookup(hands, deck[i].0).None? {
        var i :| 0 <= i < |deck| && Lookup(hands, deck[i].0).None?;
        if i > 0 {
          assert deck[1..][i - 1] == deck[i];
        }
      }
    }
  }

  /** A key q of the deck map with count n occurs `max(0, n - hands[q])`
      times in the deck part. */
  lemma {:induction false} DeckPartHits(deck: Counts, hands: Counts, q: Squeak, n: int)
    requires IsDict(deck) && DeckPart(deck, hands).Ok? && Lookup(deck, q) == Some(n)
    ensures Lookup(hands, q).Some? && multiset(DeckPart(deck, hands).value)[q] == Pos(n - Lookup(hands, q).value)
  {
    var tail := deck[1..];
    HeadNotInTail(deck);
    DeckPartCountStep(deck, hands, q);
    LookupStep(deck, q);
    if deck[0].0 == q {
      DeckPartMisses(tail, hands, q);
    } else {
      DeckPartHits(tail, hands, q, n);
    }
  }

  /** A card that is not a key of the deck map does not occur in the deck part. */
  lemma {:induction false} DeckPartMisses(deck: Counts, hands: Counts, q: Squeak)
    requires Lookup(deck, q).None? && DeckPart(deck, hands).Ok?
    ensures multiset(DeckPart(deck, hands).value)[q] == 0
  {
    if deck != [] {
      DeckPartCountStep(deck, hands, q);
      LookupStep(deck, q);
      DeckPartMisses(deck[1..], hands, q);
    }
  }

  /** A lookup reads the first item or looks further on. */
  lemma LookupStep(d: Counts, q: Squeak)
    requires d != []
    ensures Lookup(d, q) == if d[0].0 == q then Some(d[0].1) else Lookup(d[1..], q)
  {
  }

  /** How often q occurs in the deck part: the first card's copies plus the
      occurrences in the rest. */
  lemma DeckPartCountStep(deck: Counts, hands: Counts, q: Squeak)
    requires deck != [] && DeckPart(deck, hands).Ok?
    ensures Lookup(hands, deck[0].0).Some? && DeckPart(deck[1..], hands).Ok?
    ensures multiset(DeckPart(deck, hands).value)[q]
            == (if deck[0].0 == q then Pos(deck[0].1 - Lookup(hands, q).value) else 0)
               + multiset(DeckPart(deck[1..], hands).value)[q]
  {
    DeckPartStep(deck, hands);
    var h := Lookup(hands, deck[0].0).value;
    var copies := Repeat(deck[0].0, deck[0].1 - h);
    var rest := DeckPart(deck[1..], hands).value;
    CountConcat(copies, rest, q);
    RepeatCount(deck[0].0, deck[0].1 - h, q);
  }

  lemma CountConcat(a: seq<Squeak>, b: seq<Squeak>, x: Squeak)
    ensures multiset(a + b)[x] == multiset(a)[x] + multiset(b)[x]
  {
  }

  /** One step of the deck part: the first deck card's copies, then the rest. */
  lemma DeckPartStep(deck: Counts, hands: Counts)
    requires deck != [] && DeckPart(deck, hands).Ok?
    ensures Lookup(hands, deck[0].0).Some? && DeckPart(deck[1..], hands).Ok?
    ensures DeckPart(deck, hands).value
            == Repeat(deck[0].0, deck[0].1 - Lookup(hands, deck[0].0).value) + DeckPart(deck[1..], hands).value
  {
  }

  /** The hand of `get_deck_and_hand` holds `hands[q]` copies of each card
      (none for a count that is not positive). */
  lemma OpeningHandCounts(s: SqueakSet, q: Squeak)
    requires IsDict(s.hands) && DeckAndHand(s).Ok?
    ensures multiset(DeckAndHand(s).value.1)[q] == match Lookup(s.hands, q) case None => 0 case Some(n) => Pos(n)
  {
    ExpandCounts(s.hands, q);
  }

  /** The deck of `get_deck_and_hand` holds `max(0, deck[q] - hands[q])`
      copies of each card of the deck map and no other card. */
  lemma RemainingDeckCounts(s: SqueakSet, q: Squeak)
    requires IsDict(s.deck) && DeckAndHand(s).Ok?
    ensures match Lookup(s.deck, q)
            case None => multiset(DeckAndHand(s).value.0)[q] == 0
            case Some(n) => Lookup(s.hands, q).Some?
                            && multiset(DeckAndHand(s).value.0)[q] == Pos(n - Lookup(s.hands, q).value)
  {
    var part := DeckPart(s.deck, s.hands);
    assert part.Ok? && DeckAndHand(s).value.0 == part.value;
    match Lookup(s.deck, q)
    case None => DeckPartMisses(s.deck, s.hands, q);
    case Some(n) => DeckPartHits(s.deck, s.hands, q, n);
  }
}
