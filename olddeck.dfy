/** contract_whist/deck.py, the older copy of the card model that game.py
    and hand.py import. Its `Card.__lt__`, `__gt__` and `set_trump` are the
    same code as in cards.py and are modelled once, in module Cards. What
    differs is the numbering of `Values` and the deal's size bound. */
module OldDeck {
  import opened Wrappers
  import opened Cards

  /** `Values` here is an IntEnum without `start`, so two = 1, ..., ace = 13. */
  const OLD_LOWEST_VALUE: int := 1

  /** The value the older numbering gives an ace. */
  lemma OldAceIsThirteen()
    ensures FullDeck(OLD_LOWEST_VALUE)[12] == Card(Club, 13)
    ensures forall k :: 0 <= k < DECK_SIZE ==> 1 <= FullDeck(OLD_LOWEST_VALUE)[k].value <= 13
  {
    FullDeckPositions(OLD_LOWEST_VALUE);
  }

  /** deck.py's guard: unlike cards.py the bound is strict. */
  predicate CanDealStrict(numCards: int, numPlayers: int, deckSize: int)
  {
    numCards > 0 && numPlayers > 0 && numCards * numPlayers < deckSize
  }

  /** The strict bound refuses a full deal, 13 cards to each of 4 players,
      which the inclusive bound of cards.py allows. */
  lemma StrictBoundRefusesFullDeal()
    ensures !CanDealStrict(13, 4, DECK_SIZE) && CanDeal(13, 4, DECK_SIZE)
    ensures forall m, n :: CanDealStrict(m, n, DECK_SIZE) ==> CanDeal(m, n, DECK_SIZE)
  {
  }

  /** deck.py's `Deck`: 52 freshly built cards (no index registry). */
  class Deck {
    var cards: seq<Card>

    ghost predicate Valid()
      reads this
    {
      multiset(cards) == multiset(FullDeck(OLD_LOWEST_VALUE))
    }

    /** `Deck()`: the suit-major comprehension over the older `Values`. */
    constructor ()
      ensures Valid() && cards == FullDeck(OLD_LOWEST_VALUE)
    {
      cards := FullDeck(OLD_LOWEST_VALUE);
    }

    /** `shuffle_and_deal` with the strict bound `total_cards < len(cards)`. */
    method ShuffleAndDeal(numCards: int, numPlayers: int) returns (hands: Option<seq<seq<Card>>>)
      requires Valid()
      modifies this
      ensures Valid()
      ensures hands.Some? <==> CanDealStrict(numCards, numPlayers, DECK_SIZE)
      ensures hands.None? ==> cards == old(cards)
      ensures hands.Some? ==>
        multiset(cards) == multiset(old(cards)) &&
        CanDeal(numCards, numPlayers, |cards|) &&
        hands.value == Deal(cards, numCards, numPlayers)
    {
      assert |multiset(cards)| == |cards|;
      if numCards > 0 && numPlayers > 0 && numCards * numPlayers < |cards| {
        var shuffled :| multiset(shuffled) == multiset(cards);
        cards := shuffled;
        assert |multiset(cards)| == |cards|;
        hands := Some(Deal(cards, numCards, numPlayers));
      } else {
        hands := None;
      }
    }
  }
}
