/** contract_whist/players/data_player.py: a heuristic player that records,
    for every card it plays, the state it saw and the card it chose, as
    training data. Its `get_card_vector` is the same code as the one in
    contract_whist/data/vector.py and is modelled by `Vectors.CardVector`. */
module DataPlayers {
  import opened Wrappers
  import opened Builtins
  import opened Cards
  import opened Tricks
  import opened Hands
  import opened Players
  import opened Heuristic
  import opened Vectors

  /** The length of `DataPlayer.generate_vector`'s result. */
  const DATA_STATE_SIZE: nat := 3 * DECK_SIZE + 3 + 4

  /** `v` is the state vector of a player holding `hand`, having seen
      `seen`, facing `trickCards`, with the given contract, trick count and
      trick fraction, under `trump`. */
  predicate Records(v: seq<Entry>, hand: seq<Card>, seen: seq<Card>, trickCards: seq<Card>,
                    contract: Option<int>, trickCount: int, fraction: real, trump: Trump)
    requires DeckCards(hand) && DeckCards(seen) && DeckCards(trickCards)
  {
    && |v| == DATA_STATE_SIZE
    && v[..52] == Nums(CardSlots(hand, false))
    && v[52..104] == Nums(CardSlots(seen, false))
    && v[104..156] == Nums(CardSlots(trickCards, true))
    && v[156] == ContractEntry(contract) && v[157] == Num(trickCount as real) && v[158] == Num(fraction)
    && v[159..] == Nums(TrumpVector(trump))
  }

  /** A recorded state gives back what was recorded: the hand's, the seen
      cards' and the trick's slots are non-zero exactly at those cards, the
      trick's leading card carries weight 2, the contract entry is `None`
      exactly before a bid and otherwise the bid, and the trump is the suit
      whose slot holds 1. */
  lemma RecordsDecode(v: seq<Entry>, hand: seq<Card>, seen: seq<Card>, trickCards: seq<Card>,
                      contract: Option<int>, trickCount: int, fraction: real, trump: Trump)
    requires DeckCards(hand) && DeckCards(seen) && DeckCards(trickCards)
    requires Records(v, hand, seen, trickCards, contract, trickCount, fraction, trump)
    ensures forall k :: 0 <= k < DECK_SIZE ==> (v[k] != Num(0.0) <==> InSlot(hand, k))
    ensures forall k :: 0 <= k < DECK_SIZE ==> (v[52 + k] != Num(0.0) <==> InSlot(seen, k))
    ensures forall k :: 0 <= k < DECK_SIZE ==> (v[104 + k] != Num(0.0) <==> InSlot(trickCards, k))
    ensures (|trickCards| > 0 && forall i, j :: 0 <= i < j < |trickCards| ==> trickCards[i] != trickCards[j])
            ==> v[104 + CardIndex(trickCards[0])] == Num(2.0)
    ensures v[156].Null? <==> contract.None?
    ensures contract.Some? ==> v[156] == Num(contract.value as real)
    ensures forall k :: 0 <= k < |SUITS| ==> (v[159 + k] == Num(1.0) <==> trump == Some(SUITS[k]))
  {
    CardSlotsDecode(hand, false);
    CardSlotsDecode(seen, false);
    CardSlotsDecode(trickCards, true);
    forall k | 0 <= k < DECK_SIZE
      ensures v[k] == Num(CardSlots(hand, false)[k] as real)
      ensures v[52 + k] == Num(CardSlots(seen, false)[k] as real)
      ensures v[104 + k] == Num(CardSlots(trickCards, true)[k] as real)
    {
      assert v[..52][k] == v[k];
      assert v[52..104][k] == v[52 + k];
      assert v[104..156][k] == v[104 + k];
    }
    if |trickCards| > 0 && forall i, j :: 0 <= i < j < |trickCards| ==> trickCards[i] != trickCards[j] {
      CardSlotsWeights(trickCards, true);
    }
    forall k | 0 <= k < |SUITS|
      ensures v[159 + k] == Num(TrumpVector(trump)[k] as real)
    {
      assert v[159..][k] == v[159 + k];
    }
  }

  class DataPlayer {
    /** The heuristic player whose choices are recorded. */
    const strategy: HeuristicPlayer
    /** One state vector per card played this round. */
    var stateVectors: seq<seq<Entry>>
    /** The registry index of each card played this round. */
    var playIndices: seq<int>

    /** The two lists grow together: the i-th vector is the state in which
        the i-th recorded card was played. */
    ghost predicate Valid()
      reads this
    {
      && |stateVectors| == |playIndices|
      && (forall i :: 0 <= i < |stateVectors| ==> |stateVectors[i]| == DATA_STATE_SIZE)
      && forall i :: 0 <= i < |playIndices| ==> 0 <= playIndices[i] < DECK_SIZE
    }

    /** `DataPlayer(name, trump_multiplier, card_multiplier, card_cutoff)`:
        empty lists, then the heuristic player's state. */
    constructor (name: string, trumpMultiplier: real, cardMultiplier: real, cardCutoff: int)
      ensures Valid() && stateVectors == [] && playIndices == []
      ensures fresh(strategy) && fresh(strategy.base)
      ensures strategy.trumpMultiplier == trumpMultiplier && strategy.cardMultiplier == cardMultiplier
      ensures strategy.cardCutoff == cardCutoff
      ensures strategy.base.name == name && strategy.base.points == 0 && strategy.base.hand == null
      ensures strategy.base.contract == None && strategy.base.trickCount == 0 && strategy.base.cardsSeen == []
    {
      stateVectors := [];
      playIndices := [];
      strategy := new HeuristicPlayer(name, trumpMultiplier, cardMultiplier, cardCutoff);
    }

    /** `generate_vector`: the hand, the cards seen and the trick (ordered)
        as card vectors, then the contract (`None` before a bid), the trick
        count and the trick fraction, then the trump vector. The fraction is read from a hand
        attribute that nothing defines, so it is a parameter here. */
    method GenerateVector(trick: Trick<Player>, fraction: real, trump: Trump) returns (v: seq<Entry>)
      requires strategy.base.hand != null
      requires DeckCards(strategy.base.hand.cards) && DeckCards(strategy.base.cardsSeen) && DeckCards(trick.cards)
      ensures Records(v, strategy.base.hand.cards, strategy.base.cardsSeen, trick.cards,
                      strategy.base.contract, strategy.base.trickCount, fraction, trump)
    {
      var player := strategy.base;
      var hand := CardVector(player.hand.cards, false);
      var seen := CardVector(player.cardsSeen, false);
      var played := CardVector(trick.cards, true);
      v := Nums(hand) + Nums(seen) + Nums(played)
        + [ContractEntry(player.contract), Num(player.trickCount as real), Num(fraction)]
        + Nums(TrumpVector(trump));
    }

    /** `round_reset`: both lists emptied, then the base reset. */
    method RoundReset()
      modifies this`stateVectors, this`playIndices, strategy.base
      ensures Valid() && stateVectors == [] && playIndices == []
      ensures strategy.base.contract == None && strategy.base.trickCount == 0 && strategy.base.cardsSeen == []
      ensures strategy.base.name == old(strategy.base.name) && strategy.base.points == old(strategy.base.points)
      ensures strategy.base.hand == old(strategy.base.hand)
    {
      stateVectors := [];
      playIndices := [];
      strategy.base.RoundReset();
    }

    /** The inherited `update_score`, whose `self.round_reset()` is this
        class's: the lists are emptied too, then the score is added. */
    method UpdateScore(score: int)
      modifies this`stateVectors, this`playIndices, strategy.base
      ensures Valid() && stateVectors == [] && playIndices == []
      ensures strategy.base.contract == None && strategy.base.trickCount == 0 && strategy.base.cardsSeen == []
      ensures strategy.base.points == old(strategy.base.points) + score
      ensures strategy.base.name == old(strategy.base.name) && strategy.base.hand == old(strategy.base.hand)
    {
      RoundReset();
      strategy.base.points := strategy.base.points + score;
    }

    /** `play_card`: the state vector is taken before the heuristic plays,
        and the played card's registry index after, so the two lists stay
        in step. The heuristic does not read the lists, so both are
        appended once the card is chosen. */
    method PlayCard(trick: Trick<Player>, fraction: real, trump: Trump) returns (card: Card)
      requires Valid()
      requires strategy.base.hand != null && |strategy.base.hand.cards| > 0
      requires DeckCards(strategy.base.hand.cards) && DeckCards(strategy.base.cardsSeen) && DeckCards(trick.cards)
      modifies this`stateVectors, this`playIndices, strategy.base.hand
      ensures Valid()
      ensures |stateVectors| == |old(stateVectors)| + 1 && stateVectors[..|old(stateVectors)|] == old(stateVectors)
      ensures Records(stateVectors[|old(stateVectors)|], old(strategy.base.hand.cards), strategy.base.cardsSeen,
                      trick.cards, strategy.base.contract, strategy.base.trickCount, fraction, trump)
      ensures IsDeckCard(card) && playIndices == old(playIndices) + [CardIndex(card)]
      ensures FollowsHeuristic(old(strategy.base.hand.cards), trick.cards, trick.leadSuit,
                               strategy.base.contract == Some(strategy.base.trickCount), trump, card)
      ensures PoppedLegal(old(strategy.base.hand.cards), trick.cards, trick.leadSuit, card, strategy.base.hand.cards)
    {
      var v := GenerateVector(trick, fraction, trump);
      card := PlayAndAppend(trick, trump, v);
    }

    /** The rest of `play_card` once the state vector `v` is taken: the
        heuristic plays, then `v` and the played card's index are appended. */
    method PlayAndAppend(trick: Trick<Player>, trump: Trump, v: seq<Entry>) returns (card: Card)
      requires Valid() && |v| == DATA_STATE_SIZE
      requires strategy.base.hand != null && |strategy.base.hand.cards| > 0 && DeckCards(strategy.base.hand.cards)
      modifies this`stateVectors, this`playIndices, strategy.base.hand
      ensures Valid()
      ensures stateVectors == old(stateVectors) + [v]
      ensures IsDeckCard(card) && playIndices == old(playIndices) + [CardIndex(card)]
      ensures FollowsHeuristic(old(strategy.base.hand.cards), trick.cards, trick.leadSuit,
                               strategy.base.contract == Some(strategy.base.trickCount), trump, card)
      ensures PoppedLegal(old(strategy.base.hand.cards), trick.cards, trick.leadSuit, card, strategy.base.hand.cards)
    {
      ghost var cards := strategy.base.hand.cards;
      card := strategy.PlayCard(trick, trump);
      PoppedDeckCard(cards, trick.cards, trick.leadSuit, card, strategy.base.hand.cards);
      Append(v, CardIndex(card));
    }

    /** The two `append`s of `play_card`: one state vector and one card
        index, so the lists stay the same length. */
    method Append(v: seq<Entry>, index: int)
      requires Valid() && |v| == DATA_STATE_SIZE && 0 <= index < DECK_SIZE
      modifies this`stateVectors, this`playIndices
      ensures Valid()
      ensures stateVectors == old(stateVectors) + [v] && playIndices == old(playIndices) + [index]
    {
      stateVectors := stateVectors + [v];
      playIndices := playIndices + [index];
    }
  }

  /** A card popped from a hand of registered cards is a registered card. */
  lemma PoppedDeckCard(before: seq<Card>, trickCards: seq<Card>, leadSuit: Option<Suit>, card: Card, after: seq<Card>)
    requires DeckCards(before) && PoppedLegal(before, trickCards, leadSuit, card, after)
    ensures IsDeckCard(card)
  {
    var p :| 0 <= p < |before| && Playable(before, trickCards, leadSuit)[p] == 1 &&
      card == before[p] && after == RemoveAt(before, p);
  }
}
