/** contract_whist/data/vector.py: the encoders that turn a player's view
    of the game into a fixed-length list of numbers. Card slots are the
    cards' registry indices, which after the first `Deck()` are `CardIndex`. */
module Vectors {
  import opened Wrappers
  import opened Cards
  import opened Players
  import opened Tricks

  /** Every card of the list is one of the 52 registered cards. */
  predicate DeckCards(cards: seq<Card>)
  {
    forall i :: 0 <= i < |cards| ==> IsDeckCard(cards[i])
  }

  /** The list holds a card whose slot is `k`. */
  predicate InSlot(cards: seq<Card>, k: int)
    requires DeckCards(cards)
  {
    exists i :: 0 <= i < |cards| && CardIndex(cards[i]) == k
  }

  /** The value `get_card_vector` leaves in slot `k`: 0 when no listed card
      has that slot; 2 when `ordered` and the first card is the only one
      there (later writes to the slot overwrite the 2 with a 1); else 1. */
  function SlotValue(cards: seq<Card>, ordered: bool, k: int): int
    requires DeckCards(cards)
  {
    if !InSlot(cards, k) then 0
    else if ordered && CardIndex(cards[0]) == k && !InSlot(cards[1..], k) then 2
    else 1
  }

  /** The whole vector `get_card_vector` returns. */
  function CardSlots(cards: seq<Card>, ordered: bool): (v: seq<int>)
    requires DeckCards(cards)
    ensures |v| == DECK_SIZE
  {
    seq(DECK_SIZE, k => SlotValue(cards, ordered, k))
  }

  /** `get_card_vector`: a list of 52 zeros, then for each card in turn its
      slot is set to 2 (the first card, when `ordered`) or 1. */
  method CardVector(cards: seq<Card>, ordered: bool) returns (v: seq<int>)
    requires DeckCards(cards)
    ensures v == CardSlots(cards, ordered)
  {
    var vector := new int[DECK_SIZE](_ => 0);
    var i := 0;
    while i < |cards|
      invariant 0 <= i <= |cards|
      invariant forall k :: 0 <= k < DECK_SIZE ==> vector[k] == SlotValue(cards[..i], ordered, k)
    {
      var card := cards[i];
      var index := CardIndex(card);
      ghost var before := vector[..];
      vector[index] := if ordered && i == 0 then 2 else 1;
      SlotStep(cards, ordered, i);
      assert forall k :: 0 <= k < DECK_SIZE && k != index ==> vector[k] == before[k];
      i := i + 1;
    }
    assert cards[..i] == cards;
    v := vector[..];
  }

  /** How one more card changes the slot values: its own slot becomes 2 or
      1 as written, every other slot keeps its value. */
  lemma SlotStep(cards: seq<Card>, ordered: bool, i: nat)
    requires DeckCards(cards) && i < |cards|
    ensures DeckCards(cards[..i]) && DeckCards(cards[..i + 1])
    ensures SlotValue(cards[..i + 1], ordered, CardIndex(cards[i])) == if ordered && i == 0 then 2 else 1
    ensures forall k :: k != CardIndex(cards[i]) ==>
      SlotValue(cards[..i + 1], ordered, k) == SlotValue(cards[..i], ordered, k)
  {
    var pre := cards[..i];
    var post := cards[..i + 1];
    var index := CardIndex(cards[i]);
    assert post == pre + [cards[i]];
    assert post[i] == cards[i];
    if i > 0 {
      assert post[1..][i - 1] == cards[i];
      assert InSlot(post[1..], index);
    }
    forall k | k != index
      ensures SlotValue(post, ordered, k) == SlotValue(pre, ordered, k)
    {
      assert InSlot(post, k) == InSlot(pre, k) by {
        if InSlot(post, k) {
          var j :| 0 <= j < |post| && CardIndex(post[j]) == k;
          assert j < i && pre[j] == post[j];
        }
        if InSlot(pre, k) {
          var j :| 0 <= j < |pre| && CardIndex(pre[j]) == k;
          assert post[j] == pre[j];
        }
      }
      if i > 0 {
        assert post[0] == pre[0];
        assert InSlot(post[1..], k) == InSlot(pre[1..], k) by {
          if InSlot(post[1..], k) {
            var j :| 0 <= j < |post[1..]| && CardIndex(post[1..][j]) == k;
            assert j < i - 1 && pre[1..][j] == post[1..][j];
          }
          if InSlot(pre[1..], k) {
            var j :| 0 <= j < |pre[1..]| && CardIndex(pre[1..][j]) == k;
            assert post[1..][j] == pre[1..][j];
          }
        }
      }
    }
  }

  /** A slot is non-zero exactly when a listed card has that index, so the
      encoded cards can be read back from the vector. */
  lemma CardSlotsDecode(cards: seq<Card>, ordered: bool)
    requires DeckCards(cards)
    ensures forall k :: 0 <= k < DECK_SIZE ==> (CardSlots(cards, ordered)[k] != 0 <==> InSlot(cards, k))
    ensures Decoded(CardSlots(cards, ordered)) == (set i | 0 <= i < |cards| :: cards[i])
  {
    DecodedListed(cards, ordered);
    ListedDecoded(cards, ordered);
  }

  /** The cards whose slots are non-zero in a 52-slot vector. */
  function Decoded(v: seq<int>): set<Card>
    requires |v| == DECK_SIZE
  {
    set k | 0 <= k < DECK_SIZE && v[k] != 0 :: FullDeck(LOWEST_VALUE)[k]
  }

  lemma DecodedListed(cards: seq<Card>, ordered: bool)
    requires DeckCards(cards)
    ensures forall c :: c in Decoded(CardSlots(cards, ordered)) ==> c in cards
  {
    CardIndexRoundTrip();
    var v := CardSlots(cards, ordered);
    forall c | c in Decoded(v)
      ensures c in cards
    {
      var k :| 0 <= k < DECK_SIZE && v[k] != 0 && FullDeck(LOWEST_VALUE)[k] == c;
      var i :| 0 <= i < |cards| && CardIndex(cards[i]) == k;
      assert FullDeck(LOWEST_VALUE)[CardIndex(cards[i])] == cards[i];
    }
  }

  lemma ListedDecoded(cards: seq<Card>, ordered: bool)
    requires DeckCards(cards)
    ensures forall i :: 0 <= i < |cards| ==> cards[i] in Decoded(CardSlots(cards, ordered))
  {
    CardIndexRoundTrip();
    var v := CardSlots(cards, ordered);
    forall i | 0 <= i < |cards|
      ensures cards[i] in Decoded(v)
    {
      var k := CardIndex(cards[i]);
      assert InSlot(cards, k);
      assert v[k] != 0;
    }
  }

  /** For a list without repeated cards, as every trick and hand is: the
      first card's slot holds 2 when `ordered` and 1 otherwise, and every
      other listed card's slot holds 1. */
  lemma CardSlotsWeights(cards: seq<Card>, ordered: bool)
    requires DeckCards(cards) && |cards| > 0
    requires forall i, j :: 0 <= i < j < |cards| ==> cards[i] != cards[j]
    ensures CardSlots(cards, ordered)[CardIndex(cards[0])] == if ordered then 2 else 1
    ensures forall i :: 0 < i < |cards| ==> CardSlots(cards, ordered)[CardIndex(cards[i])] == 1
  {
    CardIndexRoundTrip();
    var first := CardIndex(cards[0]);
    assert InSlot(cards, first);
    forall j | 0 <= j < |cards[1..]|
      ensures CardIndex(cards[1..][j]) != first
    {
      assert cards[1..][j] == cards[j + 1] && cards[j + 1] != cards[0];
    }
    assert !InSlot(cards[1..], first);
    forall i | 0 < i < |cards|
      ensures CardSlots(cards, ordered)[CardIndex(cards[i])] == 1
    {
      assert InSlot(cards, CardIndex(cards[i]));
      assert cards[i] != cards[0];
    }
  }

  /** `get_trump_vector`: a 1 at the trump's position in `SUITS`, all zeros
      when there is no trump. */
  function TrumpVector(trump: Trump): (v: seq<int>)
    ensures |v| == |SUITS|
    ensures forall k :: 0 <= k < |SUITS| ==> (v[k] == 1 <==> trump == Some(SUITS[k])) && (v[k] == 0 || v[k] == 1)
  {
    seq(|SUITS|, k requires 0 <= k < |SUITS| => if trump == Some(SUITS[k]) then 1 else 0)
  }

  /** Reads a trump back from its one-hot encoding: the suit at the first
      1, or no trump when there is none. */
  function TrumpOf(v: seq<int>): Trump
    requires |v| == |SUITS|
  {
    if v[0] == 1 then Some(Club)
    else if v[1] == 1 then Some(Diamond)
    else if v[2] == 1 then Some(Heart)
    else if v[3] == 1 then Some(Spade)
    else None
  }

  /** The trump encoding loses nothing. */
  lemma TrumpVectorRoundTrip(trump: Trump)
    ensures TrumpOf(TrumpVector(trump)) == trump
  {
    if trump.Some? {
      var k := SuitIndex(trump.value);
      assert TrumpVector(trump)[k] == 1;
    }
  }

  /** An entry of a state vector: a number, or Python's `None`, which is
      what a player's `contract` holds until a bid is recorded. */
  datatype Entry = Num(x: real) | Null

  /** An integer list as the numeric entries of a state vector. */
  function Nums(s: seq<int>): (r: seq<Entry>)
    ensures |r| == |s| && forall i :: 0 <= i < |s| ==> r[i] == Num(s[i] as real)
  {
    seq(|s|, i requires 0 <= i < |s| => Num(s[i] as real))
  }

  /** The entry `self.contract` gives: `None` before a bid, else the bid. */
  function ContractEntry(contract: Option<int>): (e: Entry)
    ensures e.Null? <==> contract.None?
    ensures contract.Some? ==> e == Num(contract.value as real)
  {
    if contract.Some? then Num(contract.value as real) else Null
  }

  /** The length of `GameStateVector.generate_vector`'s result. */
  const GAME_STATE_SIZE: nat := 3 * DECK_SIZE + 4 + 4

  /** `GameStateVector.generate_vector`: the hand, the cards seen and the
      trick (ordered) as card vectors, then the contract (`None` before a
      bid), the trick count, the trick proportion and the trick total, then
      the trump vector. The proportion and total are read from hand
      attributes that nothing defines, so they are parameters here. */
  method GameStateVector(player: Player, trick: Trick<Player>, proportion: real, total: real, trump: Trump)
    returns (v: seq<Entry>)
    requires player.hand != null
    requires DeckCards(player.hand.cards) && DeckCards(player.cardsSeen) && DeckCards(trick.cards)
    ensures |v| == GAME_STATE_SIZE
    ensures v[..52] == Nums(CardSlots(player.hand.cards, false))
    ensures v[52..104] == Nums(CardSlots(player.cardsSeen, false))
    ensures v[104..156] == Nums(CardSlots(trick.cards, true))
    ensures v[156] == ContractEntry(player.contract) && v[157] == Num(player.trickCount as real)
    ensures v[158] == Num(proportion) && v[159] == Num(total)
    ensures v[160..] == Nums(TrumpVector(trump))
  {
    var hand := CardVector(player.hand.cards, false);
    var seen := CardVector(player.cardsSeen, false);
    var played := CardVector(trick.cards, true);
    v := Nums(hand) + Nums(seen) + Nums(played)
      + [ContractEntry(player.contract), Num(player.trickCount as real)]
      + [Num(proportion), Num(total)]
      + Nums(TrumpVector(trump));
  }
}
