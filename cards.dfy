/** The card model of contract_whist/cards.py: suits, values, the
    trump-aware comparison, the card-index registry, and the 52-card deck
    with its round-robin deal. The comparison and the deal are shared with
    the older copy in contract_whist/deck.py (module OldDeck). */
module Cards {
  import opened Wrappers
  import opened Builtins

  datatype Suit = Club | Diamond | Heart | Spade

  /** The round's trump suit, or `None` for a no-trump round. In the source
      this is the class field `Card.TRUMP`; here it is passed explicitly. */
  type Trump = Option<Suit>

  /** `SUITS`, in the order the deck and the encoders use. */
  const SUITS: seq<Suit> := [Club, Diamond, Heart, Spade]

  /** Position of a suit in `SUITS`. */
  function SuitIndex(s: Suit): (i: nat)
    ensures i < |SUITS| && SUITS[i] == s
  {
    match s
    case Club => 0
    case Diamond => 1
    case Heart => 2
    case Spade => 3
  }

  /** A card: a suit and the integer value of its `Values` member. */
  datatype Card = Card(suit: Suit, value: int)

  /** Number of values per suit and the size of the deck. */
  const VALUES_PER_SUIT: nat := 13
  const DECK_SIZE: nat := 52

  /** `Values` in cards.py is an IntEnum started at 2: two = 2, ..., ace = 14. */
  const LOWEST_VALUE: int := 2

  /** `Card.__lt__`: does `a` lose to `b` when `b` is played against it?
      The comparison is not a total order: two cards of different suits,
      neither of them trump, never beat each other. */
  predicate Less(a: Card, b: Card, trump: Trump)
  {
    if b.suit != a.suit && trump == Some(a.suit) then false
    else if b.suit != a.suit && trump == Some(b.suit) then true
    else if b.suit != a.suit then false
    else a.value < b.value
  }

  /** `Card.__gt__`, defined in the source as the negation of `__lt__`. */
  predicate Greater(a: Card, b: Card, trump: Trump)
  {
    !Less(a, b, trump)
  }

  /** Within one suit the comparison is the value order, whatever the trump. */
  lemma LessSameSuit(a: Card, b: Card, trump: Trump)
    requires a.suit == b.suit
    ensures Less(a, b, trump) <==> a.value < b.value
  {
  }

  /** A trump beats every card of another suit and never loses to one. */
  lemma TrumpBeatsOtherSuits(a: Card, b: Card, trump: Trump)
    requires trump == Some(a.suit) && b.suit != a.suit
    ensures Less(b, a, trump) && !Less(a, b, trump)
  {
  }

  /** Two cards of different suits, neither of them trump, are unrelated. */
  lemma UnrelatedSuits(a: Card, b: Card, trump: Trump)
    requires a.suit != b.suit && trump != Some(a.suit) && trump != Some(b.suit)
    ensures !Less(a, b, trump) && !Less(b, a, trump)
  {
  }

  /** `<` is irreflexive and asymmetric, so `>` is reflexive: `a > a` holds. */
  lemma LessStrict(a: Card, b: Card, trump: Trump)
    ensures !Less(a, a, trump) && Greater(a, a, trump)
    ensures Less(a, b, trump) ==> !Less(b, a, trump)
  {
  }

  /** Only a same-suit higher card or a trump on a non-trump beats a card. */
  lemma LessCases(a: Card, b: Card, trump: Trump)
    ensures Less(a, b, trump) <==>
      (a.suit == b.suit && a.value < b.value) ||
      (a.suit != b.suit && trump == Some(b.suit))
  {
  }

  // ---------------------------------------------------------------- trump

  /** The argument handed to `set_trump`: a string, or Python's `None`. */
  datatype TrumpArg = Name(name: string) | NoneArg

  /** The spelling of a suit in `SUITS`. */
  function SuitName(s: Suit): string
  {
    match s
    case Club => "club"
    case Diamond => "diamond"
    case Heart => "heart"
    case Spade => "spade"
  }

  /** The membership test `suit in SUITS + (None,)`: `Some(t)` when the
      argument is accepted and would set the trump to `t`, `None` when
      `set_trump` raises `ValueError`. */
  function ParseTrump(arg: TrumpArg): Option<Trump>
  {
    match arg
    case NoneArg => Some(None)
    case Name(n) =>
      if n == "club" then Some(Some(Club))
      else if n == "diamond" then Some(Some(Diamond))
      else if n == "heart" then Some(Some(Heart))
      else if n == "spade" then Some(Some(Spade))
      else None
  }

  /** The accepted arguments are exactly the four suit names and `None`,
      and each is read back as the suit it names. */
  lemma ParseTrumpExactly(arg: TrumpArg)
    ensures ParseTrump(arg).Some? <==>
      arg == NoneArg || exists s: Suit :: arg == Name(SuitName(s))
    ensures forall s: Suit :: ParseTrump(Name(SuitName(s))) == Some(Some(s))
    ensures ParseTrump(NoneArg) == Some(None)
  {
    if ParseTrump(arg).Some? && arg != NoneArg {
      var t := ParseTrump(arg).value;
      assert t.Some?;
      assert arg == Name(SuitName(t.value));
    }
  }

  /** The class-level trump field `Card.TRUMP` with its setter. */
  class TrumpState {
    var trump: Trump

    constructor ()
      ensures trump == None
    {
      trump := None;
    }

    /** `Card.set_trump`: accepts the four suits and `None`; anything else
        raises `ValueError` (here `ok == false`) and leaves the field alone. */
    method SetTrump(arg: TrumpArg) returns (ok: bool)
      modifies this
      ensures ok <==> ParseTrump(arg).Some?
      ensures ok ==> trump == ParseTrump(arg).value
      ensures !ok ==> trump == old(trump)
    {
      var parsed := ParseTrump(arg);
      if parsed.Some? {
        trump := parsed.value;
        ok := true;
      } else {
        ok := false;
      }
    }
  }

  // ------------------------------------------------------------- registry

  /** The registry key `(suit, value)`. */
  type Key = (Suit, int)

  function KeyOf(c: Card): Key
  {
    (c.suit, c.value)
  }

  /** `Card._instances` with `Card._index_counter`: every card built by
      `Card(suit, value)` is a singleton, and the first construction of a
      pair hands out the next index of the counter. `order` is the dict's
      insertion order. */
  class Registry {
    var instances: map<Key, nat>
    var counter: nat
    ghost var order: seq<Key>

    /** The indices are dense: exactly 0 .. counter - 1, one per key,
        in first-construction order. */
    ghost predicate Valid()
      reads this
    {
      && |order| == counter
      && instances.Keys == (set i | 0 <= i < |order| :: order[i])
      && forall i :: 0 <= i < |order| ==> instances[order[i]] == i
    }

    constructor ()
      ensures Valid() && instances == map[] && counter == 0 && order == []
    {
      instances := map[];
      counter := 0;
      order := [];
    }

    /** `Card.__new__(suit, value)`: the index of the pair's singleton,
        registering it with the next index when it is new. */
    method Instance(suit: Suit, value: int) returns (index: nat)
      requires Valid()
      modifies this
      ensures Valid()
      ensures (suit, value) in old(instances) ==>
        index == old(instances)[(suit, value)] &&
        instances == old(instances) && counter == old(counter) && order == old(order)
      ensures (suit, value) !in old(instances) ==>
        index == old(counter) && counter == old(counter) + 1 &&
        instances == old(instances)[(suit, value) := index] &&
        order == old(order) + [(suit, value)]
      ensures index < counter && instances[(suit, value)] == index
    {
      var key := (suit, value);
      if key in instances {
        index := instances[key];
        ghost var i :| 0 <= i < |order| && order[i] == key;
        assert index == i;
      } else {
        index := counter;
        ghost var oldOrder := order;
        instances := instances[key := index];
        order := order + [key];
        counter := counter + 1;
        assert order[index] == key;
        ghost var now := set i | 0 <= i < |order| :: order[i];
        ghost var before := set i | 0 <= i < |oldOrder| :: oldOrder[i];
        assert now == before + {key} by {
          forall x | x in now
            ensures x in before + {key}
          {
            var i :| 0 <= i < |order| && order[i] == x;
            if i < |oldOrder| {
              assert oldOrder[i] == x;
            }
          }
          forall x | x in before + {key}
            ensures x in now
          {
            if x == key {
              assert order[index] == x;
            } else {
              var i :| 0 <= i < |oldOrder| && oldOrder[i] == x;
              assert order[i] == x;
            }
          }
        }
        forall i | 0 <= i < |order|
          ensures instances[order[i]] == i
        {
          if i < index {
            assert order[i] != key;
          }
        }
      }
    }
  }

  // ----------------------------------------------------------------- deck

  /** The deck comprehension `[Card(suit, value) for suit in SUITS for value
      in Values]` when `Values` starts at `low`: suit-major, values ascending. */
  function FullDeck(low: int): (d: seq<Card>)
    ensures |d| == DECK_SIZE
  {
    seq(DECK_SIZE, k requires 0 <= k < DECK_SIZE => Card(SUITS[k / 13], low + k % 13))
  }

  /** Rank of a card in suit-major order: its position in `FullDeck(low)`. */
  function DeckPosition(c: Card, low: int): int
  {
    13 * SuitIndex(c.suit) + (c.value - low)
  }

  /** The values `low .. low + 12` of one suit. */
  predicate InDeckRange(c: Card, low: int)
  {
    low <= c.value < low + 13
  }

  /** The deck holds every (suit, value) pair with a value in range, each
      at its suit-major position, and nothing else. */
  lemma {:induction false} FullDeckPositions(low: int)
    ensures forall k :: 0 <= k < DECK_SIZE ==>
      InDeckRange(FullDeck(low)[k], low) && DeckPosition(FullDeck(low)[k], low) == k
    ensures forall c :: InDeckRange(c, low) ==>
      0 <= DeckPosition(c, low) < DECK_SIZE && FullDeck(low)[DeckPosition(c, low)] == c
  {
    var d := FullDeck(low);
    forall k | 0 <= k < DECK_SIZE
      ensures InDeckRange(d[k], low) && DeckPosition(d[k], low) == k
    {
      assert SuitIndex(SUITS[k / 13]) == k / 13;
    }
    forall c | InDeckRange(c, low)
      ensures 0 <= DeckPosition(c, low) < DECK_SIZE && d[DeckPosition(c, low)] == c
    {
      var p := DeckPosition(c, low);
      assert p / 13 == SuitIndex(c.suit) && p % 13 == c.value - low;
    }
  }

  /** Membership in the deck is exactly the value range. */
  lemma FullDeckMembers(low: int, c: Card)
    ensures c in FullDeck(low) <==> InDeckRange(c, low)
  {
    FullDeckPositions(low);
    if c in FullDeck(low) {
      var k :| 0 <= k < DECK_SIZE && FullDeck(low)[k] == c;
    }
  }

  /** Positions strictly increase along the deck, so it is in suit-major
      order and holds 52 distinct cards. */
  lemma FullDeckOrdered(low: int)
    ensures forall i, j :: 0 <= i < j < DECK_SIZE ==>
      DeckPosition(FullDeck(low)[i], low) < DeckPosition(FullDeck(low)[j], low)
    ensures forall i, j :: 0 <= i < j < DECK_SIZE ==>
      SuitIndex(FullDeck(low)[i].suit) <= SuitIndex(FullDeck(low)[j].suit)
    ensures Distinct(FullDeck(low))
  {
    FullDeckPositions(low);
  }

  /** A card of cards.py: one of the 52 values the first `Deck()` registers. */
  predicate IsDeckCard(c: Card)
  {
    InDeckRange(c, LOWEST_VALUE)
  }

  /** `card.index` once the first `Deck()` has registered the cards:
      13 * suit position + (value - 2). */
  function CardIndex(c: Card): (i: nat)
    requires IsDeckCard(c)
    ensures i < DECK_SIZE
  {
    13 * SuitIndex(c.suit) + (c.value - LOWEST_VALUE)
  }

  /** `CardIndex` and the deck are inverse: the index of the deck's k-th card
      is k, and the card at a card's index is that card. */
  lemma CardIndexRoundTrip()
    ensures forall k :: 0 <= k < DECK_SIZE ==>
      IsDeckCard(FullDeck(LOWEST_VALUE)[k]) && CardIndex(FullDeck(LOWEST_VALUE)[k]) == k
    ensures forall c :: IsDeckCard(c) ==> FullDeck(LOWEST_VALUE)[CardIndex(c)] == c
    ensures forall c, d :: IsDeckCard(c) && IsDeckCard(d) && c != d ==> CardIndex(c) != CardIndex(d)
  {
    FullDeckPositions(LOWEST_VALUE);
  }

  /** `shuffle_and_deal`'s guard in cards.py (inclusive bound). */
  predicate CanDeal(numCards: int, numPlayers: int, deckSize: int)
  {
    numCards > 0 && numPlayers > 0 && numCards * numPlayers <= deckSize
  }

  /** The round-robin comprehension
      `[[cards[i] for i in range(j, total, n)] for j in range(n)]`. */
  function Deal(shuffled: seq<Card>, numCards: int, numPlayers: int): (hands: seq<seq<Card>>)
    requires CanDeal(numCards, numPlayers, |shuffled|)
    ensures |hands| == numPlayers
  {
    var total := numCards * numPlayers;
    seq(numPlayers, j requires 0 <= j < numPlayers => Pick(shuffled, Range(j, total, numPlayers)))
  }

  lemma MulMonotone(a: int, b: int, n: int)
    requires a <= b && n > 0
    ensures a * n <= b * n
  {
  }

  /** The range `range(j, m * n, n)` holds j, j + n, ..., j + (m - 1) * n. */
  lemma RoundRobinRange(j: int, m: int, n: int)
    requires 0 <= j < n && m > 0
    ensures |Range(j, m * n, n)| == m
    ensures forall k :: 0 <= k < m ==> Range(j, m * n, n)[k] == j + k * n
  {
    assert j + (m - 1) * n < m * n by {
      assert (m - 1) * n == m * n - n;
    }
    RangeSteps(j, m * n, n, m);
  }

  /** Hand `j` of a deal is the cards at positions j, j + n, j + 2n, ... */
  lemma DealHand(shuffled: seq<Card>, numCards: int, numPlayers: int, j: int)
    requires CanDeal(numCards, numPlayers, |shuffled|) && 0 <= j < numPlayers
    ensures |Deal(shuffled, numCards, numPlayers)[j]| == numCards
    ensures forall k :: 0 <= k < numCards ==>
      0 <= j + k * numPlayers < numCards * numPlayers &&
      Deal(shuffled, numCards, numPlayers)[j][k] == shuffled[j + k * numPlayers]
  {
    RoundRobinRange(j, numCards, numPlayers);
    var rg := Range(j, numCards * numPlayers, numPlayers);
    var hand := Deal(shuffled, numCards, numPlayers)[j];
    assert hand == Pick(shuffled, rg);
    forall k | 0 <= k < numCards
      ensures 0 <= j + k * numPlayers < numCards * numPlayers
      ensures hand[k] == shuffled[j + k * numPlayers]
    {
      SlotBound(j, k, numCards, numPlayers);
      assert rg[k] == j + k * numPlayers;
    }
  }

  /** Slot k of hand j lies inside the first m * n cards. */
  lemma SlotBound(j: int, k: int, m: int, n: int)
    requires 0 <= j < n && 0 <= k < m
    ensures 0 <= j + k * n < m * n
  {
    MulMonotone(0, k, n);
    MulMonotone(k + 1, m, n);
    assert (k + 1) * n == k * n + n;
  }

  lemma DealAt(shuffled: seq<Card>, numCards: int, numPlayers: int, j: int, k: int)
    requires CanDeal(numCards, numPlayers, |shuffled|)
    requires 0 <= j < numPlayers && 0 <= k < numCards
    ensures |Deal(shuffled, numCards, numPlayers)[j]| == numCards
    ensures 0 <= j + k * numPlayers < numCards * numPlayers
    ensures Deal(shuffled, numCards, numPlayers)[j][k] == shuffled[j + k * numPlayers]
  {
    DealHand(shuffled, numCards, numPlayers, j);
  }

  /** A position below m * n is j + k * n for exactly one hand j and slot k. */
  lemma RoundRobinSplit(i: int, m: int, n: int)
    requires 0 <= i < m * n && n > 0
    ensures 0 <= i % n < n && 0 <= i / n < m && i == i % n + (i / n) * n
  {
    if i / n >= m {
      MulMonotone(m, i / n, n);
    }
  }

  lemma RoundRobinUnique(j1: int, k1: int, j2: int, k2: int, n: int)
    requires 0 <= j1 < n && 0 <= j2 < n && k1 >= 0 && k2 >= 0
    requires j1 + k1 * n == j2 + k2 * n
    ensures j1 == j2 && k1 == k2
  {
    if k1 > k2 {
      MulMonotone(k2 + 1, k1, n);
    } else if k2 > k1 {
      MulMonotone(k1 + 1, k2, n);
    }
  }

  /** Every one of the first numCards * numPlayers shuffled cards lands in
      hand `i % n`. */
  lemma DealCovers(shuffled: seq<Card>, numCards: int, numPlayers: int, i: int)
    requires CanDeal(numCards, numPlayers, |shuffled|)
    requires 0 <= i < numCards * numPlayers
    ensures 0 <= i % numPlayers < numPlayers
    ensures shuffled[i] in Deal(shuffled, numCards, numPlayers)[i % numPlayers]
  {
    RoundRobinSplit(i, numCards, numPlayers);
    DealAt(shuffled, numCards, numPlayers, i % numPlayers, i / numPlayers);
  }

  /** Every dealt card comes from the first numCards * numPlayers shuffled cards. */
  lemma DealFromPrefix(shuffled: seq<Card>, numCards: int, numPlayers: int, j: int, k: int)
    requires CanDeal(numCards, numPlayers, |shuffled|)
    requires 0 <= j < numPlayers && 0 <= k < numCards
    ensures |Deal(shuffled, numCards, numPlayers)[j]| == numCards
    ensures Deal(shuffled, numCards, numPlayers)[j][k] in shuffled[..numCards * numPlayers]
  {
    DealAt(shuffled, numCards, numPlayers, j, k);
    assert shuffled[..numCards * numPlayers][j + k * numPlayers] == shuffled[j + k * numPlayers];
  }

  /** When the shuffled cards are distinct, two different slots of the deal
      (in two hands, or twice in one hand) never hold the same card. */
  lemma DealDisjoint(shuffled: seq<Card>, numCards: int, numPlayers: int,
                     j1: int, k1: int, j2: int, k2: int)
    requires CanDeal(numCards, numPlayers, |shuffled|) && Distinct(shuffled)
    requires 0 <= j1 < numPlayers && 0 <= k1 < numCards
    requires 0 <= j2 < numPlayers && 0 <= k2 < numCards
    requires j1 != j2 || k1 != k2
    ensures |Deal(shuffled, numCards, numPlayers)[j1]| == numCards
    ensures |Deal(shuffled, numCards, numPlayers)[j2]| == numCards
    ensures Deal(shuffled, numCards, numPlayers)[j1][k1] != Deal(shuffled, numCards, numPlayers)[j2][k2]
  {
    DealAt(shuffled, numCards, numPlayers, j1, k1);
    DealAt(shuffled, numCards, numPlayers, j2, k2);
    if j1 + k1 * numPlayers == j2 + k2 * numPlayers {
      RoundRobinUnique(j1, k1, j2, k2, numPlayers);
    }
  }

  /** The cards.py `Deck`: the 52 registered cards, reordered only by
      `shuffle_and_deal`. */
  /** While a fresh registry is filled in deck order, the next deck card's
      key has not been registered yet. */
  lemma NewDeckKey(order: seq<Key>, keys: set<Key>, built: seq<Card>, k: nat)
    requires k < DECK_SIZE && built == FullDeck(LOWEST_VALUE)[..k]
    requires |order| == k && forall i :: 0 <= i < k ==> order[i] == KeyOf(built[i])
    requires keys == (set i | 0 <= i < |order| :: order[i])
    ensures KeyOf(FullDeck(LOWEST_VALUE)[k]) !in keys
  {
    FullDeckOrdered(LOWEST_VALUE);
    forall i | 0 <= i < k
      ensures order[i] != KeyOf(FullDeck(LOWEST_VALUE)[k])
    {
      assert built[i] == FullDeck(LOWEST_VALUE)[i];
    }
  }

  class Deck {
    var cards: seq<Card>

    /** The deck always holds the 52 cards, in some order. */
    ghost predicate Valid()
      reads this
    {
      multiset(cards) == multiset(FullDeck(LOWEST_VALUE))
    }

    /** `Deck()`: builds the cards suit-major through `Card(suit, value)`,
        registering each pair. On a fresh registry the indices handed out
        are the cards' deck positions. */
    constructor (registry: Registry)
      requires registry.Valid()
      modifies registry
      ensures Valid() && cards == FullDeck(LOWEST_VALUE)
      ensures registry.Valid()
      ensures forall c :: c in cards ==> KeyOf(c) in registry.instances
      ensures old(registry.counter) == 0 ==>
        forall c :: c in cards ==> registry.instances[KeyOf(c)] == CardIndex(c)
    {
      ghost var fresh0 := registry.counter == 0;
      var built := BuildCards(registry);
      cards := built;
      new;
      FullDeckPositions(LOWEST_VALUE);
      if fresh0 {
        forall c | c in cards
          ensures registry.instances[KeyOf(c)] == CardIndex(c)
        {
          var i :| 0 <= i < |cards| && cards[i] == c;
          assert registry.order[i] == KeyOf(c);
        }
      }
    }

    /** The loop of `Deck()`: one `Card(suit, value)` per position of the
        suit-major deck, each registered in turn. */
    static method BuildCards(registry: Registry) returns (built: seq<Card>)
      requires registry.Valid()
      modifies registry
      ensures registry.Valid() && built == FullDeck(LOWEST_VALUE)
      ensures forall i :: 0 <= i < |built| ==> KeyOf(built[i]) in registry.instances
      ensures old(registry.counter) == 0 ==> |registry.order| == |built|
      ensures old(registry.counter) == 0 ==> forall i :: 0 <= i < |built| ==> registry.order[i] == KeyOf(built[i])
    {
      built := [];
      var k := 0;
      ghost var fresh0 := registry.counter == 0;
      while k < DECK_SIZE
        invariant 0 <= k <= DECK_SIZE
        invariant registry.Valid()
        invariant built == FullDeck(LOWEST_VALUE)[..k]
        invariant forall i :: 0 <= i < k ==> KeyOf(built[i]) in registry.instances
        invariant fresh0 ==> |registry.order| == k
        invariant fresh0 ==> forall i :: 0 <= i < k ==> registry.order[i] == KeyOf(built[i])
      {
        var card := Card(SUITS[k / 13], LOWEST_VALUE + k % 13);
        assert card == FullDeck(LOWEST_VALUE)[k];
        if fresh0 {
          NewDeckKey(registry.order, registry.instances.Keys, built, k);
        }
        var index := registry.Instance(card.suit, card.value);
        assert FullDeck(LOWEST_VALUE)[..k + 1] == built + [card];
        built := built + [card];
        k := k + 1;
      }
    }

    /** `Deck.__len__`. */
    function Length(): (n: nat)
      reads this
      requires Valid()
      ensures n == DECK_SIZE
    {
      assert |multiset(cards)| == |cards|;
      |cards|
    }

    /** `shuffle_and_deal(num_cards, num_players)`: when the guard fails the
        call returns `None` without shuffling; otherwise the deck is shuffled
        in place (an arbitrary reordering) and hand `j` is the round robin
        j, j + n, ... of the shuffled cards. */
    method ShuffleAndDeal(numCards: int, numPlayers: int) returns (hands: Option<seq<seq<Card>>>)
      requires Valid()
      modifies this
      ensures Valid()
      ensures hands.Some? <==> CanDeal(numCards, numPlayers, DECK_SIZE)
      ensures hands.None? ==> cards == old(cards)
      ensures hands.Some? ==>
        multiset(cards) == multiset(old(cards)) &&
        CanDeal(numCards, numPlayers, |cards|) &&
        hands.value == Deal(cards, numCards, numPlayers)
    {
      assert |multiset(cards)| == |cards|;
      if numCards > 0 && numPlayers > 0 && numCards * numPlayers <= |cards| {
        var shuffled :| multiset(shuffled) == multiset(cards);
        cards := shuffled;
        assert |multiset(cards)| == |cards|;
        hands := Some(Deal(cards, numCards, numPlayers));
      } else {
        hands := None;
      }
    }
  }

  /** Every card of a rearranged deck is one of the 52, and no card is
      there twice. */
  lemma DeckCardsDistinct(cards: seq<Card>, low: int)
    requires multiset(cards) == multiset(FullDeck(low))
    ensures Distinct(cards)
    ensures forall c :: c in cards ==> InDeckRange(c, low)
  {
    var d := FullDeck(low);
    FullDeckOrdered(low);
    forall c | c in cards
      ensures InDeckRange(c, low)
    {
      assert c in multiset(d);
      FullDeckMembers(low, c);
    }
    DistinctPermutation(d, cards);
  }
}
