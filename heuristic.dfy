/** contract_whist/players/heuristic_player.py: a player that bids from a
    weighted count of its high cards and trumps, and plays to make its
    contract exactly. Python floats are modelled as exact reals; no IEEE
    rounding is modelled. */
module Heuristic {
  import opened Wrappers
  import opened Builtins
  import opened Cards
  import opened Tricks
  import opened Hands
  import opened Players

  // ------------------------------------------------------------ rounding

  /** Python's `round` on a float: to the nearest integer, halves to even. */
  function RoundHalfEven(x: real): (r: int)
    ensures x - 0.5 <= r as real <= x + 0.5
    ensures (r as real == x - 0.5 || r as real == x + 0.5) ==> r % 2 == 0
  {
    var f := x.Floor;
    var d := x - f as real;
    if d < 0.5 then f
    else if d > 0.5 then f + 1
    else if f % 2 == 0 then f
    else f + 1
  }

  /** The rounding is the unique integer within a half of `x`, the even one
      at a tie. */
  lemma RoundUnique(x: real, n: int)
    requires x - 0.5 <= n as real <= x + 0.5
    requires (n as real == x - 0.5 || n as real == x + 0.5) ==> n % 2 == 0
    ensures n == RoundHalfEven(x)
  {
    var r := RoundHalfEven(x);
    assert n as real - r as real <= 1.0 && r as real - n as real <= 1.0;
    assert n - r == 1 ==> n as real == x + 0.5 && r as real == x - 0.5;
    assert n - r == -1 ==> n as real == x - 0.5 && r as real == x + 0.5;
    EvenNeighbours(n, r);
  }

  /** Two integers at most one apart that are both even when they differ
      are equal. */
  lemma EvenNeighbours(a: int, b: int)
    requires -1 <= a - b <= 1
    requires a != b ==> a % 2 == 0 && b % 2 == 0
    ensures a == b
  {
  }

  // ---------------------------------------------------------- evaluation

  /** Which cards `evaluate_hand` counts, and at which multiplier. */
  datatype Weight = TrumpWeight | HighCardWeight

  /** A trump counts at the trump multiplier; a non-trump above the cutoff
      at the card multiplier; any other card counts nothing. */
  predicate Counted(c: Card, w: Weight, trump: Trump, cutoff: int)
  {
    match w
    case TrumpWeight => trump == Some(c.suit)
    case HighCardWeight => trump != Some(c.suit) && c.value > cutoff
  }

  /** A card's value times `m` when it is counted under `w`, else nothing. */
  function Weighted(c: Card, w: Weight, trump: Trump, cutoff: int, m: real): real
  {
    if Counted(c, w, trump, cutoff) then m * c.value as real else 0.0
  }

  /** The sum, over the cards counted under `w`, of value times `m`. */
  function WeightedTotal(cards: seq<Card>, w: Weight, trump: Trump, cutoff: int, m: real): real
  {
    if cards == [] then 0.0
    else WeightedTotal(cards[..|cards| - 1], w, trump, cutoff, m) + Weighted(cards[|cards| - 1], w, trump, cutoff, m)
  }

  /** The score `evaluate_hand` returns:
      (sum of trump value * trump multiplier
       + sum of high non-trump value * card multiplier) / 10. */
  function HandScore(cards: seq<Card>, trump: Trump, trumpMultiplier: real, cardMultiplier: real, cutoff: int): real
  {
    (WeightedTotal(cards, TrumpWeight, trump, cutoff, trumpMultiplier)
      + WeightedTotal(cards, HighCardWeight, trump, cutoff, cardMultiplier)) / 10.0
  }

  lemma {:induction false} WeightedTotalAppend(a: seq<Card>, b: seq<Card>, w: Weight, trump: Trump, cutoff: int, m: real)
    ensures WeightedTotal(a + b, w, trump, cutoff, m) == WeightedTotal(a, w, trump, cutoff, m) + WeightedTotal(b, w, trump, cutoff, m)
  {
    if b == [] {
      assert a + b == a;
    } else {
      assert (a + b)[..|a + b| - 1] == a + b[..|b| - 1];
      WeightedTotalAppend(a, b[..|b| - 1], w, trump, cutoff, m);
    }
  }

  /** The totals depend only on which cards are held, not on their order. */
  lemma {:induction false} WeightedTotalPermutation(a: seq<Card>, b: seq<Card>, w: Weight, trump: Trump, cutoff: int, m: real)
    requires multiset(a) == multiset(b)
    ensures WeightedTotal(a, w, trump, cutoff, m) == WeightedTotal(b, w, trump, cutoff, m)
    decreases |a|
  {
    if a == [] {
      assert |multiset(b)| == 0;
    } else {
      var x := a[|a| - 1];
      var front := a[..|a| - 1];
      assert a == front + [x];
      assert x in multiset(b);
      var j := IndexOf(b, x);
      var rest := b[..j] + b[j + 1..];
      assert b == b[..j] + [x] + b[j + 1..];
      assert multiset(a) == multiset(front) + multiset{x};
      assert multiset(b) == multiset(b[..j]) + multiset{x} + multiset(b[j + 1..]);
      assert multiset(rest) == multiset(b[..j]) + multiset(b[j + 1..]);
      assert multiset(front) == multiset(a) - multiset{x};
      assert multiset(rest) == multiset(b) - multiset{x};
      WeightedTotalPermutation(front, rest, w, trump, cutoff, m);
      WeightedTotalAppend(b[..j] + [x], b[j + 1..], w, trump, cutoff, m);
      WeightedTotalAppend(b[..j], [x], w, trump, cutoff, m);
      WeightedTotalAppend(b[..j], b[j + 1..], w, trump, cutoff, m);
      WeightedTotalAppend(front, [x], w, trump, cutoff, m);
    }
  }

  /** The score of a hand does not depend on its order, so sorting the
      dealt hand does not change the bid. */
  lemma HandScorePermutation(a: seq<Card>, b: seq<Card>, trump: Trump, tm: real, cm: real, cutoff: int)
    requires multiset(a) == multiset(b)
    ensures HandScore(a, trump, tm, cm, cutoff) == HandScore(b, trump, tm, cm, cutoff)
  {
    WeightedTotalPermutation(a, b, TrumpWeight, trump, cutoff, tm);
    WeightedTotalPermutation(a, b, HighCardWeight, trump, cutoff, cm);
  }

  /** A hand of low non-trump cards scores nothing. */
  lemma LowCardsScoreNothing(cards: seq<Card>, trump: Trump, tm: real, cm: real, cutoff: int)
    requires forall i :: 0 <= i < |cards| ==> trump != Some(cards[i].suit) && cards[i].value <= cutoff
    ensures HandScore(cards, trump, tm, cm, cutoff) == 0.0
  {
    LowCardsTotal(cards, TrumpWeight, trump, cutoff, tm);
    LowCardsTotal(cards, HighCardWeight, trump, cutoff, cm);
  }

  lemma {:induction false} LowCardsTotal(cards: seq<Card>, w: Weight, trump: Trump, cutoff: int, m: real)
    requires forall i :: 0 <= i < |cards| ==> trump != Some(cards[i].suit) && cards[i].value <= cutoff
    ensures WeightedTotal(cards, w, trump, cutoff, m) == 0.0
  {
    if cards != [] {
      var front := cards[..|cards| - 1];
      assert forall i :: 0 <= i < |front| ==> front[i] == cards[i];
      LowCardsTotal(front, w, trump, cutoff, m);
    }
  }

  // ------------------------------------------------------------- bidding

  /** |score - option|. */
  function Distance(score: real, option: int): real
  {
    if score >= option as real then score - option as real else option as real - score
  }

  /** `diffs.index(min(diffs))`: the first option at the least distance. */
  function ClosestPosition(score: real, options: seq<int>): (k: nat)
    requires |options| > 0
    ensures k < |options|
    ensures forall j :: 0 <= j < |options| ==> Distance(score, options[k]) <= Distance(score, options[j])
    ensures forall j :: 0 <= j < k ==> Distance(score, options[k]) < Distance(score, options[j])
  {
    if |options| == 1 then 0
    else
      var front := options[..|options| - 1];
      var b := ClosestPosition(score, front);
      assert forall j :: 0 <= j < |front| ==> front[j] == options[j];
      if Distance(score, options[|options| - 1]) < Distance(score, options[b]) then |options| - 1 else b
  }

  /** `make_bid` once the hand is scored. `options` lists the offered set in
      its iteration order. The rounded score when it is offered; the largest
      option when the rounded score is above them all; otherwise the option
      nearest the score, the first listed on a tie. */
  function ChooseBid(score: real, options: seq<int>): (bid: int)
    requires |options| > 0
    ensures bid in options
    ensures RoundHalfEven(score) in options ==> bid == RoundHalfEven(score)
    ensures RoundHalfEven(score) !in options && RoundHalfEven(score) > Max(options) ==>
      forall o :: o in options ==> o <= bid
    ensures RoundHalfEven(score) !in options && RoundHalfEven(score) <= Max(options) ==>
      (forall o :: o in options ==> Distance(score, bid) <= Distance(score, o)) &&
      (forall j :: 0 <= j < IndexOf(options, bid) ==> Distance(score, bid) < Distance(score, options[j]))
  {
    var r := RoundHalfEven(score);
    if r in options then r
    else if r > Max(options) then Max(options)
    else
      var k := ClosestPosition(score, options);
      assert forall i :: 0 <= i < k ==> options[i] != options[k];
      options[k]
  }

  /** The worked example of the rules: clubs trump, multipliers 1.05 and
      0.35, cutoff 6, hand ace of clubs, nine of diamonds, two of spades
      scores 1.785, and the bid is 2 when 2 is offered. */
  lemma ScoreExample()
    ensures HandScore([Card(Club, 14), Card(Diamond, 9), Card(Spade, 2)], Some(Club), 1.05, 0.35, 6) == 1.785
    ensures ChooseBid(1.785, [0, 1, 2, 3]) == 2
  {
    var cards := [Card(Club, 14), Card(Diamond, 9), Card(Spade, 2)];
    assert cards[..2] == [Card(Club, 14), Card(Diamond, 9)];
    assert cards[..2][..1] == [Card(Club, 14)];
    assert [Card(Club, 14)][..0] == [];
    assert WeightedTotal(cards, TrumpWeight, Some(Club), 6, 1.05) == 14.7;
    assert WeightedTotal(cards, HighCardWeight, Some(Club), 6, 0.35) == 3.15;
    assert RoundHalfEven(1.785) == 2;
  }

  // ---------------------------------------------------------------- play

  /** `sorted(cards, key=value, reverse=True)[0]`: the sort is stable, so it
      is the first card of the highest value. */
  function MaxFacePosition(cards: seq<Card>): (k: nat)
    requires |cards| > 0
    ensures k < |cards|
    ensures forall j :: 0 <= j < |cards| ==> cards[j].value <= cards[k].value
    ensures forall j :: 0 <= j < k ==> cards[j].value < cards[k].value
  {
    if |cards| == 1 then 0
    else
      var front := cards[..|cards| - 1];
      var b := MaxFacePosition(front);
      assert forall j :: 0 <= j < |front| ==> front[j] == cards[j];
      if cards[|cards| - 1].value > cards[b].value then |cards| - 1 else b
  }

  /** `sorted(cards, key=value)[0]`: the first card of the lowest value. */
  function MinFacePosition(cards: seq<Card>): (k: nat)
    requires |cards| > 0
    ensures k < |cards|
    ensures forall j :: 0 <= j < |cards| ==> cards[k].value <= cards[j].value
    ensures forall j :: 0 <= j < k ==> cards[k].value < cards[j].value
  {
    if |cards| == 1 then 0
    else
      var front := cards[..|cards| - 1];
      var b := MinFacePosition(front);
      assert forall j :: 0 <= j < |front| ==> front[j] == cards[j];
      if cards[|cards| - 1].value < cards[b].value then |cards| - 1 else b
  }

  /** What can be said of `sorted(playable_cards)[-1]` under the trump-aware
      `<`, which is not a total order: it is one of the cards, and when they
      all share a suit it has the highest value. */
  predicate SortedLast(cards: seq<Card>, c: Card)
  {
    && c in cards
    && ((forall d :: d in cards ==> d.suit == c.suit) ==> forall d :: d in cards ==> d.value <= c.value)
  }

  /** `can_win` with `maxCard` the sorted maximum: that card when every
      card already in the trick is `<` it, and then it takes the trick so
      far; otherwise nothing. */
  function CanWin(trickCards: seq<Card>, maxCard: Card, trump: Trump): (r: Option<Card>)
    requires |trickCards| > 0
    ensures r.Some? ==> r.value == maxCard && Best(trickCards + [maxCard], trump) == maxCard
    ensures r.None? <==> exists t :: t in trickCards && !Less(t, maxCard, trump)
  {
    if forall t :: t in trickCards ==> Less(t, maxCard, trump) then
      BestAfterBeatingAll(trickCards, maxCard, trump);
      Some(maxCard)
    else None
  }

  /** `max_losing_card` with `ordering` the rearranged legal cards (the
      helper that orders them is not part of this model): the first card
      that would not win the trick, else the last card. */
  method MaxLosingCard(ordering: seq<Card>, trickCards: seq<Card>, trump: Trump) returns (card: Card)
    requires |ordering| > 0
    ensures card in ordering
    ensures (exists i :: 0 <= i < |ordering| && Best(trickCards + [ordering[i]], trump) != ordering[i]) ==>
      Best(trickCards + [card], trump) != card &&
      exists k :: 0 <= k < |ordering| && ordering[k] == card &&
        forall j :: 0 <= j < k ==> Best(trickCards + [ordering[j]], trump) == ordering[j]
    ensures (forall i :: 0 <= i < |ordering| ==> Best(trickCards + [ordering[i]], trump) == ordering[i]) ==>
      card == ordering[|ordering| - 1]
  {
    var i := 0;
    while i < |ordering|
      invariant 0 <= i <= |ordering|
      invariant forall j :: 0 <= j < i ==> Best(trickCards + [ordering[j]], trump) == ordering[j]
    {
      var candidate := ordering[i];
      var w := Trick<Player>.WinningCard(trickCards + [candidate], trump);
      if w != candidate {
        return candidate;
      }
      i := i + 1;
    }
    card := ordering[|ordering| - 1];
  }

  class HeuristicPlayer {
    const trumpMultiplier: real
    const cardMultiplier: real
    const cardCutoff: int
    /** The bookkeeping every player keeps. */
    const base: Player

    /** `HeuristicPlayer(name, trump_multiplier, card_multiplier, card_cutoff)`. */
    constructor (name: string, trumpMultiplier: real, cardMultiplier: real, cardCutoff: int)
      ensures this.trumpMultiplier == trumpMultiplier && this.cardMultiplier == cardMultiplier
      ensures this.cardCutoff == cardCutoff
      ensures fresh(base) && base.name == name && base.points == 0 && base.hand == null
      ensures base.contract == None && base.trickCount == 0 && base.cardsSeen == []
    {
      this.trumpMultiplier := trumpMultiplier;
      this.cardMultiplier := cardMultiplier;
      this.cardCutoff := cardCutoff;
      base := new Player(name);
    }

    /** `evaluate_hand`: the loop accumulating the score, divided by 10. */
    method EvaluateHand(hand: Hand, trump: Trump) returns (score: real)
      ensures score == HandScore(hand.cards, trump, trumpMultiplier, cardMultiplier, cardCutoff)
    {
      var cards := hand.cards;
      var sum := 0.0;
      var i := 0;
      while i < |cards|
        invariant 0 <= i <= |cards|
        invariant sum == WeightedTotal(cards[..i], TrumpWeight, trump, cardCutoff, trumpMultiplier)
                       + WeightedTotal(cards[..i], HighCardWeight, trump, cardCutoff, cardMultiplier)
      {
        var card := cards[i];
        assert cards[..i + 1] == cards[..i] + [card];
        WeightedTotalAppend(cards[..i], [card], TrumpWeight, trump, cardCutoff, trumpMultiplier);
        WeightedTotalAppend(cards[..i], [card], HighCardWeight, trump, cardCutoff, cardMultiplier);
        if trump == Some(card.suit) {
          sum := sum + card.value as real * trumpMultiplier;
        } else if card.value > cardCutoff {
          sum := sum + cardMultiplier * card.value as real;
        }
        i := i + 1;
      }
      assert cards[..i] == cards;
      score := sum / 10.0;
    }

    /** `make_bid`: scores the hand, then chooses among `options`. */
    method MakeBid(options: seq<int>, trump: Trump) returns (bid: int)
      requires base.hand != null && |options| > 0
      ensures bid == ChooseBid(HandScore(base.hand.cards, trump, trumpMultiplier, cardMultiplier, cardCutoff), options)
      ensures bid in options
    {
      var score := EvaluateHand(base.hand, trump);
      bid := ChooseBid(score, options);
    }

    /** `play_card`: the card `play_card`'s decision tree picks, popped
        from the first position that holds it (or, with one legal card, from
        the position of the mask's only 1). Either way it is a legal card and
        exactly that card leaves the hand. */
    method PlayCard(trick: Trick<Player>, trump: Trump) returns (card: Card)
      requires base.hand != null && |base.hand.cards| > 0
      modifies base.hand
      ensures FollowsHeuristic(old(base.hand.cards), trick.cards, trick.leadSuit,
                               base.contract == Some(base.trickCount), trump, card)
      ensures PoppedLegal(old(base.hand.cards), trick.cards, trick.leadSuit, card, base.hand.cards)
    {
      card := ChooseCard(base.hand.cards, trick.cards, trick.leadSuit, base.contract == Some(base.trickCount), trump);
      PopChoice(base.hand, card, trick.cards, trick.leadSuit);
    }
  }

  /** The `pop` that ends `play_card`: with one legal card, from the
      position of the mask's only 1; otherwise from `cards.index(card)`.
      Either way the position is a legal one and holds `card`. */
  method PopChoice(hand: Hand, card: Card, trickCards: seq<Card>, leadSuit: Option<Suit>)
    requires |hand.cards| > 0
    requires card in Legal(hand.cards, Playable(hand.cards, trickCards, leadSuit))
    requires Sum(Playable(hand.cards, trickCards, leadSuit)) == 1 ==>
      1 in Playable(hand.cards, trickCards, leadSuit) &&
      card == hand.cards[IndexOf(Playable(hand.cards, trickCards, leadSuit), 1)]
    modifies hand
    ensures PoppedLegal(old(hand.cards), trickCards, leadSuit, card, hand.cards)
  {
    var cards := hand.cards;
    var mask := Playable(cards, trickCards, leadSuit);
    var p: nat;
    if Sum(mask) == 1 {
      p := IndexOf(mask, 1);
    } else {
      LegalFirstPosition(cards, card, trickCards, leadSuit);
      p := IndexOf(cards, card);
    }
    var popped := hand.Pop(p);
    assert popped == Some(card);
  }

  /** The decision tree of `play_card`, over the hand `cards`, the trick's
      cards and lead suit, and whether the contract is already met: the
      choice is a legal card; with exactly one legal card it is that card;
      otherwise `LeadChoice` or `FollowChoice` says which. */
  ghost predicate FollowsHeuristic(cards: seq<Card>, trickCards: seq<Card>, leadSuit: Option<Suit>,
                                   met: bool, trump: Trump, card: Card)
    requires |cards| > 0
  {
    PlayableNonEmpty(cards, trickCards, leadSuit);
    var mask := Playable(cards, trickCards, leadSuit);
    var legal := Legal(cards, mask);
    && card in legal
    && if Sum(mask) == 1 then card == cards[IndexOf(mask, 1)]
       else if |trickCards| == 0 then LeadChoice(legal, met, card)
       else FollowChoice(legal, trickCards, met, trump, card)
  }

  /** Leading: the first lowest legal card when the contract is met, the
      first highest when it is not. */
  predicate LeadChoice(legal: seq<Card>, met: bool, card: Card)
    requires |legal| > 0
  {
    if met then card == legal[MinFacePosition(legal)] else card == legal[MaxFacePosition(legal)]
  }

  /** Following. Contract met: a card that loses the trick whenever some
      legal card would. Not met: `can_win` on a sorted maximum `m` of the
      legal cards: `m` itself when every card played so far is `<` it, and
      otherwise the first lowest legal card. */
  ghost predicate FollowChoice(legal: seq<Card>, trickCards: seq<Card>, met: bool, trump: Trump, card: Card)
    requires |legal| > 0
  {
    if met then
      (exists c :: c in legal && Best(trickCards + [c], trump) != c) ==> Best(trickCards + [card], trump) != card
    else
      exists m :: SortedLast(legal, m) &&
        if forall t :: t in trickCards ==> Less(t, m, trump) then card == m
        else card == legal[MinFacePosition(legal)]
  }

  /** Trying to win while following: when the legal cards share a suit and
      one of them beats every card played so far, the choice is a legal
      card of the highest value, and it beats them all; when none of them
      beats them all, it is the first lowest legal card. */
  lemma FollowToWin(legal: seq<Card>, trickCards: seq<Card>, trump: Trump, card: Card)
    requires |legal| > 0 && FollowChoice(legal, trickCards, false, trump, card)
    ensures (forall c :: c in legal ==> exists t :: t in trickCards && !Less(t, c, trump)) ==>
      card == legal[MinFacePosition(legal)]
    ensures (forall d :: d in legal ==> d.suit == legal[0].suit) &&
            (exists c :: c in legal && forall t :: t in trickCards ==> Less(t, c, trump)) ==>
      && card in legal
      && (forall d :: d in legal ==> d.value <= card.value)
      && (forall t :: t in trickCards ==> Less(t, card, trump))
  {
    var m :| SortedLast(legal, m) &&
      if forall t :: t in trickCards ==> Less(t, m, trump) then card == m
      else card == legal[MinFacePosition(legal)];
    if (forall d :: d in legal ==> d.suit == legal[0].suit) &&
       (exists c :: c in legal && forall t :: t in trickCards ==> Less(t, c, trump)) {
      var c :| c in legal && forall t :: t in trickCards ==> Less(t, c, trump);
      assert c.suit == m.suit && c.value <= m.value;
      forall t | t in trickCards
        ensures Less(t, m, trump)
      {
        assert Less(t, c, trump);
      }
    }
  }

  /** Holding the three and the ace of clubs, following a club ten led
      under no trump, a player short of their contract plays the ace: the
      three is not a choice the heuristic allows. */
  lemma ScenarioFollowWithAce(card: Card)
    requires FollowsHeuristic([Card(Club, 3), Card(Club, 14)], [Card(Club, 10)], Some(Club), false, None, card)
    ensures card == Card(Club, 14)
  {
    var cards := [Card(Club, 3), Card(Club, 14)];
    ScenarioBothLegal();
    assert FollowChoice(cards, [Card(Club, 10)], false, None, card);
    FollowToWin(cards, [Card(Club, 10)], None, card);
  }

  /** Both clubs may follow the club ten, so both are legal, and the ace
      beats it. */
  lemma ScenarioBothLegal()
    ensures Playable([Card(Club, 3), Card(Club, 14)], [Card(Club, 10)], Some(Club)) == [1, 1]
    ensures Legal([Card(Club, 3), Card(Club, 14)], [1, 1]) == [Card(Club, 3), Card(Club, 14)]
    ensures Sum([1, 1]) == 2
    ensures forall t :: t in [Card(Club, 10)] ==> Less(t, Card(Club, 14), None)
  {
    var cards := [Card(Club, 3), Card(Club, 14)];
    assert Club in Suits(cards);
    ScenarioLegal(cards);
    assert Sum([1]) == 1;
  }

  /** Every card of a two-card hand with both mask entries 1 is legal. */
  lemma ScenarioLegal(cards: seq<Card>)
    requires |cards| == 2
    ensures Legal(cards, [1, 1]) == cards
  {
    assert cards[..1] == [cards[0]] && [1, 1][..1] == [1];
    assert Legal([cards[0]], [1]) == [cards[0]] by {
      assert [cards[0]][..0] == [] && [1][..0] == [];
    }
  }

  /** The choice `play_card` makes before popping. The two orderings the
      source leaves to sorting are picked here: any rearrangement of the
      legal cards for `max_losing_card`, and for `can_win` any legal card
      that `SortedLast` allows. */
  method ChooseCard(cards: seq<Card>, trickCards: seq<Card>, leadSuit: Option<Suit>, met: bool, trump: Trump)
    returns (card: Card)
    requires |cards| > 0
    ensures FollowsHeuristic(cards, trickCards, leadSuit, met, trump, card)
  {
    var mask := Playable(cards, trickCards, leadSuit);
    PlayableNonEmpty(cards, trickCards, leadSuit);
    var legal := Legal(cards, mask);
    if Sum(mask) == 1 {
      card := cards[IndexOf(mask, 1)];
      assert card in legal;
    } else if met {
      if |trickCards| == 0 {
        card := legal[MinFacePosition(legal)];
      } else {
        card := LoseIfPossible(legal, trickCards, trump);
      }
    } else {
      if |trickCards| == 0 {
        card := legal[MaxFacePosition(legal)];
      } else {
        var top := legal[MaxFacePosition(legal)];
        assert SortedLast(legal, top);
        var maxCard :| SortedLast(legal, maxCard);
        assert SortedLast(legal, maxCard);
        var win := CanWin(trickCards, maxCard, trump);
        if win.Some? {
          card := win.value;
        } else {
          card := legal[MinFacePosition(legal)];
        }
      }
    }
  }

  /** `max_losing_card` over some rearrangement of the legal cards: a legal
      card, and one that loses whenever a legal card can lose. */
  method LoseIfPossible(legal: seq<Card>, trickCards: seq<Card>, trump: Trump) returns (card: Card)
    requires |legal| > 0
    ensures card in legal
    ensures (exists c :: c in legal && Best(trickCards + [c], trump) != c) ==> Best(trickCards + [card], trump) != card
  {
    assert multiset(legal) == multiset(legal);
    var ordering :| multiset(ordering) == multiset(legal);
    assert |ordering| == |legal| by {
      assert |multiset(ordering)| == |legal|;
    }
    card := MaxLosingCard(ordering, trickCards, trump);
    assert card in multiset(legal);
    forall c | c in legal && Best(trickCards + [c], trump) != c
      ensures exists i :: 0 <= i < |ordering| && Best(trickCards + [ordering[i]], trump) != ordering[i]
    {
      assert c in multiset(ordering);
      var i :| 0 <= i < |ordering| && ordering[i] == c;
    }
  }

  /** The first position of a legal card in the hand is itself legal: the
      mask depends only on each card's suit. */
  lemma LegalFirstPosition(cards: seq<Card>, card: Card, trickCards: seq<Card>, leadSuit: Option<Suit>)
    requires card in Legal(cards, Playable(cards, trickCards, leadSuit))
    ensures card in cards && Playable(cards, trickCards, leadSuit)[IndexOf(cards, card)] == 1
  {
    var mask := Playable(cards, trickCards, leadSuit);
    var i :| 0 <= i < |cards| && mask[i] != 0 && cards[i] == card;
  }
}
