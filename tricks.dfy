/** contract_whist/trick.py: one trick's parallel card and player lists,
    its lead suit, and the left-to-right fold that finds the winning card. */
module Tricks {
  import opened Wrappers
  import opened Builtins
  import opened Cards

  /** The result of `Trick.winning_card`: start from the first card and let
      each later card replace the running winner when the winner is `<` it. */
  function Best(cards: seq<Card>, trump: Trump): (w: Card)
    requires |cards| > 0
    ensures w in cards
  {
    if |cards| == 1 then cards[0]
    else
      var b := Best(cards[..|cards| - 1], trump);
      var c := cards[|cards| - 1];
      assert b in cards[..|cards| - 1];
      if Less(b, c, trump) then c else b
  }

  /** Some card of the list is a trump. */
  predicate HasTrump(cards: seq<Card>, trump: Trump)
  {
    exists i :: 0 <= i < |cards| && trump == Some(cards[i].suit)
  }

  /** What the fold computes: the highest trump when a trump was played,
      otherwise the highest card of the first card's suit. */
  lemma {:induction false} BestCharacterized(cards: seq<Card>, trump: Trump)
    requires |cards| > 0
    ensures HasTrump(cards, trump) ==>
      trump == Some(Best(cards, trump).suit) &&
      forall i :: 0 <= i < |cards| && trump == Some(cards[i].suit) ==>
        cards[i].value <= Best(cards, trump).value
    ensures !HasTrump(cards, trump) ==>
      Best(cards, trump).suit == cards[0].suit &&
      forall i :: 0 <= i < |cards| && cards[i].suit == cards[0].suit ==>
        cards[i].value <= Best(cards, trump).value
  {
    if |cards| > 1 {
      var t := cards[..|cards| - 1];
      var c := cards[|cards| - 1];
      BestCharacterized(t, trump);
      assert t[0] == cards[0];
      assert forall i :: 0 <= i < |t| ==> t[i] == cards[i];
      if HasTrump(t, trump) {
        assert HasTrump(cards, trump) by {
          var i :| 0 <= i < |t| && trump == Some(t[i].suit);
          assert cards[i] == t[i];
        }
      }
      if HasTrump(cards, trump) && !HasTrump(t, trump) {
        assert trump == Some(c.suit) by {
          var i :| 0 <= i < |cards| && trump == Some(cards[i].suit);
          if i < |t| {
            assert t[i] == cards[i];
          }
        }
      }
      if !HasTrump(cards, trump) {
        assert trump != Some(c.suit) by {
          assert cards[|cards| - 1] == c;
        }
      }
    }
  }

  /** Play order matters: the winning card is of the first card's suit or a
      trump, so a card of any other suit never wins. */
  lemma BestSuit(cards: seq<Card>, trump: Trump)
    requires |cards| > 0
    ensures Best(cards, trump).suit == cards[0].suit || trump == Some(Best(cards, trump).suit)
    ensures forall i :: 0 <= i < |cards| ==>
      (cards[i].suit != cards[0].suit && trump != Some(cards[i].suit) ==> Best(cards, trump) != cards[i])
  {
    BestCharacterized(cards, trump);
  }

  /** The card that beats every card already played becomes the winner
      when it is added last. */
  lemma BestAfterBeatingAll(cards: seq<Card>, c: Card, trump: Trump)
    requires |cards| > 0
    requires forall d :: d in cards ==> Less(d, c, trump)
    ensures Best(cards + [c], trump) == c
  {
    assert (cards + [c])[..|cards|] == cards;
  }

  /** One trick of play. `P` is the type of the players' identities:
      the orchestrator uses the player objects. */
  class Trick<P(==)> {
    var cards: seq<Card>
    var players: seq<P>
    var leadSuit: Option<Suit>
    var winner: Option<P>

    /** The lists run in parallel and the lead suit is the first card's. */
    ghost predicate Valid()
      reads this
    {
      && |cards| == |players|
      && (if |cards| == 0 then leadSuit == None else leadSuit == Some(cards[0].suit))
    }

    /** `Trick()`: empty lists, no lead suit and no winner. */
    constructor ()
      ensures Valid()
      ensures cards == [] && players == [] && leadSuit == None && winner == None
    {
      cards := [];
      players := [];
      leadSuit := None;
      winner := None;
    }

    /** `add_card`: appends to both lists; the first card fixes the lead
        suit, which no later card changes. */
    method AddCard(player: P, card: Card)
      requires Valid()
      modifies this
      ensures Valid()
      ensures cards == old(cards) + [card] && players == old(players) + [player]
      ensures leadSuit == if old(leadSuit) == None then Some(card.suit) else old(leadSuit)
      ensures winner == old(winner)
    {
      if leadSuit == None {
        leadSuit := Some(card.suit);
      }
      cards := cards + [card];
      players := players + [player];
    }

    /** `winning_card`: the loop over the cards after the first. It needs a
        non-empty list (the unpacking `winning_card, *rest = cards` fails
        otherwise). */
    static method WinningCard(cards: seq<Card>, trump: Trump) returns (w: Card)
      requires |cards| > 0
      ensures w == Best(cards, trump)
    {
      w := cards[0];
      var i := 1;
      while i < |cards|
        invariant 1 <= i <= |cards|
        invariant w == Best(cards[..i], trump)
      {
        assert cards[..i + 1][..i] == cards[..i];
        if Less(w, cards[i], trump) {
          w := cards[i];
        }
        i := i + 1;
      }
      assert cards[..i] == cards;
    }

    /** `resolve`: the winner is the player at the position of the winning
        card (its first occurrence, as `list.index` finds it). */
    method Resolve(trump: Trump) returns (w: P)
      requires Valid() && |cards| > 0
      modifies this`winner
      ensures w == players[IndexOf(cards, Best(cards, trump))]
      ensures w in players
      ensures winner == Some(w)
    {
      var card := WinningCard(cards, trump);
      w := players[IndexOf(cards, card)];
      winner := Some(w);
    }
  }

  /** Club-led, no trump: 5, K, 3 of diamonds, A. The ace of clubs wins
      and the diamond never contends. */
  lemma ScenarioClubLed()
    ensures Best([Card(Club, 5), Card(Club, 13), Card(Diamond, 3), Card(Club, 14)], None) == Card(Club, 14)
  {
    var cards := [Card(Club, 5), Card(Club, 13), Card(Diamond, 3), Card(Club, 14)];
    BestCharacterized(cards, None);
    assert cards[3] == Card(Club, 14);
  }

  /** Hearts trump: A of clubs led, then 2 of hearts, K and Q of clubs.
      The lone trump wins. */
  lemma ScenarioLoneTrump()
    ensures Best([Card(Club, 14), Card(Heart, 2), Card(Club, 13), Card(Club, 12)], Some(Heart)) == Card(Heart, 2)
  {
    var cards := [Card(Club, 14), Card(Heart, 2), Card(Club, 13), Card(Club, 12)];
    assert HasTrump(cards, Some(Heart)) by {
      assert cards[1].suit == Heart;
    }
    BestCharacterized(cards, Some(Heart));
  }
}
