/** contract_whist/players/random_player.py: a player whose bids and plays
    are arbitrary legal choices. `random.choice` is modelled as an
    unconstrained pick among the allowed values; its uniformity is not. */
module RandomStrategy {
  import opened Wrappers
  import opened Builtins
  import opened Cards
  import opened Tricks
  import opened Hands
  import opened Players

  class RandomPlayer {
    /** The bookkeeping every player keeps. */
    const base: Player

    /** `RandomPlayer(name)`: the base player's fresh state. */
    constructor (name: string)
      ensures fresh(base) && base.name == name && base.points == 0 && base.hand == null
      ensures base.contract == None && base.trickCount == 0 && base.cardsSeen == []
    {
      base := new Player(name);
    }

    /** `make_bid`: `choice(list(options))`, any one of the options; the
        options are given in the set's iteration order. `choice` of an empty
        list raises, so the options must not be empty. */
    method MakeBid(options: seq<int>) returns (bid: int)
      requires |options| > 0
      ensures bid in options
    {
      var i :| 0 <= i < |options|;
      bid := options[i];
    }

    /** `play_card`: pops some position whose mask entry is 1. A non-empty
        hand always has one, so the choice cannot fail. */
    method PlayCard(trick: Trick<Player>) returns (card: Card)
      requires base.hand != null && |base.hand.cards| > 0
      modifies base.hand
      ensures PoppedLegal(old(base.hand.cards), trick.cards, trick.leadSuit, card, base.hand.cards)
      ensures |base.hand.cards| == |old(base.hand.cards)| - 1
    {
      var hand := base.hand;
      var mask := Playable(hand.cards, trick.cards, trick.leadSuit);
      PlayableNonEmpty(hand.cards, trick.cards, trick.leadSuit);
      var index :| 0 <= index < |hand.cards| && mask[index] == 1;
      var popped := hand.Pop(index);
      card := popped.value;
    }
  }
}
