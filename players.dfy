/** contract_whist/players/player.py: the bookkeeping every player keeps
    between tricks and rounds. The strategies (`make_bid`, `play_card`)
    live in the modules of the player kinds. */
module Players {
  import opened Wrappers
  import opened Cards
  import opened Tricks
  import opened Hands

  class Player {
    var name: string
    var points: int
    var hand: Hand?
    /** The number of tricks bid for this round, once bid. */
    var contract: Option<int>
    /** Tricks won so far this round. */
    var trickCount: int
    /** Every card of the tricks completed this round, in play order. */
    var cardsSeen: seq<Card>

    /** `Player(name)`: no points, no hand, no contract, nothing seen. */
    constructor (name: string)
      ensures this.name == name && points == 0 && hand == null
      ensures contract == None && trickCount == 0 && cardsSeen == []
    {
      this.name := name;
      points := 0;
      hand := null;
      contract := None;
      trickCount := 0;
      cardsSeen := [];
    }

    /** `update_trick_result`: one more trick exactly when this player is
        the trick's winner (an identity test), and the trick's cards are
        appended to those seen. */
    method UpdateTrickResult(trick: Trick<Player>)
      modifies this`trickCount, this`cardsSeen
      ensures trickCount == old(trickCount) + (if trick.winner == Some(this) then 1 else 0)
      ensures cardsSeen == old(cardsSeen) + trick.cards
    {
      if trick.winner == Some(this) {
        trickCount := trickCount + 1;
      }
      cardsSeen := cardsSeen + trick.cards;
    }

    /** `round_reset`: clears the round's contract, count and cards seen;
        the name, points and hand are not touched. */
    method RoundReset()
      modifies this`contract, this`trickCount, this`cardsSeen
      ensures contract == None && trickCount == 0 && cardsSeen == []
    {
      contract := None;
      trickCount := 0;
      cardsSeen := [];
    }

    /** `update_score`: the round reset, then the score added to the points. */
    method UpdateScore(score: int)
      modifies this`contract, this`trickCount, this`cardsSeen, this`points
      ensures contract == None && trickCount == 0 && cardsSeen == []
      ensures points == old(points) + score
    {
      RoundReset();
      points := points + score;
    }
  }
}
