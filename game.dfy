/** contract_whist/game.py: the round schedule, the trump cycle, bidding with
    the dealer's forbidden bid, and the trick loop with leader rotation.
    The game's players are the console players of contract_whist/player.py:
    their bid and their card are whatever is typed at the prompt, which
    repeats until the choice is allowed, so both are unconstrained choices
    among the allowed ones here. */
module Whist {
  import opened Wrappers
  import opened Builtins
  import opened Cards
  import OldDeck
  import opened Tricks
  import opened Hands
  import opened Players

  // ------------------------------------------------------------- schedule

  /** `list(range(7, 0, -2)) + list(range(2, 8, 2))`: the hand size of each
      round in turn. */
  function Rounds(): seq<int>
  {
    Range(7, 0, -2) + Range(2, 8, 2)
  }

  /** The schedule is 7, 5, 3, 1, 2, 4, 6, and deck.py's strict bound lets
      every round be dealt to up to 7 players but not the 7-card round to 8. */
  lemma RoundsSchedule()
    ensures Rounds() == [7, 5, 3, 1, 2, 4, 6]
    ensures forall r, n :: r in Rounds() && 1 <= n <= 7 ==> OldDeck.CanDealStrict(r, n, DECK_SIZE)
    ensures !OldDeck.CanDealStrict(7, 8, DECK_SIZE)
  {
    assert Range(7, 0, -2) == [7, 5, 3, 1];
    assert Range(2, 8, 2) == [2, 4, 6];
    forall r, n | r in Rounds() && 1 <= n <= 7
      ensures OldDeck.CanDealStrict(r, n, DECK_SIZE)
    {
      MulMonotone(r, 7, n);
      MulMonotone(n, 7, 7);
    }
  }

  /** `cycle(SUITS + (None,))`: the trump of the i-th draw. */
  function TrumpCycle(i: nat): Trump
  {
    [Some(Club), Some(Diamond), Some(Heart), Some(Spade), None][i % 5]
  }

  /** The cycle yields club, diamond, heart, spade, no trump, and then
      repeats. */
  lemma TrumpCycleRepeats(i: nat)
    ensures [TrumpCycle(0), TrumpCycle(1), TrumpCycle(2), TrumpCycle(3), TrumpCycle(4)] ==
            [Some(Club), Some(Diamond), Some(Heart), Some(Spade), None]
    ensures TrumpCycle(i + 5) == TrumpCycle(i)
  {
    assert (i + 5) % 5 == i % 5;
  }

  // -------------------------------------------------------------- bidding

  /** `set(range(total + 1))`: the bids offered to every player. */
  function Offered(total: int): set<int>
  {
    var r := Range(0, total + 1, 1);
    set k | 0 <= k < |r| :: r[k]
  }

  /** The offered bids are exactly 0 .. total. */
  lemma OfferedMembers(total: int)
    ensures forall b :: b in Offered(total) <==> 0 <= b <= total
  {
    var r := Range(0, total + 1, 1);
    RangeSteps(0, total + 1, 1, if total >= 0 then total + 1 else 0);
    forall b | 0 <= b <= total
      ensures b in Offered(total)
    {
      assert r[b] == b;
    }
  }

  /** The dealer's options: the offered bids less `forbidden = total -
      sum(prior bids)` when that is not negative. */
  function DealerOptions(total: int, prior: seq<int>): set<int>
  {
    var forbidden := total - Sum(prior);
    if forbidden >= 0 then Offered(total) - {forbidden} else Offered(total)
  }

  /** The dealer may bid exactly the bids from 0 to `total` that do not
      bring the sum of all bids to `total`; with `total >= 1` one remains.
      A non-negative `forbidden` is always among the offered bids, so
      `options.remove(forbidden)` cannot raise `KeyError`. */
  lemma DealerBidAvoidsTotal(total: int, prior: seq<int>)
    requires forall i :: 0 <= i < |prior| ==> prior[i] >= 0
    ensures forall b :: b in DealerOptions(total, prior) <==> 0 <= b <= total && Sum(prior) + b != total
    ensures total >= 1 ==> (if Sum(prior) == total then 1 else 0) in DealerOptions(total, prior)
    ensures total - Sum(prior) >= 0 ==> total - Sum(prior) in Offered(total)
  {
    OfferedMembers(total);
    SumNonNegative(prior);
  }

  /** As written, `get_bids` offers `set(range(len(hands) + 1))` and forbids
      `len(hands) - sum`: `len(hands)` is the number of players where the
      number of tricks is meant. With four players and seven tricks, prior
      bids 1, 2, 2 forbid nothing and the dealer may bid 2, bringing the
      bids to the seven tricks; with five tricks and prior bids summing to
      five, the dealer may bid 0. */
  lemma PlayerCountBoundAdmitsMatchingBid()
    ensures 2 in DealerOptions(4, [1, 2, 2]) && Sum([1, 2, 2]) + 2 == 7
    ensures 0 in DealerOptions(4, [2, 2, 1]) && Sum([2, 2, 1]) + 0 == 5
  {
    OfferedMembers(4);
    assert Sum([1, 2, 2]) == 5 by {
      assert [1, 2, 2][..2] == [1, 2] && [1, 2][..1] == [1] && [1][..0] == [];
    }
    assert Sum([2, 2, 1]) == 5 by {
      assert [2, 2, 1][..2] == [2, 2] && [2, 2][..1] == [2] && [2][..0] == [];
    }
  }

  // ------------------------------------------------------------- rotation

  /** `players[index:] + players[:index]`. */
  function Rotate<T>(players: seq<T>, index: nat): (r: seq<T>)
    requires index <= |players|
  {
    players[index..] + players[..index]
  }

  /** A rotation starts at `players[index]`, keeps every player once and
      adds no one. */
  lemma RotateFacts<T>(players: seq<T>, index: nat)
    requires index < |players|
    ensures |Rotate(players, index)| == |players|
    ensures Rotate(players, index)[0] == players[index]
    ensures multiset(Rotate(players, index)) == multiset(players)
    ensures forall p :: p in Rotate(players, index) <==> p in players
  {
    assert players == players[..index] + players[index..];
  }

  /** `new_leader`: the player list rotated to start at the winner. */
  function NewLeader<T(==)>(winner: T, players: seq<T>): seq<T>
    requires winner in players
  {
    Rotate(players, IndexOf(players, winner))
  }

  /** The new order starts at the winner and is a reordering of the
      players. */
  lemma NewLeaderFacts<T>(winner: T, players: seq<T>)
    requires winner in players
    ensures |NewLeader(winner, players)| == |players| && NewLeader(winner, players)[0] == winner
    ensures multiset(NewLeader(winner, players)) == multiset(players)
  {
    RotateFacts(players, IndexOf(players, winner));
  }

  // --------------------------------------------------------------- tallies

  /** The tricks of the listed players added up. */
  function Total(tally: map<Player, int>, players: seq<Player>): int
    requires forall i :: 0 <= i < |players| ==> players[i] in tally
  {
    if players == [] then 0
    else Total(tally, players[..|players| - 1]) + tally[players[|players| - 1]]
  }

  /** One more trick for one listed player raises the total by one. */
  lemma {:induction false} TotalIncrement(tally: map<Player, int>, players: seq<Player>, winner: Player)
    requires forall i :: 0 <= i < |players| ==> players[i] in tally
    requires Distinct(players) && winner in tally
    ensures Total(tally[winner := tally[winner] + 1], players) ==
            Total(tally, players) + (if winner in players then 1 else 0)
  {
    if players != [] {
      var front := players[..|players| - 1];
      var last := players[|players| - 1];
      assert Distinct(front);
      TotalIncrement(tally, front, winner);
      assert winner in players <==> winner in front || winner == last;
      assert winner == last ==> winner !in front;
    }
  }

  /** All zeros add up to zero. */
  lemma {:induction false} TotalZero(tally: map<Player, int>, players: seq<Player>)
    requires forall i :: 0 <= i < |players| ==> players[i] in tally && tally[players[i]] == 0
    ensures Total(tally, players) == 0
  {
    if players != [] {
      TotalZero(tally, players[..|players| - 1]);
    }
  }

  /** The dictionary built by setting `ps[i]` to `vs[i]` in turn. */
  function Zip(ps: seq<Player>, vs: seq<int>): map<Player, int>
    requires |ps| == |vs|
  {
    if ps == [] then map[]
    else Zip(ps[..|ps| - 1], vs[..|vs| - 1])[ps[|ps| - 1] := vs[|vs| - 1]]
  }

  /** For distinct keys the dictionary has exactly those keys, each bound
      to its own value. */
  lemma {:induction false} ZipFacts(ps: seq<Player>, vs: seq<int>)
    requires |ps| == |vs| && Distinct(ps)
    ensures forall p :: p in Zip(ps, vs) <==> p in ps
    ensures forall i :: 0 <= i < |ps| ==> Zip(ps, vs)[ps[i]] == vs[i]
  {
    if ps != [] {
      var n := |ps| - 1;
      var front := ps[..n];
      assert Distinct(front);
      ZipFacts(front, vs[..n]);
      assert ps == front + [ps[n]];
      forall i | 0 <= i < n
        ensures ps[i] != ps[n] && front[i] == ps[i] && vs[..n][i] == vs[i]
      {
      }
    }
  }

  // ----------------------------------------------------------------- play

  /** When every bid is in 0 .. total and the last is one of the dealer's
      options given the others, the bids do not add up to `total`. */
  lemma BidsAvoidTotal(placed: seq<int>, total: int)
    requires |placed| > 0
    requires forall i :: 0 <= i < |placed| ==> 0 <= placed[i] <= total
    requires placed[|placed| - 1] in DealerOptions(total, placed[..|placed| - 1])
    ensures Sum(placed) != total
  {
    var n := |placed|;
    var prior := placed[..n - 1];
    assert Sum(placed) == Sum(prior) + placed[n - 1];
    forall j | 0 <= j < |prior|
      ensures prior[j] >= 0
    {
      assert prior[j] == placed[j];
    }
    DealerBidAvoidsTotal(total, prior);
  }

  /** The state of `get_bids` after the first `i` players have bid:
      `bids` maps each of them to the matching entry of `placed`, every bid
      is in 0 .. total, and once the dealer has bid, the dealer's bid is one
      of the dealer's options. */
  ghost predicate BidsSoFar(ps: seq<Player>, i: nat, total: int, bids: map<Player, int>, placed: seq<int>)
  {
    && i <= |ps| && |placed| == i
    && bids == Zip(ps[..i], placed)
    && (forall j :: 0 <= j < i ==> 0 <= placed[j] <= total)
    && (i == |ps| && i > 0 ==> placed[i - 1] in DealerOptions(total, placed[..i - 1]))
  }

  /** One more bid, in range and avoiding `forbidden` when it is the
      dealer's, extends the state by one player. */
  lemma BidStep(ps: seq<Player>, i: nat, total: int, bids: map<Player, int>, placed: seq<int>, bid: int)
    requires BidsSoFar(ps, i, total, bids, placed) && i < |ps|
    requires 0 <= bid <= total
    requires i == |ps| - 1 && total - Sum(placed) >= 0 ==> bid != total - Sum(placed)
    ensures BidsSoFar(ps, i + 1, total, bids[ps[i] := bid], placed + [bid])
  {
    var placed' := placed + [bid];
    assert placed'[..i] == placed;
    assert ps[..i + 1][..i] == ps[..i];
    forall j | 0 <= j < |placed|
      ensures placed[j] >= 0
    {
    }
    DealerBidAvoidsTotal(total, placed);
  }

  /** After the last player, the state gives every player exactly one bid
      and the bids do not add up to `total`. */
  lemma BidsDone(ps: seq<Player>, total: int, bids: map<Player, int>, placed: seq<int>)
    requires Distinct(ps) && BidsSoFar(ps, |ps|, total, bids, placed)
    ensures |placed| == |ps|
    ensures forall p :: p in bids <==> p in ps
    ensures forall i :: 0 <= i < |ps| ==> bids[ps[i]] == placed[i]
    ensures forall i :: 0 <= i < |ps| ==> 0 <= placed[i] <= total
    ensures |ps| > 0 ==> placed[|ps| - 1] in DealerOptions(total, placed[..|ps| - 1])
    ensures |ps| > 0 ==> Sum(placed) != total
  {
    assert ps[..|ps|] == ps;
    ZipFacts(ps, placed);
    if |ps| > 0 {
      BidsAvoidTotal(placed, total);
    }
  }

  /** One turn's bid, by the player at position `i` of `n`. `player is
      players[-1]` holds exactly at the last position, the players being
      distinct; that player, the dealer, first loses `forbidden` from the
      options. The earlier bids being options, `forbidden` is one of them
      whenever it is not negative, so `remove` does not raise. */
  method BidAt(n: nat, i: nat, placed: seq<int>, total: int, options: set<int>) returns (bid: int, options': set<int>)
    requires i < n && total >= 1 && options == Offered(total)
    requires forall j :: 0 <= j < |placed| ==> 0 <= placed[j]
    ensures bid in options' && 0 <= bid <= total
    ensures i + 1 < n ==> options' == options
    ensures i == n - 1 && total - Sum(placed) >= 0 ==> bid != total - Sum(placed)
  {
    OfferedMembers(total);
    options' := options;
    var dealer := i == n - 1;
    var forbidden := total - Sum(placed);
    if dealer && forbidden >= 0 {
      DealerBidAvoidsTotal(total, placed);
      assert forbidden in options';
      options' := options' - {forbidden};
    }
    bid := PromptBid(options', total, if dealer && forbidden >= 0 then forbidden else -1);
  }

  /** `player.hand = Hand(hand)`: a new sorted hand of the dealt cards. */
  method GiveHand(player: Player, dealt: seq<Card>)
    requires |dealt| > 0
    modifies player`hand
    ensures player.hand != null && fresh(player.hand) && player.hand.cards == SortedHand(dealt)
  {
    player.hand := new Hand(dealt);
  }

  /** The hands of the first `i` players: `given[j]` is player `j`'s, holds
      `sorted[j]`, and no two are the same object. */
  ghost predicate HandsSoFar(ps: seq<Player>, i: nat, sorted: seq<seq<Card>>, given: seq<Hand>)
    reads ps, given
  {
    && i <= |ps| && i <= |sorted| && |given| == i
    && (forall j :: 0 <= j < i ==> ps[j].hand == given[j] && given[j].cards == sorted[j])
    && (forall j, k :: 0 <= j < k < i ==> given[j] != given[k])
  }

  /** The sorted form of each dealt list, in order. */
  function SortedHands(hs: seq<seq<Card>>): (r: seq<seq<Card>>)
    ensures |r| == |hs|
  {
    if hs == [] then [] else SortedHands(hs[..|hs| - 1]) + [SortedHand(hs[|hs| - 1])]
  }

  lemma {:induction false} SortedHandsAt(hs: seq<seq<Card>>)
    ensures forall j :: 0 <= j < |hs| ==> SortedHands(hs)[j] == SortedHand(hs[j])
  {
    if hs != [] {
      SortedHandsAt(hs[..|hs| - 1]);
    }
  }

  /** One more deal adds its sorted form at the end. */
  lemma SortedHandsNext(hs: seq<seq<Card>>, i: nat)
    requires i < |hs|
    ensures SortedHands(hs[..i + 1]) == SortedHands(hs[..i]) + [SortedHand(hs[i])]
  {
    assert hs[..i + 1][..i] == hs[..i];
  }

  /** After the last player, every player holds their own sorted hand. */
  lemma HandsDone(ps: seq<Player>, sorted: seq<seq<Card>>, given: seq<Hand>)
    requires HandsSoFar(ps, |ps|, sorted, given)
    ensures forall i :: 0 <= i < |ps| ==> ps[i].hand == given[i]
    ensures forall i :: 0 <= i < |ps| ==> ps[i].hand != null && ps[i].hand.cards == sorted[i]
    ensures forall i, j :: 0 <= i < j < |ps| ==> ps[i].hand != ps[j].hand
  {
  }

  /** One turn's `player.hand = Hand(hand)` for `ps[i]`. */
  method GiveHandAt(ps: seq<Player>, i: nat, dealt: seq<Card>, ghost sorted: seq<seq<Card>>, ghost given: seq<Hand>)
    returns (ghost given': seq<Hand>)
    requires Distinct(ps) && i < |ps| && |sorted| == i && |dealt| > 0
    requires HandsSoFar(ps, i, sorted, given)
    modifies ps[i] as Player`hand
    ensures HandsSoFar(ps, i + 1, sorted + [SortedHand(dealt)], given')
    ensures given' == given + [given'[i]] && fresh(given'[i])
  {
    assert forall j :: 0 <= j < i ==> ps[j] != ps[i];
    GiveHand(ps[i], dealt);
    given' := given + [ps[i].hand];
  }

  /** The whole state of `get_bids` after the first `i` players: their
      bids, and their hands, which hold the sorted deals. */
  ghost predicate Bidding(ps: seq<Player>, hands: seq<seq<Card>>, i: nat, total: int, bids: map<Player, int>,
                          placed: seq<int>, sorted: seq<seq<Card>>, given: seq<Hand>)
    reads ps, given
  {
    && i <= |hands| == |ps|
    && BidsSoFar(ps, i, total, bids, placed)
    && HandsSoFar(ps, i, sorted, given)
    && sorted == SortedHands(hands[..i])
  }

  /** After the last player: every player has one bid, the bids do not add
      up to `total`, and each player holds the sorted form of their own deal
      in a hand of their own. */
  lemma BiddingDone(ps: seq<Player>, hands: seq<seq<Card>>, total: int, bids: map<Player, int>,
                    placed: seq<int>, sorted: seq<seq<Card>>, given: seq<Hand>)
    requires Distinct(ps) && Bidding(ps, hands, |ps|, total, bids, placed, sorted, given)
    ensures |placed| == |ps|
    ensures forall p :: p in bids <==> p in ps
    ensures forall i :: 0 <= i < |ps| ==> bids[ps[i]] == placed[i]
    ensures forall i :: 0 <= i < |ps| ==> 0 <= placed[i] <= total
    ensures |ps| > 0 ==> placed[|ps| - 1] in DealerOptions(total, placed[..|ps| - 1])
    ensures |ps| > 0 ==> Sum(placed) != total
    ensures forall i :: 0 <= i < |ps| ==>
      ps[i].hand != null && ps[i].hand.cards == SortedHand(hands[i])
    ensures forall i, j :: 0 <= i < j < |ps| ==> ps[i].hand != ps[j].hand
  {
    assert hands[..|hands|] == hands;
    BidsDone(ps, total, bids, placed);
    HandsDone(ps, sorted, given);
    SortedHandsAt(hands);
  }

  /** After the last player, player `i`'s hand is the `i`-th one given. */
  lemma HandsAt(ps: seq<Player>, hands: seq<seq<Card>>, total: int, bids: map<Player, int>,
                placed: seq<int>, sorted: seq<seq<Card>>, given: seq<Hand>)
    requires Bidding(ps, hands, |ps|, total, bids, placed, sorted, given)
    ensures forall i :: 0 <= i < |ps| ==> ps[i].hand == given[i] && given[i] in given
  {
  }

  /** One pass of `get_bids`' loop, for `ps[i]`: the hand is given, then
      the bid is made and recorded. */
  method BidTurn(ps: seq<Player>, hands: seq<seq<Card>>, i: nat, total: int, options: set<int>,
                 bids: map<Player, int>, placed: seq<int>, ghost sorted: seq<seq<Card>>, ghost given: seq<Hand>)
    returns (options': set<int>, bids': map<Player, int>, placed': seq<int>,
             ghost sorted': seq<seq<Card>>, ghost given': seq<Hand>)
    requires Distinct(ps) && i < |ps| && total >= 1 && options == Offered(total)
    requires Bidding(ps, hands, i, total, bids, placed, sorted, given) && |hands[i]| > 0
    modifies ps[i] as Player`hand
    ensures i + 1 < |ps| ==> options' == Offered(total)
    ensures Bidding(ps, hands, i + 1, total, bids', placed', sorted', given')
    ensures given' == given + [given'[i]] && fresh(given'[i])
  {
    given' := GiveHandAt(ps, i, hands[i], sorted, given);
    var bid;
    bid, options' := BidAt(|ps|, i, placed, total, options);
    BidStep(ps, i, total, bids, placed, bid);
    bids' := bids[ps[i] := bid];
    placed' := placed + [bid];
    sorted' := sorted + [SortedHand(hands[i])];
    SortedHandsNext(hands, i);
  }

  /** contract_whist/player.py's `make_bid`: the prompt repeats until the
      answer is one of `options`, so the bid is some option. `options` holds
      0 .. total except `excluded`. */
  method PromptBid(options: set<int>, total: int, excluded: int) returns (bid: int)
    requires total >= 1
    requires forall b :: b in options <==> 0 <= b <= total && b != excluded
    ensures bid in options && 0 <= bid <= total && bid != excluded
  {
    ghost var w := if excluded == 0 then 1 else 0;
    assert 0 <= w <= total && w != excluded;
    bid :| 0 <= bid <= total && bid != excluded;
  }

  /** contract_whist/player.py's `play_card`: the prompt repeats until the
      answer is a position the mask allows, and that card is popped. */
  method PromptCard(player: Player, trick: Trick<Player>) returns (card: Card)
    requires player.hand != null && |player.hand.cards| > 0 && trick.Valid()
    modifies player.hand
    ensures LegalPlay(old(player.hand.cards), trick.cards, player.hand.cards, card)
  {
    var hand := player.hand;
    var mask := Playable(hand.cards, trick.cards, trick.leadSuit);
    PlayableNonEmpty(hand.cards, trick.cards, trick.leadSuit);
    var index :| 0 <= index < |hand.cards| && mask[index] == 1;
    var popped := hand.Pop(index);
    card := popped.value;
  }

  /** The first `j` players of a trick, whose hands held `before[i]`
      when it began and hold `now[i]` after, have each made a legal play onto
      the cards before theirs; the others have not played yet. */
  ghost predicate Plays(before: seq<seq<Card>>, cards: seq<Card>, now: seq<seq<Card>>, j: nat, size: nat)
  {
    && |cards| == j <= |before| == |now|
    && (forall i :: 0 <= i < j ==> |now[i]| == size - 1 && LegalPlay(before[i], cards[..i], now[i], cards[i]))
    && (forall i :: j <= i < |before| ==> now[i] == before[i])
  }

  /** A legal play by the next player extends the plays by one. */
  lemma PlaysStep(before: seq<seq<Card>>, cards: seq<Card>, now: seq<seq<Card>>, j: nat, size: nat,
                  card: Card, after: seq<Card>)
    requires Plays(before, cards, now, j, size) && j < |before| && |before[j]| == size
    requires LegalPlay(before[j], cards, after, card)
    ensures Plays(before, cards + [card], now[j := after], j + 1, size)
  {
    var cards' := cards + [card];
    assert cards'[..j] == cards;
    forall i | 0 <= i < j
      ensures cards'[..i] == cards[..i]
    {
    }
  }

  /** The players' hands, in order. */
  ghost function HandsOf(ps: seq<Player>): (hs: seq<Hand>)
    requires forall i :: 0 <= i < |ps| ==> ps[i].hand != null
    reads ps
    ensures |hs| == |ps| && forall i :: 0 <= i < |ps| ==> hs[i] == ps[i].hand
  {
    if ps == [] then [] else HandsOf(ps[..|ps| - 1]) + [ps[|ps| - 1].hand]
  }

  /** The cards of each hand, in order. */
  ghost function CardsOf(hs: seq<Hand>): (cs: seq<seq<Card>>)
    reads hs
    ensures |cs| == |hs| && forall i :: 0 <= i < |hs| ==> cs[i] == hs[i].cards
  {
    if hs == [] then [] else CardsOf(hs[..|hs| - 1]) + [hs[|hs| - 1].cards]
  }

  /** The state of `play_round`'s inner loop after the first `j` players
      of `order`: `hs` are their hands, whose cards are `now`, and `trick`
      holds these players' legal plays. */
  ghost predicate TrickState(order: seq<Player>, hs: seq<Hand>, before: seq<seq<Card>>, now: seq<seq<Card>>,
                             size: nat, j: nat, trick: Trick<Player>)
    reads order, hs, trick
  {
    && j <= |order| == |hs| == |now|
    && trick.Valid() && trick.players == order[..j]
    && (forall i :: 0 <= i < |hs| ==> order[i].hand == hs[i] && hs[i].cards == now[i])
    && Plays(before, trick.cards, now, j, size)
  }

  /** One pass of the inner loop, `trick.add_card(player,
      player.play_card(trick))` for the player at position `j`. */
  method PlayTurn(order: seq<Player>, ghost hs: seq<Hand>, ghost before: seq<seq<Card>>, ghost now: seq<seq<Card>>,
                  size: nat, j: nat, trick: Trick<Player>)
    returns (ghost now': seq<seq<Card>>)
    requires TrickState(order, hs, before, now, size, j, trick)
    requires j < |order| && size > 0 && |before[j]| == size
    requires forall i, k :: 0 <= i < k < |hs| ==> hs[i] != hs[k]
    modifies hs[j], trick
    ensures TrickState(order, hs, before, now', size, j + 1, trick) && trick.winner == old(trick.winner)
  {
    var player := order[j];
    ghost var soFar := trick.cards;
    var card := PromptCard(player, trick);
    trick.AddCard(player, card);
    PlaysStep(before, soFar, now, j, size, card, hs[j].cards);
    now' := now[j := hs[j].cards];
    assert order[..j + 1] == order[..j] + [player];
  }

  /** After the last player, every player of the trick has made a legal
      play and holds one card fewer. */
  lemma TrickDone(order: seq<Player>, hs: seq<Hand>, before: seq<seq<Card>>, now: seq<seq<Card>>,
                  size: nat, trick: Trick<Player>)
    requires TrickState(order, hs, before, now, size, |order|, trick)
    ensures trick.Valid() && trick.players == order && |trick.cards| == |order|
    ensures forall i :: 0 <= i < |order| ==> order[i].hand == hs[i] && |hs[i].cards| == size - 1
    ensures LegalTrick(before, trick.cards, now)
  {
    assert order[..|order|] == order;
  }

  /** Each player of a trick, holding `before[i]`, made a legal play of
      `cards[i]` onto the cards before it and was left holding `after[i]`. */
  ghost predicate LegalTrick(before: seq<seq<Card>>, cards: seq<Card>, after: seq<seq<Card>>)
  {
    && |before| == |cards| == |after|
    && forall i :: 0 <= i < |cards| ==> LegalPlay(before[i], cards[..i], after[i], cards[i])
  }

  /** `Rotate(s, k)[i]` is the element `i` places after position `k`,
      wrapping around. */
  lemma RotateIndex<T>(s: seq<T>, k: nat, i: nat)
    requires k < |s| && i < |s|
    ensures Rotate(s, k)[i] == s[if k + i < |s| then k + i else k + i - |s|]
  {
  }

  /** The players of a list, as a set. */
  function Members(ps: seq<Player>): set<Player>
  {
    set i | 0 <= i < |ps| :: ps[i]
  }

  /** How many of the listed tricks `p` won. */
  function Wins(winners: seq<Player>, p: Player): nat
  {
    if winners == [] then 0
    else Wins(winners[..|winners| - 1], p) + (if winners[|winners| - 1] == p then 1 else 0)
  }

  /** One more trick won by `winner` counts for `winner` alone. */
  lemma WinsStep(winners: seq<Player>, winner: Player, p: Player)
    ensures Wins(winners + [winner], p) == Wins(winners, p) + (if winner == p then 1 else 0)
  {
    assert (winners + [winner])[..|winners|] == winners;
  }

  /** The index of the player who leads trick `u` of a round whose tricks
      were won by `winners`: the first player for the first trick, then the
      previous trick's winner. */
  function LeaderOf(ps: seq<Player>, winners: seq<Player>, u: nat): (l: nat)
    requires |ps| > 0 && u <= |winners| && (u > 0 ==> winners[u - 1] in ps)
    ensures l < |ps| && (u > 0 ==> ps[l] == winners[u - 1])
  {
    if u == 0 then 0 else IndexOf(ps, winners[u - 1])
  }

  /** The state of `play_round`'s outer loop after `t` of `n` tricks: trick
      `u` was led by `ps[leads[u]]`, the player `LeaderOf` names, and won by
      `winners[u]`; `tricks` maps each player to the number of tricks they
      won, and the counts add up to `t`; the next leader is `ps[leader]`. */
  ghost predicate RoundSoFar(ps: seq<Player>, n: nat, t: nat, leader: nat, tricks: map<Player, int>,
                             leads: seq<nat>, winners: seq<Player>)
  {
    && t <= n && |ps| > 0 && |winners| == t && |leads| == t
    && (forall u :: 0 <= u < t ==> winners[u] in ps)
    && (forall u :: 0 <= u < t ==> leads[u] == LeaderOf(ps, winners, u))
    && tricks.Keys == Members(ps)
    && (forall i :: 0 <= i < |ps| ==> tricks[ps[i]] == Wins(winners, ps[i]))
    && Total(tricks, ps) == t
    && leader == LeaderOf(ps, winners, t)
  }

  /** Before the first trick: every player at zero, the first player to
      lead. */
  lemma RoundBegins(ps: seq<Player>, n: nat, tricks: map<Player, int>)
    requires |ps| > 0 && tricks == map i | 0 <= i < |ps| :: ps[i] := 0
    ensures RoundSoFar(ps, n, 0, 0, tricks, [], [])
  {
    TotalZero(tricks, ps);
    assert tricks.Keys == Members(ps);
  }

  /** One more trick, won by a listed player, counts for that player:
      the keys stay the players, each count is still their number of wins
      and the counts add up to one more. */
  lemma TallyStep(ps: seq<Player>, t: nat, tricks: map<Player, int>, winners: seq<Player>, winner: Player)
    requires Distinct(ps) && winner in ps && tricks.Keys == Members(ps)
    requires forall i :: 0 <= i < |ps| ==> tricks[ps[i]] == Wins(winners, ps[i])
    requires Total(tricks, ps) == t
    ensures winner in tricks && tricks[winner := tricks[winner] + 1].Keys == Members(ps)
    ensures forall i :: 0 <= i < |ps| ==> tricks[winner := tricks[winner] + 1][ps[i]] == Wins(winners + [winner], ps[i])
    ensures Total(tricks[winner := tricks[winner] + 1], ps) == t + 1
  {
    assert ps[IndexOf(ps, winner)] in Members(ps);
    TotalIncrement(tricks, ps, winner);
    forall i | 0 <= i < |ps|
      ensures tricks[winner := tricks[winner] + 1][ps[i]] == Wins(winners + [winner], ps[i])
    {
      WinsStep(winners, winner, ps[i]);
    }
  }

  /** A trick led by the player `LeaderOf` names, and won by a listed
      player, extends the leads and the winners by one. */
  lemma LeadsStep(ps: seq<Player>, t: nat, leader: nat, leads: seq<nat>, winners: seq<Player>, winner: Player)
    requires |ps| > 0 && |winners| == t && |leads| == t && winner in ps
    requires forall u :: 0 <= u < t ==> winners[u] in ps
    requires forall u :: 0 <= u < t ==> leads[u] == LeaderOf(ps, winners, u)
    requires leader == LeaderOf(ps, winners, t)
    ensures forall u :: 0 <= u < t + 1 ==> (winners + [winner])[u] in ps
    ensures forall u :: 0 <= u < t + 1 ==> (leads + [leader])[u] == LeaderOf(ps, winners + [winner], u)
    ensures IndexOf(ps, winner) == LeaderOf(ps, winners + [winner], t + 1)
  {
    var winners' := winners + [winner];
    assert forall v :: 0 <= v < t ==> winners'[v] == winners[v];
  }

  /** A trick played in the order that starts at the leader, and won by one
      of its players, extends the round by one trick. */
  lemma RoundStep(ps: seq<Player>, n: nat, t: nat, leader: nat, tricks: map<Player, int>,
                  leads: seq<nat>, winners: seq<Player>, winner: Player)
    requires Distinct(ps) && RoundSoFar(ps, n, t, leader, tricks, leads, winners) && t < n
    requires winner in Rotate(ps, leader)
    ensures winner in ps && winner in tricks
    ensures RoundSoFar(ps, n, t + 1, IndexOf(ps, winner), tricks[winner := tricks[winner] + 1],
                       leads + [leader], winners + [winner])
  {
    RotateFacts(ps, leader);
    LeadsStep(ps, t, leader, leads, winners, winner);
    TallyStep(ps, t, tricks, winners, winner);
  }

  /** Who won each trick: trick `u` was played in the order that starts
      at `ps[leads[u]]`, its cards were `plays[u]`, and its winner is the
      player of that order who played `Best(plays[u], trump)`, as `resolve`
      finds them. */
  ghost predicate WonBy(ps: seq<Player>, trump: Trump, leads: seq<nat>, plays: seq<seq<Card>>, winners: seq<Player>)
  {
    && |plays| == |leads| == |winners|
    && forall u :: 0 <= u < |plays| ==>
         && leads[u] < |ps| && |ps| > 0 && |plays[u]| == |ps|
         && winners[u] == Rotate(ps, leads[u])[IndexOf(plays[u], Best(plays[u], trump))]
  }

  /** A trick resolved as `resolve` does extends the record of who won. */
  lemma WonByStep(ps: seq<Player>, trump: Trump, leads: seq<nat>, plays: seq<seq<Card>>, winners: seq<Player>,
                  leader: nat, cards: seq<Card>, winner: Player)
    requires WonBy(ps, trump, leads, plays, winners)
    requires leader < |ps| && |cards| == |ps| > 0
    requires winner == Rotate(ps, leader)[IndexOf(cards, Best(cards, trump))]
    ensures WonBy(ps, trump, leads + [leader], plays + [cards], winners + [winner])
  {
    var t := |plays|;
    assert forall u :: 0 <= u < t ==>
      (leads + [leader])[u] == leads[u] && (plays + [cards])[u] == plays[u] && (winners + [winner])[u] == winners[u];
  }

  /** The players' hands during the round: player `i` holds `hs[i]`, no two
      the same, each with `size` cards. */
  ghost predicate RoundHands(ps: seq<Player>, hs: seq<Hand>, size: int)
    reads ps, hs
  {
    && |hs| == |ps|
    && (forall i :: 0 <= i < |ps| ==> ps[i].hand == hs[i] && |hs[i].cards| == size)
    && Distinct(hs)
  }

  /** Rotating the players and their hands by the same amount keeps each
      player with their hand. */
  lemma RotatedHands(ps: seq<Player>, hs: seq<Hand>, l: nat, size: int)
    requires Distinct(ps) && RoundHands(ps, hs, size) && l < |ps|
    ensures |Rotate(ps, l)| == |Rotate(hs, l)| == |ps| && Distinct(Rotate(ps, l))
    ensures forall i, j :: 0 <= i < j < |ps| ==> Rotate(hs, l)[i] != Rotate(hs, l)[j]
    ensures forall i :: 0 <= i < |ps| ==> Rotate(ps, l)[i].hand == Rotate(hs, l)[i] && |Rotate(hs, l)[i].cards| == size
  {
    RotateFacts(ps, l);
    RotateFacts(hs, l);
    DistinctPermutation(ps, Rotate(ps, l));
    DistinctPermutation(hs, Rotate(hs, l));
    forall i | 0 <= i < |ps|
      ensures Rotate(ps, l)[i].hand == Rotate(hs, l)[i] && |Rotate(hs, l)[i].cards| == size
    {
      RotateIndex(ps, l, i);
      RotateIndex(hs, l, i);
    }
  }

  /** What holds of every hand of a rotation holds of every hand. */
  lemma UnrotatedHands(ps: seq<Player>, hs: seq<Hand>, l: nat, size: int)
    requires |hs| == |ps| && l < |ps| && Distinct(hs)
    requires forall i :: 0 <= i < |ps| ==> Rotate(ps, l)[i].hand == Rotate(hs, l)[i] && |Rotate(hs, l)[i].cards| == size
    ensures RoundHands(ps, hs, size)
  {
    forall k | 0 <= k < |ps|
      ensures ps[k].hand == hs[k] && |hs[k].cards| == size
    {
      var i := if l <= k then k - l else k + |ps| - l;
      RotateIndex(ps, l, i);
      RotateIndex(hs, l, i);
    }
  }

  /** A round played to its end: the counts as `play_round` promises
      them, the first trick led by the first player and each later one by
      the previous winner, in the order `new_leader` gives. */
  lemma RoundDone(ps: seq<Player>, n: nat, leader: nat, tricks: map<Player, int>,
                  leads: seq<nat>, winners: seq<Player>)
    requires n > 0 && RoundSoFar(ps, n, n, leader, tricks, leads, winners)
    ensures forall p :: p in tricks <==> p in ps
    ensures forall i :: 0 <= i < |ps| ==> tricks[ps[i]] == Wins(winners, ps[i])
    ensures Total(tricks, ps) == n
    ensures |leads| == n && |winners| == n && forall t :: 0 <= t < n ==> leads[t] < |ps|
    ensures Rotate(ps, leads[0]) == ps
    ensures forall t :: 0 <= t < n ==> winners[t] in Rotate(ps, leads[t]) && winners[t] in ps
    ensures forall t :: 0 < t < n ==> Rotate(ps, leads[t]) == NewLeader(winners[t - 1], ps)
  {
    assert Rotate(ps, 0) == ps;
    forall t | 0 <= t < n
      ensures winners[t] in Rotate(ps, leads[t])
    {
      RotateFacts(ps, leads[t]);
    }
  }

  /** Hands of no cards are empty. */
  lemma HandsEmpty(ps: seq<Player>, hs: seq<Hand>)
    requires RoundHands(ps, hs, 0)
    ensures forall i :: 0 <= i < |ps| ==> ps[i].hand != null && ps[i].hand.cards == []
  {
  }

  /** After `get_bids`, each player holds a hand of its own, sorted from
      a dealt hand of `n` cards, so it holds `n` cards. */
  lemma HandsDealt(ps: seq<Player>, hands: seq<seq<Card>>, n: nat, hs: seq<Hand>)
    requires |hands| == |ps| == |hs| && forall j :: 0 <= j < |hands| ==> |hands[j]| == n
    requires forall i :: 0 <= i < |ps| ==> ps[i].hand == hs[i] && hs[i].cards == SortedHand(hands[i])
    requires forall i, j :: 0 <= i < j < |ps| ==> ps[i].hand != ps[j].hand
    ensures RoundHands(ps, hs, n)
  {
    forall i | 0 <= i < |hs|
      ensures |hs[i].cards| == n
    {
      SortedHandPermutation(hands[i]);
      assert |multiset(SortedHand(hands[i]))| == |multiset(hands[i])|;
    }
  }

  /** Why a round ends in an exception: `set_trump` raises for an unknown
      trump, and a deal the deck refuses returns `None`, which `get_bids`
      then fails to iterate. */
  datatype RoundError = BadTrump | NoDeal

  class Game {
    const players: seq<Player>
    /** The class attribute `DECK`, deck.py's `Deck`. */
    const deck: OldDeck.Deck
    /** deck.py's `Card.TRUMP`, which `set_trump` writes. */
    const trumpState: TrumpState
    var bids: Option<map<Player, int>>
    var rounds: seq<int>

    ghost predicate Valid()
      reads this, deck
    {
      Distinct(players) && deck.Valid()
    }

    /** `Game(players)`: no bids yet, and the round schedule. */
    constructor (players: seq<Player>)
      requires Distinct(players)
      ensures Valid() && fresh(deck) && fresh(trumpState)
      ensures this.players == players && bids == None && rounds == Rounds()
      ensures trumpState.trump == None
    {
      this.players := players;
      deck := new OldDeck.Deck();
      trumpState := new TrumpState();
      bids := None;
      rounds := Rounds();
    }

    /** `num_players`. */
    function NumPlayers(): (n: nat)
      ensures n == |players|
    {
      |players|
    }

    /** `get_bids` with the bound it is meant to use: each player in turn
        receives `Hand(hand)` for their dealt cards and bids from `{0 ..
        total}`; the dealer, the last player, also loses `forbidden = total
        - sum(bids so far)` when that is not negative, so the bids never add
        up to `total`. `placed` is `bids.values()` in insertion order. */
    method GetBids(hands: seq<seq<Card>>, total: int) returns (bids: map<Player, int>, placed: seq<int>)
      requires |hands| == |players| && Distinct(players) && total >= 1
      requires forall i :: 0 <= i < |hands| ==> |hands[i]| > 0
      modifies players`hand
      ensures |placed| == |players|
      ensures forall p :: p in bids <==> p in players
      ensures forall i :: 0 <= i < |players| ==> bids[players[i]] == placed[i]
      ensures forall i :: 0 <= i < |players| ==> 0 <= placed[i] <= total
      ensures |players| > 0 ==> placed[|players| - 1] in DealerOptions(total, placed[..|players| - 1])
      ensures |players| > 0 ==> Sum(placed) != total
      ensures forall i :: 0 <= i < |players| ==>
        players[i].hand != null && fresh(players[i].hand) && players[i].hand.cards == SortedHand(hands[i])
      ensures forall i, j :: 0 <= i < j < |players| ==> players[i].hand != players[j].hand
    {
      ghost var sorted, given;
      bids, placed, sorted, given := BidLoop(hands, total);
      BiddingDone(players, hands, total, bids, placed, sorted, given);
    }

    /** The loop of `get_bids`, one `BidTurn` per player, with `given` the
        new hands in player order. */
    method BidLoop(hands: seq<seq<Card>>, total: int)
      returns (bids: map<Player, int>, placed: seq<int>, ghost sorted: seq<seq<Card>>, ghost given: seq<Hand>)
      requires |hands| == |players| && Distinct(players) && total >= 1
      requires forall i :: 0 <= i < |hands| ==> |hands[i]| > 0
      modifies players`hand
      ensures Bidding(players, hands, |players|, total, bids, placed, sorted, given)
      ensures forall i :: 0 <= i < |players| ==> fresh(players[i].hand)
    {
      var options := Offered(total);
      bids := map[];
      placed := [];
      sorted := [];
      given := [];
      var i := 0;
      while i < |players|
        invariant i < |players| ==> options == Offered(total)
        invariant Bidding(players, hands, i, total, bids, placed, sorted, given)
        invariant forall h :: h in given ==> fresh(h)
      {
        options, bids, placed, sorted, given := BidTurn(players, hands, i, total, options, bids, placed, sorted, given);
        i := i + 1;
      }
      HandsAt(players, hands, total, bids, placed, sorted, given);
    }

    /** `get_bids` as written: the bound is `len(hands)`, the number of
        players; see `PlayerCountBoundAdmitsMatchingBid`. */
    method GetBidsAsWritten(hands: seq<seq<Card>>) returns (bids: map<Player, int>, placed: seq<int>)
      requires |hands| == |players| && Distinct(players) && |hands| >= 1
      requires forall i :: 0 <= i < |hands| ==> |hands[i]| > 0
      modifies players`hand
      ensures |placed| == |players| && forall p :: p in bids <==> p in players
      ensures forall i :: 0 <= i < |players| ==> placed[i] == bids[players[i]]
      ensures placed[|players| - 1] in DealerOptions(|hands|, placed[..|players| - 1])
    {
      bids, placed := GetBids(hands, |hands|);
    }

    /** The loop of a trick: each player of `order` in turn pops a card
        from a position its hand allows and adds it to a fresh trick. */
    static method PlayCards(order: seq<Player>, ghost hs: seq<Hand>, size: nat) returns (trick: Trick<Player>)
      requires |order| > 0 && size > 0 && Distinct(order) && |hs| == |order|
      requires forall i :: 0 <= i < |order| ==> order[i].hand == hs[i] && |order[i].hand.cards| == size
      requires forall i, j :: 0 <= i < j < |order| ==> hs[i] != hs[j]
      modifies hs
      ensures fresh(trick) && trick.Valid() && trick.players == order && |trick.cards| == |order|
      ensures forall i :: 0 <= i < |order| ==> order[i].hand == hs[i] && |hs[i].cards| == size - 1
      ensures LegalTrick(old(CardsOf(hs)), trick.cards, CardsOf(hs))
    {
      ghost var before := CardsOf(hs);
      ghost var now;
      trick, now := CardsLoop(order, hs, before, size);
      TrickDone(order, hs, before, now, size, trick);
      assert CardsOf(hs) == now;
    }

    /** The loop of a trick, one `PlayTurn` per player. */
    static method CardsLoop(order: seq<Player>, ghost hs: seq<Hand>, ghost before: seq<seq<Card>>, size: nat)
      returns (trick: Trick<Player>, ghost now: seq<seq<Card>>)
      requires |order| == |hs| == |before| && size > 0
      requires forall i :: 0 <= i < |order| ==> order[i].hand == hs[i] && before[i] == hs[i].cards && |before[i]| == size
      requires forall i, k :: 0 <= i < k < |hs| ==> hs[i] != hs[k]
      modifies hs
      ensures fresh(trick) && trick.winner == None
      ensures TrickState(order, hs, before, now, size, |order|, trick)
    {
      now := before;
      trick := new Trick<Player>();
      var j := 0;
      while j < |order|
        invariant TrickState(order, hs, before, now, size, j, trick) && trick.winner == None
        modifies hs, trick
      {
        now := PlayTurn(order, hs, before, now, size, j, trick);
        j := j + 1;
      }
    }

    /** `play_round`: sets the trump, deals `num_tricks` cards to each
        player, collects the bids, then plays `num_tricks` tricks. The first
        is led by the first player and each later one by the previous
        winner, the order being the player list rotated to start there. Every
        trick adds one to its winner's count, so the counts add up to the
        number of tricks. */
    method PlayRound(numTricks: int, trumpArg: TrumpArg)
      returns (result: Result<map<Player, int>, RoundError>,
               ghost leads: seq<nat>, ghost winners: seq<Player>, ghost plays: seq<seq<Card>>)
      requires Valid()
      modifies deck, trumpState, players`hand
      ensures Valid()
      ensures result == Err(BadTrump) <==> ParseTrump(trumpArg).None?
      ensures result == Err(NoDeal) <==>
        ParseTrump(trumpArg).Some? && !OldDeck.CanDealStrict(numTricks, |players|, DECK_SIZE)
      ensures result == Err(BadTrump) ==> trumpState.trump == old(trumpState.trump)
      ensures result == Err(NoDeal) ==> trumpState.trump == ParseTrump(trumpArg).value
      ensures result.Err? ==>
        deck.cards == old(deck.cards) && forall i :: 0 <= i < |players| ==> players[i].hand == old(players[i].hand)
      ensures result.Ok? ==>
        && trumpState.trump == ParseTrump(trumpArg).value
        && (forall p :: p in result.value <==> p in players)
        && (forall i :: 0 <= i < |players| ==> result.value[players[i]] == Wins(winners, players[i]))
        && Total(result.value, players) == numTricks
        && numTricks > 0 && |leads| == numTricks && |winners| == numTricks
        && (forall t :: 0 <= t < numTricks ==> leads[t] < |players|)
        && Rotate(players, leads[0]) == players
        && (forall t :: 0 <= t < numTricks ==> winners[t] in Rotate(players, leads[t]) && winners[t] in players)
        && (forall t :: 0 < t < numTricks ==> Rotate(players, leads[t]) == NewLeader(winners[t - 1], players))
        && WonBy(players, trumpState.trump, leads, plays, winners)
        && (forall i :: 0 <= i < |players| ==> players[i].hand != null && players[i].hand.cards == [])
    {
      leads := [];
      winners := [];
      plays := [];
      var ok := trumpState.SetTrump(trumpArg);
      if !ok {
        return Err(BadTrump), leads, winners, plays;
      }
      var trump := trumpState.trump;
      var dealt := deck.ShuffleAndDeal(numTricks, |players|);
      if dealt.None? {
        return Err(NoDeal), leads, winners, plays;
      }
      var hands := dealt.value;
      forall j | 0 <= j < |players|
        ensures |hands[j]| == numTricks
      {
        DealHand(deck.cards, numTricks, |players|, j);
      }
      var tricks;
      tricks, leads, winners, plays := BidAndPlay(hands, numTricks, trump);
      result := Ok(tricks);
    }

    /** `get_bids` on the dealt hands: each player now holds a new hand of
        `n` cards, listed in `hs`. */
    method DealHands(hands: seq<seq<Card>>, n: nat) returns (ghost hs: seq<Hand>)
      requires Distinct(players) && n > 0 && |hands| == |players|
      requires forall j :: 0 <= j < |hands| ==> |hands[j]| == n
      modifies players`hand
      ensures RoundHands(players, hs, n) && forall i :: 0 <= i < |hs| ==> fresh(hs[i])
    {
      var bids, placed := GetBids(hands, n);
      hs := HandsOf(players);
      HandsDealt(players, hands, n, hs);
    }

    /** The bids, then the tricks, of a round whose hands are dealt. */
    method BidAndPlay(hands: seq<seq<Card>>, n: nat, trump: Trump)
      returns (tricks: map<Player, int>, ghost leads: seq<nat>, ghost winners: seq<Player>, ghost plays: seq<seq<Card>>)
      requires Distinct(players) && |players| > 0 && n > 0 && |hands| == |players|
      requires forall j :: 0 <= j < |hands| ==> |hands[j]| == n
      modifies players`hand
      ensures forall p :: p in tricks <==> p in players
      ensures forall i :: 0 <= i < |players| ==> tricks[players[i]] == Wins(winners, players[i])
      ensures Total(tricks, players) == n
      ensures |leads| == n && |winners| == n && forall t :: 0 <= t < n ==> leads[t] < |players|
      ensures Rotate(players, leads[0]) == players
      ensures forall t :: 0 <= t < n ==> winners[t] in Rotate(players, leads[t]) && winners[t] in players
      ensures forall t :: 0 < t < n ==> Rotate(players, leads[t]) == NewLeader(winners[t - 1], players)
      ensures WonBy(players, trump, leads, plays, winners)
      ensures forall i :: 0 <= i < |players| ==> players[i].hand != null && players[i].hand.cards == []
    {
      ghost var hs := DealHands(hands, n);
      ghost var leader;
      tricks, leads, winners, plays, leader := PlayTricks(n, trump, hs);
      RoundDone(players, n, leader, tricks, leads, winners);
      HandsEmpty(players, hs);
    }

    /** The trick loop of `play_round`, one `PlayTrickAt` per trick. */
    method PlayTricks(n: nat, trump: Trump, ghost hs: seq<Hand>)
      returns (tricks: map<Player, int>, ghost leads: seq<nat>, ghost winners: seq<Player>,
               ghost plays: seq<seq<Card>>, ghost leader: nat)
      requires Distinct(players) && |players| > 0 && n > 0 && RoundHands(players, hs, n)
      modifies hs
      ensures RoundHands(players, hs, 0)
      ensures RoundSoFar(players, n, n, leader, tricks, leads, winners)
      ensures WonBy(players, trump, leads, plays, winners)
    {
      tricks := map i | 0 <= i < |players| :: players[i] := 0;
      RoundBegins(players, n, tricks);
      leads := [];
      winners := [];
      plays := [];
      var leaderIndex: nat := 0;
      var t: nat := 0;
      while t < n
        invariant t <= n && RoundHands(players, hs, n - t)
        invariant RoundSoFar(players, n, t, leaderIndex, tricks, leads, winners)
        invariant WonBy(players, trump, leads, plays, winners)
      {
        leaderIndex, tricks, leads, winners, plays :=
          PlayTrickAt(n, t, trump, hs, leaderIndex, tricks, leads, winners, plays);
        t := t + 1;
      }
      leader := leaderIndex;
    }

    /** The cards of one trick of `play_round`, led by `ps[leader]`: a
        fresh trick to which each player of the list rotated to the leader
        adds a legal card. Every hand holds one card fewer. */
    static method RotatedPlay(ps: seq<Player>, leader: nat, size: nat, ghost hs: seq<Hand>)
      returns (trick: Trick<Player>)
      requires Distinct(ps) && leader < |ps| && size > 0 && RoundHands(ps, hs, size)
      modifies hs
      ensures RoundHands(ps, hs, size - 1)
      ensures fresh(trick) && trick.Valid() && trick.players == Rotate(ps, leader) && |trick.cards| == |ps|
    {
      var order := ps[leader..] + ps[..leader];
      ghost var ohs := Rotate(hs, leader);
      assert order == Rotate(ps, leader);
      RotatedHands(ps, hs, leader, size);
      trick := PlayCards(order, ohs, size);
      UnrotatedHands(ps, hs, leader, size - 1);
    }

    /** One trick of `play_round`: its cards played from the leader on,
        then resolved. The winner is one of its players. */
    static method RotatedTrick(ps: seq<Player>, leader: nat, size: nat, trump: Trump, ghost hs: seq<Hand>)
      returns (trick: Trick<Player>, winner: Player)
      requires Distinct(ps) && leader < |ps| && size > 0 && RoundHands(ps, hs, size)
      modifies hs
      ensures RoundHands(ps, hs, size - 1)
      ensures fresh(trick) && trick.players == Rotate(ps, leader) && |trick.cards| == |ps|
      ensures winner == trick.players[IndexOf(trick.cards, Best(trick.cards, trump))] && trick.winner == Some(winner)
      ensures winner in Rotate(ps, leader)
    {
      trick := RotatedPlay(ps, leader, size, hs);
      assert forall i :: 0 <= i < |ps| ==> ps[i] as object != trick && hs[i] as object != trick;
      winner := trick.Resolve(trump);
    }

    /** One pass of `play_round`'s trick loop: the trick is played in the
        order that starts at the leader, its winner is the player of its
        best card, leads next and gains a trick. */
    method PlayTrickAt(n: nat, t: nat, trump: Trump, ghost hs: seq<Hand>, leaderIndex: nat, tricks: map<Player, int>,
                       ghost leads: seq<nat>, ghost winners: seq<Player>, ghost plays: seq<seq<Card>>)
      returns (leaderIndex': nat, tricks': map<Player, int>, ghost leads': seq<nat>, ghost winners': seq<Player>,
               ghost plays': seq<seq<Card>>)
      requires Distinct(players) && t < n && RoundHands(players, hs, n - t)
      requires RoundSoFar(players, n, t, leaderIndex, tricks, leads, winners)
      requires WonBy(players, trump, leads, plays, winners)
      modifies hs
      ensures RoundHands(players, hs, n - t - 1)
      ensures RoundSoFar(players, n, t + 1, leaderIndex', tricks', leads', winners')
      ensures WonBy(players, trump, leads', plays', winners')
    {
      var trick, winner := RotatedTrick(players, leaderIndex, n - t, trump, hs);
      RoundStep(players, n, t, leaderIndex, tricks, leads, winners, winner);
      WonByStep(players, trump, leads, plays, winners, leaderIndex, trick.cards, winner);
      leaderIndex' := IndexOf(players, winner);
      tricks' := tricks[winner := tricks[winner] + 1];
      leads' := leads + [leaderIndex];
      winners' := winners + [winner];
      plays' := plays + [trick.cards];
    }
  }
}
