# Contract whist, modelled in Dafny

This project models the core of `contract_whist`, an engine for contract whist. In this card game every player bids the number of tricks they expect to take, and the dealer, who bids last, may not make the bids add up to the number of tricks available. The model covers:

- the cards: the trump-aware comparison, the singleton registry that numbers them, and the deck with its shuffle-and-round-robin deal;
- the trick and how it resolves its winner;
- the hand, sorted into suit groups, with its mask of playable cards and its `pop`;
- the players: the base bookkeeping, the heuristic and random strategies, and the data-recording player;
- the state-vector encoders;
- the game: the round schedule, the trump cycle, bidding with the dealer's forbidden bid, and the trick loop, whose leader is the previous trick's winner.

| module | file | source |
|---|---|---|
| `Wrappers` | wrappers.dfy | `Option`/`Result` for Python's `None` and exceptions |
| `Builtins` | builtins.dfy | `range`, `sum`, `max`, `list.index`, `list.pop` |
| `Cards` | cards.dfy | contract_whist/cards.py |
| `OldDeck` | olddeck.dfy | contract_whist/deck.py, which game.py imports |
| `Tricks` | tricks.dfy | contract_whist/trick.py |
| `Hands` | hands.dfy | contract_whist/hand.py and the `Hand` class of contract_whist/player.py (the same code) |
| `Players` | players.dfy | contract_whist/players/player.py |
| `Heuristic` | heuristic.dfy | contract_whist/players/heuristic_player.py |
| `RandomStrategy` | randomplayer.dfy | contract_whist/players/random_player.py |
| `Vectors` | vectors.dfy | contract_whist/data/vector.py |
| `DataPlayers` | dataplayers.dfy | contract_whist/players/data_player.py |
| `Whist` | game.dfy | contract_whist/game.py, with the console `Player` of contract_whist/player.py |

The form follows the source:
- Cards are values (a `datatype`).
- The objects whose fields the source updates are classes with `modifies` clauses: the index registry, the decks, the trick, the hand, the players and the game.
- The loops (`sort_hand`, `winning_card`, `get_card_vector`, `evaluate_hand`, `max_losing_card`, `get_bids`, `play_round`) are `while` and `for` loops. Their methods are proved against functions that specify them, and the properties of those functions are proved as lemmas.

Trump is passed explicitly as an `Option<Suit>` (`Trump`). The source keeps it in the class attribute `Card.TRUMP`.

How the model departs from the source:
- **Card values.** cards.py numbers values 2..14 (the `IntEnum` starts at 2), while deck.py numbers them 1..13. Both are modelled: `Cards.FullDeck(LOWEST_VALUE)` and `OldDeck.Deck`.
- **The game's deck.** game.py uses deck.py's `Deck`. Its deal guard is strict (`<`), so a full 13-card, 4-player deal is refused.
- **Bidding.** The docstring of `get_bids` says that the bids may not add up to the total tricks available. The code offers `range(len(hands) + 1)`, where `len(hands)` is the number of players, and subtracts the bids from that same number. The model has both:
  - `Whist.Game.GetBidsAsWritten`, which follows the code;
  - `Whist.Game.GetBids`, which uses the number of tricks as meant. The round (`BidAndPlay`) uses this one.

  See "## Findings".

## Model

| member | source | states |
|---|---|---|
| Builtins.Range | contract_whist/cards.py:71 | `range(start, stop, step)` stays within its bounds in the step's direction |
| Builtins.RangeSteps | contract_whist/cards.py:71 | an ascending `range` with m steps holds exactly start, start+step, …, start+(m-1)·step |
| Builtins.RangeMembers | contract_whist/game.py:30 | `range(n)` holds exactly the integers 0 … n−1 |
| Builtins.Max | contract_whist/players/heuristic_player.py:36-37 | `max` of a non-empty list is an element of it and no element exceeds it |
| Builtins.IndexOf | contract_whist/game.py:67 | `list.index` gives a position holding the value, with none earlier |
| Builtins.RemoveAt | contract_whist/hand.py:37-38 | `pop(i)` leaves the list shifted down past i, one shorter, and the multiset less the popped value |
| Builtins.Pick | contract_whist/cards.py:71 | the comprehension `[cards[i] for i in positions]` takes each listed position in order |
| Cards.SuitIndex | contract_whist/cards.py:8 | every suit has its position in `SUITS` |
| Cards.Less | contract_whist/cards.py:35-43 | defines `__lt__` branch by branch: a trump never loses to another suit, any card loses to a trump of another suit, other suits are unordered, one suit compares values. `LessCases`, `LessStrict`, `LessSameSuit`, `TrumpBeatsOtherSuits` and `UnrelatedSuits` prove what it implies |
| Cards.Greater | contract_whist/cards.py:45-46 | defines `__gt__` as the negation of `__lt__`, not as the converse; `LessStrict` proves it reflexive |
| Cards.LessSameSuit | contract_whist/cards.py:35-43 | within one suit `<` is the value order, whatever the trump |
| Cards.TrumpBeatsOtherSuits | contract_whist/cards.py:36-39 | a trump beats a card of another suit and never loses to one |
| Cards.UnrelatedSuits | contract_whist/cards.py:40-41 | two cards of different non-trump suits are not ordered either way |
| Cards.LessStrict | contract_whist/cards.py:35-46 | `<` is irreflexive and asymmetric, so `__gt__` (its negation) is reflexive |
| Cards.LessCases | contract_whist/cards.py:35-43 | a card loses exactly to a higher card of its suit, or to a trump when it is not one |
| Cards.ParseTrumpExactly | contract_whist/cards.py:48-53 | `set_trump` accepts exactly the four suit names and `None`, each read back as the suit it names |
| Cards.ParseTrump | contract_whist/cards.py:49-53 | defines the membership test of `set_trump`: a suit name or `None` is read, anything else is refused; `ParseTrumpExactly` proves which arguments pass |
| Cards.TrumpState.SetTrump | contract_whist/cards.py:48-53 | accepted exactly for a suit name or `None`, which becomes the trump; otherwise an error with the trump unchanged |
| Cards.Registry.Instance | contract_whist/cards.py:20-25 | a known pair gets its index back with nothing changed; a new pair gets the counter's next value and is recorded; the registry stays dense |
| Cards.FullDeck | contract_whist/cards.py:58 | the suit-major comprehension has 52 cards |
| Cards.FullDeckPositions | contract_whist/cards.py:58 | the k-th card of the deck is the card whose suit-major rank is k, and every in-range card is at its rank |
| Cards.FullDeckMembers | contract_whist/cards.py:58 | a card is in the deck exactly when its value is in range |
| Cards.FullDeckOrdered | contract_whist/cards.py:58 | the deck runs suit by suit in `SUITS` order, values ascending, with no card twice |
| Cards.CardIndex | contract_whist/cards.py:23 | a card's `index` after the first deck is built is a slot below 52 |
| Cards.CardIndexRoundTrip | contract_whist/cards.py:23 | `CardIndex` and the deck are inverse bijections between the 52 cards and the slots 0..51 |
| Cards.Deal | contract_whist/cards.py:70-73 | the round-robin comprehension gives one hand per player |
| Cards.RoundRobinRange | contract_whist/cards.py:71 | `range(j, m·n, n)` holds j, j+n, …, j+(m−1)·n |
| Cards.DealHand | contract_whist/cards.py:70-73 | hand j has num_cards cards, and card k of it is the shuffled card at j + k·n |
| Cards.DealAt | contract_whist/cards.py:70-73 | card k of hand j is the shuffled card at j + k·n, a position below m·n |
| Cards.DealCovers | contract_whist/cards.py:70-73 | every one of the first m·n shuffled cards is dealt, to hand i mod n |
| Cards.DealFromPrefix | contract_whist/cards.py:70-73 | every dealt card is among the first m·n shuffled cards |
| Cards.DealDisjoint | contract_whist/cards.py:70-73 | from a deck without repeats, two different slots of the deal hold different cards |
| Cards.Deck.constructor | contract_whist/cards.py:57-58 | the deck is the 52 cards suit-major, all registered; on a fresh registry a card's index is its deck position |
| Cards.Deck.BuildCards | contract_whist/cards.py:58 | the comprehension registers the deck cards in order, each with its position as index on a fresh registry |
| Cards.Deck.Length | contract_whist/cards.py:63-64 | `len(deck)` is 52 |
| Cards.CanDeal | contract_whist/cards.py:68 | defines the inclusive deal guard: a positive card count, a positive player count, and a total at most the deck size; `ShuffleAndDeal` deals exactly when it holds |
| Cards.Deck.ShuffleAndDeal | contract_whist/cards.py:66-73 | the deal happens exactly when the inclusive guard holds. Then the deck is a permutation of itself and the hands are the round robin of it. Otherwise it returns `None` with the deck untouched |
| Cards.DeckCardsDistinct | contract_whist/cards.py:69 | a shuffled deck still holds each of the 52 cards once |
| OldDeck.OldAceIsThirteen | contract_whist/deck.py:4-6 | deck.py's values run 1..13, so its ace is 13 |
| OldDeck.StrictBoundRefusesFullDeal | contract_whist/deck.py:50 | the strict guard refuses 13 cards to each of 4 players, which cards.py allows, and admits nothing cards.py refuses |
| OldDeck.CanDealStrict | contract_whist/deck.py:50 | defines deck.py's strict guard, `total_cards < len(cards)`; `StrictBoundRefusesFullDeal` compares it with cards.py's |
| OldDeck.Deck.constructor | contract_whist/deck.py:42-43 | the 52 cards suit-major under the older numbering |
| OldDeck.Deck.ShuffleAndDeal | contract_whist/deck.py:48-55 | as cards.py's, with the guard `total_cards < len(cards)` |
| Tricks.Best | contract_whist/trick.py:55-65 | the winning card is one of the cards |
| Tricks.BestCharacterized | contract_whist/trick.py:55-65 | with a trump played, the fold returns the highest trump; otherwise the highest card of the first card's suit |
| Tricks.BestSuit | contract_whist/trick.py:55-65 | the winner is of the led suit or a trump, and no card of those suits played beats it |
| Tricks.BestAfterBeatingAll | contract_whist/trick.py:62-64 | a card that beats every card before it wins |
| Tricks.Trick.constructor | contract_whist/trick.py:16-21 | empty lists, no lead suit, no winner |
| Tricks.Trick.AddCard | contract_whist/trick.py:29-38 | both lists grow by the pair; the first card fixes the lead suit, later ones keep it |
| Tricks.Trick.WinningCard | contract_whist/trick.py:55-65 | the loop returns `Best` of the cards |
| Tricks.Trick.Resolve | contract_whist/trick.py:40-53 | the winner is the player at the first position of the winning card, and is stored |
| Tricks.ScenarioClubLed | contract_whist/trick.py:55-65 | club-led, no trump: the ace of clubs wins over a discarded diamond |
| Tricks.ScenarioLoneTrump | contract_whist/trick.py:55-65 | a single low trump takes a trick led by the ace of clubs |
| Hands.InsertPermutation | contract_whist/hand.py:20 | inserting into a sorted group adds exactly that card |
| Hands.SortByValuePermutation | contract_whist/hand.py:20 | `sorted` of a suit group keeps its cards with multiplicity |
| Hands.SortByValue | contract_whist/hand.py:20 | defines `sorted` of a one-suit group, where `<` is the value order (`LessSameSuit`), as insertion in order; `SortByValuePermutation` and `SortByValueSorted` prove it a sorted rearrangement |
| Hands.GroupBySuit | contract_whist/hand.py:17-19 | the grouping loop yields the suits in order of first occurrence, each mapped to its cards in hand order |
| Hands.SortHand | contract_whist/hand.py:15-20 | `sort_hand` fails (`reduce` of an empty sequence) exactly on an empty deal, otherwise returns `SortedHand` |
| Hands.SortedHand | contract_whist/hand.py:15-20 | defines the result of `sort_hand` on a non-empty deal: the suit groups in order of first occurrence, each sorted by value; `SortedHandPermutation`, `SortedHandShape` and `SortedHandStrict` prove what it is |
| Hands.SortHandStep | contract_whist/hand.py:18-19 | one appended card adds its suit at the end of the key order if new, and joins its own group only |
| Hands.GroupStep | contract_whist/hand.py:18-19 | the grouping loop's invariant survives one more card |
| Hands.SuitOrderMembers | contract_whist/hand.py:17-20 | the dict's keys are each suit the hand holds, once |
| Hands.OfSuitMembers | contract_whist/hand.py:19 | a suit group holds exactly the hand's cards of that suit |
| Hands.InsertSorted | contract_whist/hand.py:20 | inserting keeps a group in ascending value order |
| Hands.SortByValueSorted | contract_whist/hand.py:20 | `sorted` leaves a group in ascending value order |
| Hands.GroupsOfCards | contract_whist/hand.py:20 | the concatenated groups hold the hand's cards of the listed suits, with multiplicity |
| Hands.GroupsOfShape | contract_whist/hand.py:20 | the concatenation is grouped by suit, ascending within groups, in the listed suit order |
| Hands.SortedHandPermutation | contract_whist/hand.py:15-20 | `sort_hand` returns a rearrangement of the hand |
| Hands.SortedHandShape | contract_whist/hand.py:15-20 | same-suit cards are contiguous, the groups appear in order of each suit's first card, values ascend within a group |
| Hands.SortedHandStrict | contract_whist/hand.py:15-20 | with no repeated card, values strictly ascend within a group |
| Hands.Suits | contract_whist/hand.py:22-24 | the `suits` set holds exactly the suits of the hand's cards |
| Hands.Playable | contract_whist/hand.py:26-35 | the mask has one 0/1 entry per card |
| Hands.PlayableFree | contract_whist/hand.py:27-29 | leading, or void in the lead suit: every card is playable |
| Hands.PlayableMustFollow | contract_whist/hand.py:30-32 | holding the lead suit: a card is playable exactly when it is of that suit |
| Hands.PlayableNonEmpty | contract_whist/hand.py:26-35 | a non-empty hand always has a playable card |
| Hands.Legal | contract_whist/players/heuristic_player.py:45 | the playable-cards comprehension holds exactly the cards at mask-1 positions and is a sub-multiset of the hand (the body keeps hand order; the contract does not state it) |
| Hands.PopPosition | contract_whist/hand.py:37-38 | an index is accepted exactly in −len .. len−1, and negative ones count from the end |
| Hands.Hand.constructor | contract_whist/hand.py:9-10 | the hand stores `sort_hand` of the dealt cards, a rearrangement of them, grouped by suit and ascending in each group (`Valid`) |
| Hands.Hand.Pop | contract_whist/hand.py:37-38 | in range: returns the card at the normalised position and removes it; out of range: `IndexError` with the hand unchanged. A grouped, ascending hand stays so |
| Hands.RemoveKeepsShape | contract_whist/hand.py:37-38 | removing any one card from a grouped hand ascending in each group leaves it grouped and ascending |
| Players.Player.constructor | contract_whist/players/player.py:12-19 | name set; no points, no hand, no contract, no tricks, nothing seen |
| Players.Player.UpdateTrickResult | contract_whist/players/player.py:21-28 | the count rises by one exactly when this player won; the trick's cards are appended to those seen |
| Players.Player.RoundReset | contract_whist/players/player.py:30-37 | contract, trick count and cards seen are cleared, nothing else changes |
| Players.Player.UpdateScore | contract_whist/players/player.py:39-44 | a round reset, then the score added to the points |
| Heuristic.RoundHalfEven | contract_whist/players/heuristic_player.py:34 | Python's `round` lands within a half of the score; on a tie it is even |
| Heuristic.RoundUnique | contract_whist/players/heuristic_player.py:34 | that integer is the only one within a half of the score and even on a tie |
| Heuristic.HandScore | contract_whist/players/heuristic_player.py:96-104 | defines the score `evaluate_hand` computes, the trump and high-card weighted sums over 10; `HandScorePermutation`, `LowCardsScoreNothing` and `ScoreExample` prove its properties, and `EvaluateHand` computes it |
| Heuristic.WeightedTotalPermutation | contract_whist/players/heuristic_player.py:96-104 | the weighted sums depend only on which cards are held |
| Heuristic.HandScorePermutation | contract_whist/players/heuristic_player.py:96-104 | the hand's score does not depend on the order of its cards |
| Heuristic.LowCardsScoreNothing | contract_whist/players/heuristic_player.py:99-103 | a hand of non-trumps at or below the cutoff scores 0 |
| Heuristic.ClosestPosition | contract_whist/players/heuristic_player.py:40-41 | `diffs.index(min(diffs))` is the first option at the least distance |
| Heuristic.ChooseBid | contract_whist/players/heuristic_player.py:32-41 | the bid is an option. It is the rounded score when that is offered, and the largest option when the rounded score is above them all. Otherwise it is the nearest option, the first one listed on a tie |
| Heuristic.ScoreExample | contract_whist/players/heuristic_player.py:96-104 | clubs trump, 1.05/0.35/6: ace of clubs, nine of diamonds and two of spades score 1.785 and bid 2 |
| Heuristic.MaxFacePosition | contract_whist/players/heuristic_player.py:77-78 | the stable reverse sort's first card is the first card of the highest value |
| Heuristic.MinFacePosition | contract_whist/players/heuristic_player.py:80-81 | the stable sort's first card is the first card of the lowest value |
| Heuristic.SortedLast | contract_whist/players/heuristic_player.py:84 | what is known of `sorted(playable_cards)[-1]` under a comparison that is not a total order: one of the cards, and the highest value when they share a suit |
| Heuristic.CanWin | contract_whist/players/heuristic_player.py:83-86 | the sorted maximum is returned exactly when every trick card is below it, and it then takes the trick |
| Heuristic.MaxLosingCard | contract_whist/players/heuristic_player.py:88-94 | the first listed card that would not win the trick; when every one would win, the last |
| Heuristic.HeuristicPlayer.constructor | contract_whist/players/heuristic_player.py:20-30 | the three parameters stored, and a fresh base player |
| Heuristic.HeuristicPlayer.EvaluateHand | contract_whist/players/heuristic_player.py:96-104 | the loop computes `HandScore`: trumps at value × trump multiplier, other cards above the cutoff at multiplier × value, all over 10 |
| Heuristic.HeuristicPlayer.MakeBid | contract_whist/players/heuristic_player.py:32-41 | the bid is `ChooseBid` of the hand's score, an offered option |
| Heuristic.HeuristicPlayer.PlayCard | contract_whist/players/heuristic_player.py:43-75 | the card follows the decision tree (`FollowsHeuristic`) and is popped from a playable position of the hand (`PoppedLegal`) |
| Heuristic.PopChoice | contract_whist/players/heuristic_player.py:50-75 | the chosen legal card is popped from `playable.index(1)` when it is the only choice, else from `hand.cards.index(card)`, in both cases a playable position |
| Heuristic.FollowsHeuristic | contract_whist/players/heuristic_player.py:43-75 | defines the decision tree over the legal cards: the only one; leading, the first highest or, once the contract is met, the first lowest; following, a card that loses whenever one can once the contract is met, else the sorted maximum when it beats every trick card and the first lowest otherwise |
| Heuristic.ChooseCard | contract_whist/players/heuristic_player.py:43-75 | the choice is legal and follows the decision tree: the only legal card when there is one; leading, the first highest card, or the first lowest once the contract is met; following short of the contract, the sorted maximum when it beats every trick card, else the first lowest; once the contract is met, a card that loses whenever one can |
| Heuristic.FollowToWin | contract_whist/players/heuristic_player.py:67-75 | following short of the contract: when no legal card beats the whole trick the first lowest is played; when the legal cards share a suit and one beats the whole trick, the card played is the highest of them and beats the whole trick |
| Heuristic.ScenarioFollowWithAce | contract_whist/players/heuristic_player.py:67-69 | holding the three and the ace of clubs against a led ten of clubs, no trump, contract not met: the ace is played |
| Heuristic.LoseIfPossible | contract_whist/players/heuristic_player.py:88-94 | over any rearrangement of the legal cards, the choice loses the trick whenever some legal card would |
| Heuristic.LegalFirstPosition | contract_whist/players/heuristic_player.py:55 | `hand.cards.index(card)` of a legal card is a playable position |
| RandomStrategy.RandomPlayer.constructor | contract_whist/players/random_player.py:7 | the base player's fresh state |
| RandomStrategy.RandomPlayer.MakeBid | contract_whist/players/random_player.py:9-10 | the bid is one of the options |
| RandomStrategy.RandomPlayer.PlayCard | contract_whist/players/random_player.py:12-15 | the card is popped from some playable position (`PoppedLegal`); the hand is one card shorter |
| Vectors.SlotValue | contract_whist/data/vector.py:42-44 | defines what the loop leaves in one slot: 0 when no card has that index, 2 for the leading card of an ordered list that no later card overwrites, 1 otherwise; `CardSlotsDecode` and `CardSlotsWeights` prove what it encodes |
| Vectors.CardSlots | contract_whist/data/vector.py:36-45 | the encoding has 52 slots |
| Vectors.CardVector | contract_whist/data/vector.py:36-45 | the loop over the cards produces `CardSlots` |
| Vectors.CardSlotsDecode | contract_whist/data/vector.py:36-45 | a slot is non-zero exactly when a listed card has that index; the non-zero slots decode to the listed cards |
| Vectors.CardSlotsWeights | contract_whist/data/vector.py:40-44 | with no repeated card, the first card's slot is 2 when ordered and 1 otherwise, and every other listed card's slot is 1 |
| Vectors.TrumpVector | contract_whist/data/vector.py:74-80 | four 0/1 entries, a 1 exactly at the trump's suit |
| Vectors.TrumpVectorRoundTrip | contract_whist/data/vector.py:74-80 | the trump is read back from its encoding |
| Vectors.Nums | contract_whist/data/vector.py:26-33 | the integer entries as numbers, entry by entry |
| Vectors.ContractEntry | contract_whist/data/vector.py:30 | the contract's entry is `None` exactly when no bid has been made, otherwise the bid |
| Vectors.GameStateVector | contract_whist/data/vector.py:12-33 | the 164 entries: hand, seen and ordered trick encodings, the contract (`None` before a bid), count, proportion, total, trump |
| DataPlayers.RecordsDecode | contract_whist/players/data_player.py:23-42 | a recorded state gives back the hand, the seen cards, the trick (leading card weighted 2), the contract or its absence, and the trump |
| DataPlayers.DataPlayer.constructor | contract_whist/players/data_player.py:10-20 | empty lists, then the heuristic player's state |
| DataPlayers.DataPlayer.GenerateVector | contract_whist/players/data_player.py:23-42 | the 163-entry state vector of the player's view, with `None` as the contract before a bid |
| DataPlayers.DataPlayer.RoundReset | contract_whist/players/data_player.py:63-66 | both lists emptied, then the base reset |
| DataPlayers.DataPlayer.UpdateScore | contract_whist/players/player.py:39-44 | the overriding reset empties the lists too, then the score is added |
| DataPlayers.DataPlayer.PlayCard | contract_whist/players/data_player.py:68-72 | the state before the play is recorded, the heuristic card is played (`FollowsHeuristic`, `PoppedLegal`) and its index recorded after, so the two lists stay in step |
| DataPlayers.DataPlayer.PlayAndAppend | contract_whist/players/data_player.py:69-71 | the heuristic card is played from the hand and both lists grow by one: the given state vector and the card's index |
| DataPlayers.DataPlayer.Append | contract_whist/players/data_player.py:69-71 | both appends: each list one entry longer, still in step |
| DataPlayers.PoppedDeckCard | contract_whist/players/data_player.py:71 | a card popped from a hand of deck cards has an `index` |
| Whist.RoundsSchedule | contract_whist/game.py:18 | the schedule is 7, 5, 3, 1, 2, 4, 6, and the strict deal guard admits every round for up to 7 players |
| Whist.Rounds | contract_whist/game.py:18 | defines `list(range(7, 0, -2)) + list(range(2, 8, 2))`; `RoundsSchedule` proves it is 7, 5, 3, 1, 2, 4, 6 |
| Whist.TrumpCycleRepeats | contract_whist/game.py:11 | the cycle yields club, diamond, heart, spade, no trump, and repeats every 5 |
| Whist.TrumpCycle | contract_whist/game.py:11 | defines the i-th value of `cycle(SUITS + (None,))`; `TrumpCycleRepeats` proves its order and period |
| Whist.OfferedMembers | contract_whist/game.py:30 | the offered bids are exactly 0 … total |
| Whist.Offered | contract_whist/game.py:30 | defines `set(range(total + 1))`; `OfferedMembers` proves it is 0 … total |
| Whist.DealerOptions | contract_whist/game.py:35-37 | defines the dealer's options, the offered bids less the forbidden one when it is non-negative; `DealerBidAvoidsTotal` proves they avoid the total and, for a total of at least 1, are never empty |
| Whist.DealerBidAvoidsTotal | contract_whist/game.py:35-37 | the dealer may bid exactly the bids in 0 … total that do not make the bids add up to the total; for a total of at least 1 one such bid exists; a non-negative forbidden bid is always offered, so `options.remove` cannot raise `KeyError` |
| Whist.PlayerCountBoundAdmitsMatchingBid | contract_whist/game.py:30-37 | bounding by the player count, the dealer may bring the bids to the number of tricks |
| Whist.Rotate | contract_whist/game.py:63 | defines `players[i:] + players[:i]`; `RotateFacts` proves it starts at the leader and holds each player once |
| Whist.RotateFacts | contract_whist/game.py:63 | the rotated order starts at the leader and holds each player once |
| Whist.NewLeader | contract_whist/game.py:73-75 | defines `new_leader` as the rotation at the winner's first position; `NewLeaderFacts` proves its properties |
| Whist.NewLeaderFacts | contract_whist/game.py:72-75 | `new_leader` starts at the winner and reorders the players |
| Whist.TotalIncrement | contract_whist/game.py:68 | one more trick for a listed player raises the total by one |
| Whist.TotalZero | contract_whist/game.py:57 | the initial all-zero tally totals 0 |
| Whist.ZipFacts | contract_whist/game.py:31-38 | the bids dictionary has exactly the players as keys, each bound to that player's bid |
| Whist.BidsAvoidTotal | contract_whist/game.py:24-39 | bids in 0 … total with the dealer's from its options never add up to the total |
| Whist.BidStep | contract_whist/game.py:32-38 | one more bid in range, avoiding the forbidden bid when it is the dealer's, keeps the bidding invariant |
| Whist.BidsDone | contract_whist/game.py:24-39 | after the loop every player has exactly one bid, in range, and the bids do not add up to the total |
| Whist.BidAt | contract_whist/game.py:35-38 | the options are unchanged before the dealer; the dealer's excludes the forbidden bid when it is non-negative, a removal shown to find the bid among the options when the earlier bids are non-negative |
| Whist.GiveHand | contract_whist/game.py:34 | the player gets a new hand of the sorted dealt cards |
| Whist.HandsDone | contract_whist/game.py:32-34 | after the loop every player holds their own sorted hand, no two sharing one |
| Whist.GiveHandAt | contract_whist/game.py:34 | one turn's hand assignment extends the hands-given invariant |
| Whist.BiddingDone | contract_whist/game.py:24-39 | the bids as in `BidsDone`, and every player holds their own sorted hand |
| Whist.BidTurn | contract_whist/game.py:32-38 | one pass of `get_bids`' loop keeps the whole bidding state |
| Whist.PromptBid | contract_whist/player.py:50-58 | the prompt loop returns an offered bid |
| Whist.PromptCard | contract_whist/player.py:60-71 | the prompt loop pops a card from a playable position |
| Whist.PlaysStep | contract_whist/game.py:63-64 | a legal play by the next player extends the trick's record of legal plays |
| Whist.PlayTurn | contract_whist/game.py:64 | one `add_card(player, player.play_card(trick))` keeps the trick state with one more legal play |
| Whist.TrickDone | contract_whist/game.py:63-64 | after the inner loop every player of the order has made one legal play and holds one card fewer |
| Whist.WinsStep | contract_whist/game.py:68 | one more trick won by the winner counts for the winner alone |
| Whist.LeaderOf | contract_whist/game.py:59-67 | the leader index is 0 before the first trick and then the previous winner's position |
| Whist.TallyStep | contract_whist/game.py:68 | the tally stays the per-player win count, with total one higher |
| Whist.LeadsStep | contract_whist/game.py:63-67 | the next leader is the index of the trick's winner |
| Whist.RoundStep | contract_whist/game.py:60-68 | one trick of the outer loop keeps the round invariant |
| Whist.RoundBegins | contract_whist/game.py:57-59 | the all-zero tally and leader 0 satisfy the round invariant before the first trick |
| Whist.WonByStep | contract_whist/game.py:62-66 | one more trick, whose winner is the player of its winning card in the rotated order, extends the record of who won each trick from which cards |
| Whist.RoundDone | contract_whist/game.py:57-70 | at the end the tally covers exactly the players, counts each one's wins and totals n. The first trick is led from the list's start and every later one from the previous winner, in `new_leader` order |
| Whist.Game.constructor | contract_whist/game.py:14-18 | the players, no bids, the round schedule |
| Whist.Game.NumPlayers | contract_whist/game.py:20-22 | the number of players |
| Whist.Game.GetBids | contract_whist/game.py:24-39 | with the number of tricks as bound: every player holds their own sorted hand and has one bid in range, and the bids do not add up to the number of tricks |
| Whist.Game.BidLoop | contract_whist/game.py:32-38 | the loop establishes the bidding state for all players, with fresh hands |
| Whist.Game.GetBidsAsWritten | contract_whist/game.py:24-39 | as written: the dealer's bid is taken from options bounded by the number of players |
| Whist.Game.PlayCards | contract_whist/game.py:62-64 | each player of the order adds one legal card from their own hand, which loses that card |
| Whist.Game.CardsLoop | contract_whist/game.py:63-64 | the inner loop reaches the trick state after the last player |
| Whist.Game.DealHands | contract_whist/game.py:53 | after the bids each player holds a fresh hand of n cards, no two sharing one |
| Whist.Game.BidAndPlay | contract_whist/game.py:53-70 | the bids, then n tricks with the tally, leaders and winners as `RoundDone` states, each winner the player of its trick's winning card (`WonBy`), and every hand emptied |
| Whist.Game.PlayTricks | contract_whist/game.py:57-70 | the trick loop ends with the round invariant for all n tricks, each winner the player of its trick's winning card, and empty hands |
| Whist.Game.RotatedPlay | contract_whist/game.py:62-64 | the trick's players are the list rotated to the leader, and every hand is one card shorter |
| Whist.Game.RotatedTrick | contract_whist/game.py:62-66 | as `RotatedPlay`, then the winner is the player of the winning card, one of the trick's players |
| Whist.Game.PlayTrickAt | contract_whist/game.py:60-68 | one pass of the outer loop keeps the round invariant and hands one card shorter, and records the trick's cards with its winner as the player of the winning card |
| Whist.Game.PlayRound | contract_whist/game.py:41-70 | an unknown trump is an error with the trump unchanged; a refused deal is an error with the new trump set. Either error leaves the deck and every player's hand untouched. Otherwise: the trump set, a tally keyed by exactly the players that counts each one's wins and totals the number of tricks, the leader rotation of `RoundDone`, each trick's winner the player of its winning card under the trump (`WonBy`), and every hand emptied |

## Left out

- Printing, logging and `__repr__`/`__str__` are left out. The console prompts of contract_whist/player.py are modelled as an unconstrained choice among the allowed values (`PromptBid`, `PromptCard`). A player who never types an allowed value would make the loop run forever; that is not modelled.
- `shuffle` and `random.choice` are modelled as arbitrary choices (`:|`). Their uniformity is not modelled.
- Floating point is modelled as exact `real` arithmetic, so rounding of binary floats is not captured. `RoundHalfEven` rounds the exact value.
- game.py:32 reads a global `players` that the module only binds under `__main__`. The model reads the game's own list.
- game.py:62 calls `Trick(trump)`, but `Trick.__init__` takes no argument. The model builds `Trick()` and passes the trump to `Resolve`.
- contract_whist/player.py:62 calls `trick.cards.values()` on a list; the print is not modelled.
- The game's players are the console `Player` of contract_whist/player.py, as game.py imports it. Plugging in the strategy classes is not modelled.
- Inheritance (`HeuristicPlayer`, `DataPlayer`, `RandomPlayer` from `Player`) is modelled by composition, as a `base` field.
- Heuristic.LoseIfPossible: `hand.sort_by_value`, used by `max_losing_card`, is defined nowhere in the repository, so `MaxLosingCard` takes the ordering as a parameter and `LoseIfPossible` quantifies over every rearrangement of the legal cards. The name `max_losing_card`, the message at heuristic_player.py:59 and the comment at :93 suggest a value order: the highest-value card that loses, or the lowest card when none loses. The model promises only some losing card when one exists, and any legal card otherwise.
- Heuristic.SortedLast: `can_win` sorts with the trump-aware `<`, which is not a total order, so which card `sorted(...)[-1]` gives is stated only as one of the cards, the highest when they share a suit. The decision tree still plays that card whenever it beats every trick card, and the first lowest otherwise.
- `trick_proportion`, `total` and `trick_fraction` are read from hand attributes that nothing defines. They are parameters.
- data_player.py's `get_trump_vector` wraps the list in `np.ndarray(...)`, which reads the list as a shape, not as contents. The model records the list.
- State vectors are lists of `Entry` values: a number, or `Null` for the `None` that `self.contract` holds before a bid. What numpy would make of that `None` is not modelled.
- `self.DECK` in data_player.py is not defined on `HeuristicPlayer`. Its length is taken to be 52.
- `Game.CONTRACT_BONUS` is never used, and scoring a round is not part of game.py.
- `Game.SUIT_ORDER` is never consumed by game.py; `TrumpCycle` models the cycle it would yield.
- The class attribute `Game.DECK` is a per-game field.
- The iteration order of Python sets is a parameter (`options` as a `seq<int>`).
- `decode_vector` and `print_card_vector` only print; they are left out.
- deck.py's `Card` has no registry, and deck.py's `set_trump` is the same code as cards.py's; both reuse the `Cards` definitions.
- `Whist.Game.GetBids` and the round require the players to be distinct. The game's dictionaries are keyed by player, so repeated players would merge their entries.
- The players' hands during a round are ghost parameters (`hs`) that name the `Hand` objects, and the leaders of the tricks are ghost indices (`leads`). What is proved of each trick's legal plays is stated at the `PlayCards` level.
- Whist.Game.PlayRound: does not state each trick's legal plays in its own contract. `PlayCards` proves them per trick; the round's contract keeps the counts, the leaders, the cards of each trick with its winner (`WonBy`) and the emptied hands.
- Whist.Game.GetBidsAsWritten: states only the shape of the bids and the dealer's options, since this is the variant the round does not use.

## Findings

| source | as written | input that shows it | evidently intended | confidence | as-written member | corrected member |
|---|---|---|---|---|---|---|
| contract_whist/game.py:30-36 | the bid options and the forbidden dealer bid are computed from `len(hands)`, the number of players | 4 players, 7 tricks, earlier bids 1, 2, 2: the dealer may bid 2, and the bids then add up to the 7 tricks available | the bound is the number of tricks in the round, as the docstring says (the sum of the bids cannot match the total tricks) | not executed | Whist.PlayerCountBoundAdmitsMatchingBid | Whist.Game.GetBids |
