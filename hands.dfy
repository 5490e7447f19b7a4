/** contract_whist/hand.py and the identical `Hand` class in
    contract_whist/player.py (the copy game.py imports): the suit-grouped
    sort, the 0/1 legal-play mask and `pop`. */
module Hands {
  import opened Wrappers
  import opened Builtins
  import opened Cards

  // ------------------------------------------------------- specification

  /** The cards of suit `s`, in their order in `cards`. */
  function OfSuit(cards: seq<Card>, s: Suit): seq<Card>
  {
    if cards == [] then []
    else
      var rest := OfSuit(cards[..|cards| - 1], s);
      if cards[|cards| - 1].suit == s then rest + [cards[|cards| - 1]] else rest
  }

  /** The suits in order of first occurrence: the key order of the
      `defaultdict` that `sort_hand` fills. */
  function SuitOrder(cards: seq<Card>): seq<Suit>
  {
    if cards == [] then []
    else
      var rest := SuitOrder(cards[..|cards| - 1]);
      if cards[|cards| - 1].suit in rest then rest else rest + [cards[|cards| - 1].suit]
  }

  /** Insert `x` after every card whose value is not above its own. */
  function Insert(sorted: seq<Card>, x: Card): seq<Card>
  {
    if sorted == [] then [x]
    else if sorted[0].value > x.value then [x] + sorted
    else [sorted[0]] + Insert(sorted[1..], x)
  }

  /** Inserting adds exactly the one card. */
  lemma {:induction false} InsertPermutation(sorted: seq<Card>, x: Card)
    ensures multiset(Insert(sorted, x)) == multiset(sorted) + multiset{x}
    ensures |Insert(sorted, x)| == |sorted| + 1
  {
    if sorted != [] && sorted[0].value <= x.value {
      InsertPermutation(sorted[1..], x);
      assert sorted == [sorted[0]] + sorted[1..];
    }
  }

  /** `sorted` on cards of one suit, where `<` is the value order: a stable
      sort by value. */
  function SortByValue(cards: seq<Card>): seq<Card>
  {
    if cards == [] then []
    else Insert(SortByValue(cards[..|cards| - 1]), cards[|cards| - 1])
  }

  /** Sorting a suit group keeps its cards, with multiplicity. */
  lemma {:induction false} SortByValuePermutation(cards: seq<Card>)
    ensures multiset(SortByValue(cards)) == multiset(cards)
  {
    if cards != [] {
      SortByValuePermutation(cards[..|cards| - 1]);
      InsertPermutation(SortByValue(cards[..|cards| - 1]), cards[|cards| - 1]);
      assert cards == cards[..|cards| - 1] + [cards[|cards| - 1]];
    }
  }

  /** `reduce(add, map(sorted, groups))` over the given suits, left to right. */
  function GroupsOf(cards: seq<Card>, order: seq<Suit>): seq<Card>
  {
    if order == [] then []
    else GroupsOf(cards, order[..|order| - 1]) + SortByValue(OfSuit(cards, order[|order| - 1]))
  }

  /** What `sort_hand` returns for a non-empty hand. */
  function SortedHand(cards: seq<Card>): seq<Card>
  {
    GroupsOf(cards, SuitOrder(cards))
  }

  // --------------------------------------------------------------- sorting

  /** The first half of `sort_hand`: the loop that appends each card to its
      suit's list in a `defaultdict`, whose keys keep first-insertion order. */
  method GroupBySuit(cards: seq<Card>) returns (order: seq<Suit>, groups: map<Suit, seq<Card>>)
    ensures order == SuitOrder(cards)
    ensures forall s :: s in groups <==> s in order
    ensures forall s :: s in groups ==> groups[s] == OfSuit(cards, s)
  {
    order := [];
    groups := map[];
    var i := 0;
    while i < |cards|
      invariant 0 <= i <= |cards|
      invariant order == SuitOrder(cards[..i])
      invariant forall s :: s in groups <==> s in order
      invariant forall s :: s in groups ==> groups[s] == OfSuit(cards[..i], s)
    {
      var card := cards[i];
      assert cards[..i + 1] == cards[..i] + [card];
      GroupStep(cards[..i], card, order, groups);
      var group := if card.suit in groups then groups[card.suit] else [];
      if card.suit !in groups {
        order := order + [card.suit];
      }
      groups := groups[card.suit := group + [card]];
      i := i + 1;
    }
    assert cards[..i] == cards;
  }

  /** `sort_hand`: groups the cards by suit, then concatenates the sorted
      groups with `reduce(add, ...)`. `reduce` without an initial value fails
      on an empty hand, modelled as `None`. */
  method SortHand(cards: seq<Card>) returns (r: Option<seq<Card>>)
    ensures r.None? <==> cards == []
    ensures r.Some? ==> r.value == SortedHand(cards)
  {
    var order, groups := GroupBySuit(cards);
    assert cards != [] ==> order != [];
    if order == [] {
      r := None;
    } else {
      var acc := SortByValue(groups[order[0]]);
      var k := 1;
      GroupsOfPrefix(cards, order, 0);
      assert order[..0] == [];
      while k < |order|
        invariant 1 <= k <= |order|
        invariant acc == GroupsOf(cards, order[..k])
      {
        GroupsOfPrefix(cards, order, k);
        acc := acc + SortByValue(groups[order[k]]);
        k := k + 1;
      }
      assert order[..k] == order;
      r := Some(acc);
    }
  }

  /** One step of the `reduce`: the next suit's sorted group is appended. */
  lemma GroupsOfPrefix(cards: seq<Card>, order: seq<Suit>, k: nat)
    requires k < |order|
    ensures GroupsOf(cards, order[..k + 1]) == GroupsOf(cards, order[..k]) + SortByValue(OfSuit(cards, order[k]))
  {
    assert order[..k + 1][..k] == order[..k];
  }

  /** One iteration of the grouping loop: the suit order gains the card's
      suit if it is new, and only that suit's list grows. */
  lemma SortHandStep(prefix: seq<Card>, card: Card)
    ensures SuitOrder(prefix + [card]) ==
      if card.suit in SuitOrder(prefix) then SuitOrder(prefix) else SuitOrder(prefix) + [card.suit]
    ensures card.suit !in SuitOrder(prefix) ==> OfSuit(prefix, card.suit) == []
    ensures forall s :: (OfSuit(prefix + [card], s) ==
      if card.suit == s then OfSuit(prefix, s) + [card] else OfSuit(prefix, s))
  {
    assert (prefix + [card])[..|prefix|] == prefix;
    OfSuitMissing(prefix, card.suit);
  }

  /** The grouping loop's invariant survives one more card. */
  lemma GroupStep(prefix: seq<Card>, card: Card, order: seq<Suit>, groups: map<Suit, seq<Card>>)
    requires order == SuitOrder(prefix)
    requires forall s :: s in groups <==> s in order
    requires forall s :: s in groups ==> groups[s] == OfSuit(prefix, s)
    ensures
      var group := if card.suit in groups then groups[card.suit] else [];
      var order' := if card.suit in groups then order else order + [card.suit];
      var groups' := groups[card.suit := group + [card]];
      && order' == SuitOrder(prefix + [card])
      && (forall s :: s in groups' <==> s in order')
      && (forall s :: s in groups' ==> groups'[s] == OfSuit(prefix + [card], s))
  {
    SortHandStep(prefix, card);
  }

  lemma OfSuitMissing(cards: seq<Card>, s: Suit)
    ensures s !in SuitOrder(cards) ==> OfSuit(cards, s) == []
  {
    SuitOrderMembers(cards);
    OfSuitMembers(cards, s);
  }

  /** The hand holds a card of suit `s`. */
  predicate HoldsSuit(cards: seq<Card>, s: Suit)
  {
    exists i :: 0 <= i < |cards| && cards[i].suit == s
  }

  /** `SuitOrder` lists each suit of the hand once and nothing else. */
  lemma {:induction false} SuitOrderMembers(cards: seq<Card>)
    ensures forall s :: s in SuitOrder(cards) <==> HoldsSuit(cards, s)
    ensures Distinct(SuitOrder(cards))
  {
    if cards != [] {
      var t := cards[..|cards| - 1];
      SuitOrderMembers(t);
      forall s | s in SuitOrder(cards)
        ensures HoldsSuit(cards, s)
      {
        if s in SuitOrder(t) {
          var i :| 0 <= i < |t| && t[i].suit == s;
          assert cards[i] == t[i];
        } else {
          assert cards[|cards| - 1].suit == s;
        }
      }
      forall s | HoldsSuit(cards, s)
        ensures s in SuitOrder(cards)
      {
        var i :| 0 <= i < |cards| && cards[i].suit == s;
        if i < |t| {
          assert t[i] == cards[i];
        }
      }
    }
  }

  /** The suit filter keeps exactly the cards of that suit. */
  lemma {:induction false} OfSuitMembers(cards: seq<Card>, s: Suit)
    ensures forall c :: c in OfSuit(cards, s) ==> c.suit == s
    ensures forall x :: multiset(OfSuit(cards, s))[x] == if x.suit == s then multiset(cards)[x] else 0
    ensures OfSuit(cards, s) == [] <==> forall i :: 0 <= i < |cards| ==> cards[i].suit != s
  {
    if cards != [] {
      var t := cards[..|cards| - 1];
      var c := cards[|cards| - 1];
      OfSuitMembers(t, s);
      assert cards == t + [c];
      assert forall i :: 0 <= i < |t| ==> cards[i] == t[i];
      if c.suit == s {
        assert c in OfSuit(cards, s);
      }
    }
  }

  /** Sorting keeps the cards and puts the values in non-decreasing order. */
  lemma {:induction false} InsertSorted(sorted: seq<Card>, x: Card)
    requires forall i, j :: 0 <= i < j < |sorted| ==> sorted[i].value <= sorted[j].value
    ensures forall i, j :: 0 <= i < j < |Insert(sorted, x)| ==>
      Insert(sorted, x)[i].value <= Insert(sorted, x)[j].value
  {
    if sorted == [] {
    } else if sorted[0].value > x.value {
      PrependSorted(x, sorted);
    } else {
      var tail := sorted[1..];
      InsertSorted(tail, x);
      InsertPermutation(tail, x);
      var rest := Insert(tail, x);
      forall j | 0 <= j < |rest|
        ensures sorted[0].value <= rest[j].value
      {
        var y := rest[j];
        assert y in multiset(rest);
        assert y in multiset(tail) || y == x;
        if y in tail {
          var k :| 0 <= k < |tail| && tail[k] == y;
          assert sorted[k + 1] == y;
        }
      }
      PrependSorted(sorted[0], rest);
    }
  }

  /** A card no higher than every card of a sorted list can go in front. */
  lemma PrependSorted(x: Card, s: seq<Card>)
    requires forall i, j :: 0 <= i < j < |s| ==> s[i].value <= s[j].value
    requires forall j :: 0 <= j < |s| ==> x.value <= s[j].value
    ensures forall i, j :: 0 <= i < j < |[x] + s| ==> ([x] + s)[i].value <= ([x] + s)[j].value
  {
    var r := [x] + s;
    forall i, j | 0 <= i < j < |r|
      ensures r[i].value <= r[j].value
    {
      assert r[j] == s[j - 1];
      if i > 0 {
        assert r[i] == s[i - 1];
      }
    }
  }

  lemma {:induction false} SortByValueSorted(cards: seq<Card>)
    ensures forall i, j :: 0 <= i < j < |SortByValue(cards)| ==>
      SortByValue(cards)[i].value <= SortByValue(cards)[j].value
  {
    if cards != [] {
      SortByValueSorted(cards[..|cards| - 1]);
      InsertSorted(SortByValue(cards[..|cards| - 1]), cards[|cards| - 1]);
    }
  }

  /** Every card in a sorted suit group has that suit. */
  lemma SortedGroupSuit(cards: seq<Card>, s: Suit)
    ensures forall i :: 0 <= i < |SortByValue(OfSuit(cards, s))| ==> SortByValue(OfSuit(cards, s))[i].suit == s
  {
    OfSuitMembers(cards, s);
    SortByValuePermutation(OfSuit(cards, s));
    var g := SortByValue(OfSuit(cards, s));
    forall i | 0 <= i < |g|
      ensures g[i].suit == s
    {
      assert g[i] in multiset(g);
    }
  }

  // ----------------------------------------------------- sorting: the facts

  /** A hand is grouped: two cards of one suit have only that suit between them. */
  ghost predicate Contiguous(r: seq<Card>)
  {
    forall i, j, k :: 0 <= i < j < k < |r| && r[i].suit == r[k].suit ==> r[j].suit == r[i].suit
  }

  /** Each suit group ascends in value. */
  ghost predicate GroupsAscending(r: seq<Card>)
  {
    forall i, j :: 0 <= i < j < |r| && r[i].suit == r[j].suit ==> r[i].value <= r[j].value
  }

  /** Appending a one-suit group whose suit is new keeps a hand grouped,
      ascending within groups, and adds that suit at the end of the suit order. */
  lemma {:induction false} AppendGroup(x: seq<Card>, g: seq<Card>, s: Suit)
    requires Contiguous(x) && GroupsAscending(x)
    requires forall i :: 0 <= i < |x| ==> x[i].suit != s
    requires forall i :: 0 <= i < |g| ==> g[i].suit == s
    requires forall i, j :: 0 <= i < j < |g| ==> g[i].value <= g[j].value
    ensures Contiguous(x + g) && GroupsAscending(x + g)
  {
    var r := x + g;
    assert forall p :: 0 <= p < |x| ==> r[p] == x[p];
    assert forall p :: |x| <= p < |r| ==> r[p] == g[p - |x|];
  }

  /** The suit order of a hand followed by a non-empty group of a new suit. */
  lemma {:induction false} SuitOrderAppendGroup(x: seq<Card>, g: seq<Card>, s: Suit)
    requires s !in SuitOrder(x) && g != []
    requires forall i :: 0 <= i < |g| ==> g[i].suit == s
    ensures SuitOrder(x + g) == SuitOrder(x) + [s]
  {
    var h := g[..|g| - 1];
    assert (x + g)[..|x + g| - 1] == x + h;
    if h == [] {
      assert x + h == x;
    } else {
      SuitOrderAppendGroup(x, h, s);
    }
  }

  /** The suits of `order`, distinct and each present in the hand. */
  ghost predicate PresentSuits(cards: seq<Card>, order: seq<Suit>)
  {
    && Distinct(order)
    && forall k :: 0 <= k < |order| ==> HoldsSuit(cards, order[k])
  }

  lemma PresentSuitsFront(cards: seq<Card>, order: seq<Suit>)
    requires PresentSuits(cards, order) && order != []
    ensures PresentSuits(cards, order[..|order| - 1])
    ensures order[|order| - 1] !in order[..|order| - 1]
    ensures HoldsSuit(cards, order[|order| - 1])
  {
    var front := order[..|order| - 1];
    assert forall k :: 0 <= k < |front| ==> front[k] == order[k];
    forall a, b | 0 <= a < b < |front|
      ensures front[a] != front[b]
    {
      assert front[a] == order[a] && front[b] == order[b];
    }
    forall k | 0 <= k < |front|
      ensures HoldsSuit(cards, front[k])
    {
      assert front[k] == order[k];
      assert HoldsSuit(cards, order[k]);
    }
    assert Distinct(front);
    assert PresentSuits(cards, front);
  }

  /** The sorted suit group of a suit the hand holds: one suit, ascending,
      not empty. */
  lemma SortedGroupFacts(cards: seq<Card>, s: Suit)
    ensures forall i :: 0 <= i < |SortByValue(OfSuit(cards, s))| ==> SortByValue(OfSuit(cards, s))[i].suit == s
    ensures forall i, j :: 0 <= i < j < |SortByValue(OfSuit(cards, s))| ==>
      SortByValue(OfSuit(cards, s))[i].value <= SortByValue(OfSuit(cards, s))[j].value
    ensures HoldsSuit(cards, s) ==> SortByValue(OfSuit(cards, s)) != []
  {
    SortedGroupSuit(cards, s);
    SortByValueSorted(OfSuit(cards, s));
    OfSuitMembers(cards, s);
  }

  /** The groups hold only cards of the listed suits. */
  lemma {:induction false} GroupsOfSuits(cards: seq<Card>, order: seq<Suit>)
    ensures forall i :: 0 <= i < |GroupsOf(cards, order)| ==> GroupsOf(cards, order)[i].suit in order
  {
    if order != [] {
      var front := order[..|order| - 1];
      var s := order[|order| - 1];
      GroupsOfSuits(cards, front);
      SortedGroupSuit(cards, s);
      var x := GroupsOf(cards, front);
      var g := SortByValue(OfSuit(cards, s));
      var r := x + g;
      assert forall k :: 0 <= k < |front| ==> front[k] in order;
      forall p | 0 <= p < |r|
        ensures r[p].suit in order
      {
        if p < |x| {
          assert r[p] == x[p];
        } else {
          assert r[p] == g[p - |x|];
        }
      }
    }
  }

  /** The groups hold the hand's cards of the listed suits, with multiplicity. */
  lemma {:induction false} GroupsOfCards(cards: seq<Card>, order: seq<Suit>)
    requires Distinct(order)
    ensures forall x :: multiset(GroupsOf(cards, order))[x] == if x.suit in order then multiset(cards)[x] else 0
  {
    if order != [] {
      var front := order[..|order| - 1];
      var s := order[|order| - 1];
      assert Distinct(front);
      assert s !in front;
      GroupsOfCards(cards, front);
      OfSuitMembers(cards, s);
      SortByValuePermutation(OfSuit(cards, s));
      assert order == front + [s];
    }
  }

  /** The groups form a grouped hand, ascending within groups, whose suit
      order is `order`. */
  lemma {:induction false} GroupsOfShape(cards: seq<Card>, order: seq<Suit>)
    requires PresentSuits(cards, order)
    ensures Contiguous(GroupsOf(cards, order)) && GroupsAscending(GroupsOf(cards, order))
    ensures SuitOrder(GroupsOf(cards, order)) == order
  {
    if order != [] {
      var front := order[..|order| - 1];
      var s := order[|order| - 1];
      PresentSuitsFront(cards, order);
      GroupsOfShape(cards, front);
      GroupsOfSuits(cards, front);
      var x := GroupsOf(cards, front);
      var g := SortByValue(OfSuit(cards, s));
      SortedGroupFacts(cards, s);
      AppendGroup(x, g, s);
      SuitOrderAppendGroup(x, g, s);
      assert order == front + [s];
    }
  }

  lemma SuitOrderPresent(cards: seq<Card>)
    ensures PresentSuits(cards, SuitOrder(cards))
    ensures forall c :: c in cards ==> c.suit in SuitOrder(cards)
  {
    SuitOrderMembers(cards);
    var order := SuitOrder(cards);
    forall k | 0 <= k < |order|
      ensures HoldsSuit(cards, order[k])
    {
      assert order[k] in order;
    }
    forall c | c in cards
      ensures c.suit in order
    {
      var i :| 0 <= i < |cards| && cards[i] == c;
    }
  }

  /** `sort_hand` returns a rearrangement of the hand. */
  lemma SortedHandPermutation(cards: seq<Card>)
    ensures multiset(SortedHand(cards)) == multiset(cards)
  {
    SuitOrderPresent(cards);
    GroupsOfCards(cards, SuitOrder(cards));
    assert forall x :: x in cards ==> x.suit in SuitOrder(cards);
  }

  /** Same-suit cards are contiguous; the groups appear in the order of each
      suit's first occurrence in the input; values ascend within a group. */
  lemma SortedHandShape(cards: seq<Card>)
    ensures Contiguous(SortedHand(cards))
    ensures SuitOrder(SortedHand(cards)) == SuitOrder(cards)
    ensures GroupsAscending(SortedHand(cards))
  {
    SuitOrderPresent(cards);
    GroupsOfShape(cards, SuitOrder(cards));
  }

  /** With no repeated card in the hand, values strictly ascend within a group. */
  lemma SortedHandStrict(cards: seq<Card>)
    requires Distinct(cards)
    ensures forall i, j :: 0 <= i < j < |SortedHand(cards)| && SortedHand(cards)[i].suit == SortedHand(cards)[j].suit ==>
      SortedHand(cards)[i].value < SortedHand(cards)[j].value
  {
    var r := SortedHand(cards);
    SortedHandShape(cards);
    SortedHandPermutation(cards);
    DistinctPermutation(cards, r);
    forall i, j | 0 <= i < j < |r| && r[i].suit == r[j].suit
      ensures r[i].value < r[j].value
    {
      assert r[i].value <= r[j].value;
      assert r[i] != r[j];
    }
  }

  // ------------------------------------------------------------- legality

  /** The `suits` property: the set of suits in the hand. */
  function Suits(cards: seq<Card>): (r: set<Suit>)
    ensures forall s :: s in r <==> HoldsSuit(cards, s)
  {
    set i | 0 <= i < |cards| :: cards[i].suit
  }

  /** `playable(trick)`: all ones when leading or when the hand holds no card
      of the lead suit; otherwise 1 exactly at the lead-suit cards.
      `trickCards` and `leadSuit` are the trick's fields. */
  function Playable(cards: seq<Card>, trickCards: seq<Card>, leadSuit: Option<Suit>): (mask: seq<int>)
    ensures |mask| == |cards|
    ensures forall i :: 0 <= i < |mask| ==> mask[i] == 0 || mask[i] == 1
  {
    if |trickCards| == 0 then seq(|cards|, _ => 1)
    else if leadSuit.Some? && leadSuit.value in Suits(cards) then
      seq(|cards|, i requires 0 <= i < |cards| => if cards[i].suit == leadSuit.value then 1 else 0)
    else seq(|cards|, _ => 1)
  }

  /** Leading, or void in the lead suit: every card may be played. */
  lemma PlayableFree(cards: seq<Card>, trickCards: seq<Card>, leadSuit: Option<Suit>)
    requires |trickCards| == 0 || leadSuit.None? ||
             forall i :: 0 <= i < |cards| ==> cards[i].suit != leadSuit.value
    ensures forall i :: 0 <= i < |cards| ==> Playable(cards, trickCards, leadSuit)[i] == 1
  {
  }

  /** Holding the lead suit: exactly the lead-suit cards may be played. */
  lemma PlayableMustFollow(cards: seq<Card>, trickCards: seq<Card>, s: Suit)
    requires |trickCards| > 0
    requires HoldsSuit(cards, s)
    ensures forall i :: 0 <= i < |cards| ==>
      (Playable(cards, trickCards, Some(s))[i] == 1 <==> cards[i].suit == s)
  {
  }

  /** A non-empty hand always has a legal card. */
  lemma PlayableNonEmpty(cards: seq<Card>, trickCards: seq<Card>, leadSuit: Option<Suit>)
    requires |cards| > 0
    ensures exists i :: 0 <= i < |cards| && Playable(cards, trickCards, leadSuit)[i] == 1
    ensures 1 in Playable(cards, trickCards, leadSuit)
    ensures |Legal(cards, Playable(cards, trickCards, leadSuit))| > 0
  {
    var mask := Playable(cards, trickCards, leadSuit);
    var i: nat := 0;
    if |trickCards| > 0 && leadSuit.Some? && leadSuit.value in Suits(cards) {
      i :| 0 <= i < |cards| && cards[i].suit == leadSuit.value;
    }
    assert mask[i] == 1;
    assert cards[i] in Legal(cards, mask);
  }

  /** The cards whose mask entry is 1, in hand order (the comprehension
      `[card for i, card in enumerate(cards) if playable[i]]`). */
  function Legal(cards: seq<Card>, mask: seq<int>): (r: seq<Card>)
    requires |mask| == |cards|
    ensures forall c :: c in r <==> exists i :: 0 <= i < |cards| && mask[i] != 0 && cards[i] == c
    ensures multiset(r) <= multiset(cards) && |r| <= |cards|
  {
    if cards == [] then []
    else
      var rest := Legal(cards[..|cards| - 1], mask[..|mask| - 1]);
      assert forall i :: 0 <= i < |cards| - 1 ==> cards[..|cards| - 1][i] == cards[i] && mask[..|mask| - 1][i] == mask[i];
      assert cards == cards[..|cards| - 1] + [cards[|cards| - 1]];
      if mask[|mask| - 1] != 0 then rest + [cards[|cards| - 1]] else rest
  }

  /** The lead suit a trick holding `cards` has. */
  function LeadOf(cards: seq<Card>): Option<Suit>
  {
    if cards == [] then None else Some(cards[0].suit)
  }

  /** `card` was popped from a position of `before` whose `Playable` entry
      is 1, and `after` is what is left. */
  predicate PoppedLegal(before: seq<Card>, trickCards: seq<Card>, leadSuit: Option<Suit>, card: Card, after: seq<Card>)
  {
    exists p :: 0 <= p < |before| && Playable(before, trickCards, leadSuit)[p] == 1 &&
      card == before[p] && after == RemoveAt(before, p)
  }

  /** `card` went from a legal position of `before`, given the cards already
      in the trick, and `after` is what is left. */
  predicate LegalPlay(before: seq<Card>, trickSoFar: seq<Card>, after: seq<Card>, card: Card)
  {
    exists p :: 0 <= p < |before| && Playable(before, trickSoFar, LeadOf(trickSoFar))[p] == 1 &&
      card == before[p] && after == RemoveAt(before, p)
  }

  /** Python's index normalisation for `list.pop(index)`: a negative index
      counts from the end; `None` is the `IndexError`. */
  function PopPosition(length: nat, index: int): (p: Option<nat>)
    ensures p.Some? <==> -(length as int) <= index < length
    ensures p.Some? ==> p.value < length && (p.value == index || p.value == index + length)
  {
    if 0 <= index < length then Some(index)
    else if -(length as int) <= index < 0 then Some(index + length)
    else None
  }

  /** Removing one card keeps a hand grouped by suit and ascending within
      each suit. */
  lemma RemoveKeepsShape(s: seq<Card>, p: nat)
    requires p < |s| && Contiguous(s) && GroupsAscending(s)
    ensures Contiguous(RemoveAt(s, p)) && GroupsAscending(RemoveAt(s, p))
  {
    var r := RemoveAt(s, p);
    forall i | 0 <= i < |r|
      ensures r[i] == s[if i < p then i else i + 1]
    {
    }
  }

  /** A player's hand: its cards, kept in `sort_hand` order when dealt. */
  class Hand {
    var cards: seq<Card>

    /** The cards are grouped by suit and ascend within each suit, as
        `sort_hand` leaves them. */
    ghost predicate Valid()
      reads this
    {
      Contiguous(cards) && GroupsAscending(cards)
    }

    /** `Hand(cards)`: stores `sort_hand(cards)`, which needs a non-empty deal. */
    constructor (dealt: seq<Card>)
      requires |dealt| > 0
      ensures cards == SortedHand(dealt)
      ensures multiset(cards) == multiset(dealt)
      ensures Valid()
    {
      var sorted := SortHand(dealt);
      cards := sorted.value;
      new;
      SortedHandPermutation(dealt);
      SortedHandShape(dealt);
    }

    /** `len(hand)`. */
    function Size(): nat
      reads this
    {
      |cards|
    }

    /** `pop(index)`: removes and returns the card at `index`; the others keep
        their order. An index out of range raises `IndexError` (`None`) and
        leaves the hand alone. */
    method Pop(index: int) returns (card: Option<Card>)
      modifies this
      ensures card.Some? <==> PopPosition(|old(cards)|, index).Some?
      ensures card.Some? ==>
        var p := PopPosition(|old(cards)|, index).value;
        card.value == old(cards)[p] && cards == RemoveAt(old(cards), p)
      ensures card.None? ==> cards == old(cards)
      ensures old(Valid()) ==> Valid()
    {
      var p := PopPosition(|cards|, index);
      if p.Some? {
        if Valid() {
          RemoveKeepsShape(cards, p.value);
        }
        card := Some(cards[p.value]);
        cards := RemoveAt(cards, p.value);
      } else {
        card := None;
      }
    }
  }
}
