/** The deck service: a shoe built, shuffled in place and dealt from the front. */
module Shoe {
  import opened Cards
  import opened HandEvaluator

  const SUITS: seq<Suit> := [Hearts, Diamonds, Clubs, Spades]
  const RANKS: seq<Rank> := [Ace, Two, Three, Four, Five, Six, Seven, Eight, Nine, Ten, Jack, Queen, King]

  function OfSuit(s: Suit, ranks: seq<Rank>): seq<Card> {
    if ranks == [] then [] else OfSuit(s, ranks[..|ranks| - 1]) + [Card(s, ranks[|ranks| - 1])]
  }

  function Deck(suits: seq<Suit>): seq<Card> {
    if suits == [] then [] else Deck(suits[..|suits| - 1]) + OfSuit(suits[|suits| - 1], RANKS)
  }

  function Decks(count: nat): seq<Card> {
    if count == 0 then [] else Decks(count - 1) + Deck(SUITS)
  }

  lemma {:induction false} OfSuitCounts(s: Suit, ranks: seq<Rank>, c: Card)
    ensures multiset(OfSuit(s, ranks))[c] == if c.suit == s then multiset(ranks)[c.rank] else 0
  {
    if ranks != [] {
      var n := |ranks| - 1;
      OfSuitCounts(s, ranks[..n], c);
      assert ranks == ranks[..n] + [ranks[n]];
    }
  }

  predicate Distinct<T(==)>(items: seq<T>) {
    forall i, j :: 0 <= i < j < |items| ==> items[i] != items[j]
  }

  lemma {:induction false} DistinctCounts<T>(items: seq<T>, x: T)
    requires Distinct(items)
    ensures multiset(items)[x] == if x in items then 1 else 0
  {
    if items != [] {
      var n := |items| - 1;
      DistinctCounts(items[..n], x);
      assert items == items[..n] + [items[n]];
    }
  }

  function PlaceOf(r: Rank): nat {
    match r
    case Ace => 0
    case Two => 1
    case Three => 2
    case Four => 3
    case Five => 4
    case Six => 5
    case Seven => 6
    case Eight => 7
    case Nine => 8
    case Ten => 9
    case Jack => 10
    case Queen => 11
    case King => 12
    case HiddenRank => 13
  }

  lemma RankAt(i: nat)
    requires i < 13
    ensures PlaceOf(RANKS[i]) == i
  {
  }

  lemma RankPlaced(r: Rank)
    ensures r == HiddenRank || RANKS[PlaceOf(r)] == r
  {
  }

  lemma RanksDistinct()
    ensures |RANKS| == 13
    ensures forall i, j :: 0 <= i < j < |RANKS| ==> RANKS[i] != RANKS[j]
  {
    assert |RANKS| == 13;
    hide RANKS, PlaceOf;
    forall i, j | 0 <= i < j < |RANKS| ensures RANKS[i] != RANKS[j] {
      RankAt(i);
      RankAt(j);
    }
  }

  lemma RankIsDealt(r: Rank)
    ensures r in RANKS <==> r != HiddenRank
  {
    RankPlaced(r);
  }

  lemma RankCounts(r: Rank)
    ensures multiset(RANKS)[r] == if r == HiddenRank then 0 else 1
  {
    hide RANKS;
    RanksDistinct();
    DistinctCounts(RANKS, r);
    RankIsDealt(r);
  }

  lemma SuitCounts(s: Suit)
    ensures multiset(SUITS)[s] == if s == HiddenSuit then 0 else 1
  {
    DistinctCounts(SUITS, s);
    assert SUITS[0] == Hearts && SUITS[1] == Diamonds && SUITS[2] == Clubs && SUITS[3] == Spades;
  }

  /** Numbered in the order they are dealt into a deck, a card counts its number, a
      court card ten, and an ace eleven or one. */
  lemma CardsCountPips(i: nat)
    requires i < |RANKS|
    ensures RankValue(RANKS[i]) == if i == 0 then 11 else if i < 10 then i + 1 else 10
    ensures HardValue(RANKS[i]) == if i < 10 then i + 1 else 10
  {
  }

  lemma {:induction false} DeckCounts(suits: seq<Suit>, c: Card)
    ensures multiset(Deck(suits))[c] == if c.rank == HiddenRank then 0 else multiset(suits)[c.suit]
  {
    hide RANKS, OfSuit;
    if suits != [] {
      var n := |suits| - 1;
      var front, last := Deck(suits[..n]), OfSuit(suits[n], RANKS);
      DeckCounts(suits[..n], c);
      OfSuitCounts(suits[n], RANKS, c);
      RankCounts(c.rank);
      assert Deck(suits) == front + last;
      hide Deck;
      assert multiset(front + last)[c] == multiset(front)[c] + multiset(last)[c];
      assert suits == suits[..n] + [suits[n]];
    }
  }

  /** A shoe of n decks holds every real card n times and no other card. */
  lemma {:induction false} DecksCount(count: nat, c: Card)
    ensures multiset(Decks(count))[c] == if Real(c) then count else 0
  {
    hide RANKS, SUITS, Deck;
    if count > 0 {
      DecksCount(count - 1, c);
      DeckCounts(SUITS, c);
      SuitCounts(c.suit);
    }
  }

  lemma PermutedDecksAreReal(cards: seq<Card>, count: nat)
    requires multiset(cards) <= multiset(Decks(count))
    ensures AllReal(cards)
  {
    forall i | 0 <= i < |cards| ensures Real(cards[i]) {
      DecksCount(count, cards[i]);
      assert cards[i] in multiset(cards);
    }
  }

  lemma RealParts(a: seq<Card>, b: seq<Card>)
    requires AllReal(a + b)
    ensures AllReal(a) && AllReal(b)
  {
    assert forall i :: 0 <= i < |a| ==> (a + b)[i] == a[i];
    assert forall i :: 0 <= i < |b| ==> (a + b)[|a| + i] == b[i];
  }

  // ---- Shuffling ----

  function Swapped<T>(s: seq<T>, i: nat, j: nat): (t: seq<T>)
    requires i < |s| && j < |s|
    ensures |t| == |s|
  {
    s[i := s[j]][j := s[i]]
  }

  /** One choice for each place: itself or one before it. */
  predicate Choices(picks: seq<nat>) {
    forall i :: 0 <= i < |picks| ==> picks[i] <= i
  }

  /** From the last place down, each is swapped with the one chosen for it. */
  function Shuffled<T>(s: seq<T>, picks: seq<nat>): (t: seq<T>)
    requires Choices(picks) && |picks| <= |s|
    ensures |t| == |s| && t[|picks|..] == s[|picks|..]
    decreases |picks|
  {
    if picks == [] then s
    else
      var n := |picks| - 1;
      Shuffled(Swapped(s, n, picks[n]), picks[..n])
  }

  lemma SwappedEnd<T>(s: seq<T>, n: nat, j: nat)
    requires j <= n < |s|
    ensures Swapped(s, n, j)[n..] == [s[j]] + s[n + 1..]
    ensures multiset(Swapped(s, n, j)) == multiset(s)
  {
  }

  lemma {:induction false} ShuffledKeeps<T>(s: seq<T>, picks: seq<nat>)
    requires Choices(picks) && |picks| <= |s|
    ensures multiset(Shuffled(s, picks)) == multiset(s)
    decreases |picks|
  {
    if picks != [] {
      var n := |picks| - 1;
      SwappedEnd(s, n, picks[n]);
      ShuffledKeeps(Swapped(s, n, picks[n]), picks[..n]);
      hide Swapped;
    }
  }

  /** The item that belongs in place n is in it or before it. */
  lemma PickFor<T>(s: seq<T>, t: seq<T>, n: nat) returns (j: nat)
    requires n < |s| == |t| && multiset(s) == multiset(t) && s[n + 1..] == t[n + 1..]
    ensures j <= n && s[j] == t[n]
  {
    FrontCards(s, t, n + 1);
    assert t[..n + 1][n] in multiset(s[..n + 1]);
    j :| 0 <= j < n + 1 && s[..n + 1][j] == t[n];
  }

  lemma FrontCards<T>(s: seq<T>, t: seq<T>, k: nat)
    requires k <= |s| == |t| && multiset(s) == multiset(t) && s[k..] == t[k..]
    ensures multiset(s[..k]) == multiset(t[..k])
  {
    assert s == s[..k] + s[k..] && t == t[..k] + t[k..];
    assert multiset(s[..k]) == multiset(s) - multiset(s[k..]) && multiset(t[..k]) == multiset(t) - multiset(t[k..]);
  }

  lemma EndSplit<T>(t: seq<T>, n: nat)
    requires n < |t|
    ensures t[n..] == [t[n]] + t[n + 1..]
  {
  }

  /** Some choices lead to any order there is. */
  lemma {:induction false} EveryOrderReached<T>(s: seq<T>, t: seq<T>, k: nat) returns (picks: seq<nat>)
    requires k <= |s| == |t| && multiset(s) == multiset(t) && s[k..] == t[k..]
    ensures |picks| == k && Choices(picks) && Shuffled(s, picks) == t
    decreases k
  {
    if k == 0 {
      picks := [];
      assert s == s[0..] && t == t[0..];
    } else {
      hide Swapped;
      var n := k - 1;
      var j := PickFor(s, t, n);
      SwappedEnd(s, n, j);
      EndSplit(t, n);
      var rest := EveryOrderReached(Swapped(s, n, j), t, n);
      picks := rest + [j];
      assert picks[..n] == rest;
    }
  }

  /** And for items that differ only one sequence of choices does, so that all orders are
      equally likely when all choices are. */
  lemma {:induction false} OneWayToEach<T>(s: seq<T>, picks: seq<nat>, other: seq<nat>)
    requires Choices(picks) && Choices(other) && |picks| == |other| <= |s|
    requires Distinct(s) && Shuffled(s, picks) == Shuffled(s, other)
    ensures picks == other
    decreases |picks|
  {
    hide Distinct, Swapped;
    if picks != [] {
      var n := |picks| - 1;
      LastPlace(s, picks);
      LastPlace(s, other);
      StillDistinct(s, n, picks[n]);
      SamePlace(s, picks[n], other[n]);
      OneWayToEach(Swapped(s, n, picks[n]), picks[..n], other[..n]);
      assert picks == picks[..n] + [picks[n]] && other == other[..n] + [other[n]];
    }
  }

  lemma LastPlace<T>(s: seq<T>, picks: seq<nat>)
    requires Choices(picks) && 0 < |picks| <= |s|
    ensures var n := |picks| - 1; Shuffled(s, picks)[n] == s[picks[n]]
  {
    var n := |picks| - 1;
    var t := Swapped(s, n, picks[n]);
    assert Shuffled(t, picks[..n])[n..][0] == t[n..][0];
  }

  lemma StillDistinct<T>(s: seq<T>, i: nat, j: nat)
    requires i < |s| && j < |s| && Distinct(s)
    ensures Distinct(Swapped(s, i, j))
  {
  }

  lemma SamePlace<T>(s: seq<T>, i: nat, j: nat)
    requires i < |s| && j < |s| && Distinct(s) && s[i] == s[j]
    ensures i == j
  {
  }

  method Shuffle(a: array<Card>, picks: seq<nat>)
    requires Choices(picks) && |picks| == a.Length
    modifies a
    ensures a[..] == Shuffled(old(a[..]), picks)
  {
    hide Choices;
    var i := a.Length - 1;
    assert picks[..i + 1] == picks;
    while i > 0
      invariant -1 <= i < a.Length && Choices(picks[..i + 1])
      invariant Shuffled(a[..], picks[..i + 1]) == Shuffled(old(a[..]), picks)
    {
      ghost var before, left := a[..], picks[..i + 1];
      ChosenBefore(picks, i);
      var j := picks[i];
      a[i], a[j] := a[j], a[i];
      assert a[..] == Swapped(before, i, j);
      assert left[..i] == picks[..i] && left[i] == j;
      hide Swapped;
      i := i - 1;
    }
    FirstStays(a[..], picks[..i + 1]);
  }

  lemma ChosenBefore(picks: seq<nat>, i: nat)
    requires i < |picks| && Choices(picks[..i + 1])
    ensures picks[i] <= i && Choices(picks[..i])
  {
    assert picks[..i + 1][i] == picks[i] && picks[..i + 1][..i] == picks[..i];
  }

  lemma FirstStays<T>(s: seq<T>, picks: seq<nat>)
    requires Choices(picks) && |picks| <= 1 && |picks| <= |s|
    ensures Shuffled(s, picks) == s
  {
    if picks != [] {
      assert Shuffled(s, picks) == Shuffled(Swapped(s, 0, 0), []);
    }
  }

  lemma OneMoreCard(before: seq<Card>, s: Suit, r: nat)
    requires r < |RANKS|
    ensures before + OfSuit(s, RANKS[..r]) + [Card(s, RANKS[r])] == before + OfSuit(s, RANKS[..r + 1])
  {
    assert RANKS[..r + 1][..r] == RANKS[..r];
    assert OfSuit(s, RANKS[..r + 1]) == OfSuit(s, RANKS[..r]) + [Card(s, RANKS[r])];
  }

  lemma OneMoreSuit(before: seq<Card>, s: nat)
    requires s < |SUITS|
    ensures before + Deck(SUITS[..s]) + OfSuit(SUITS[s], RANKS[..|RANKS|]) == before + Deck(SUITS[..s + 1])
  {
    assert RANKS[..|RANKS|] == RANKS;
    assert SUITS[..s + 1][..s] == SUITS[..s];
    assert Deck(SUITS[..s + 1]) == Deck(SUITS[..s]) + OfSuit(SUITS[s], RANKS);
  }

  lemma NothingYet(before: seq<Card>, s: Suit)
    ensures before + OfSuit(s, RANKS[..0]) == before && before + Deck(SUITS[..0]) == before
  {
  }

  method BuildDecks(deckCount: nat) returns (cards: seq<Card>)
    ensures cards == Decks(deckCount)
  {
    cards := [];
    for d := 0 to deckCount
      invariant cards == Decks(d)
    {
      NothingYet(cards, Hearts);
      for s := 0 to |SUITS|
        invariant cards == Decks(d) + Deck(SUITS[..s])
      {
        hide Deck, OfSuit, Decks;
        ghost var before := cards;
        NothingYet(before, SUITS[s]);
        for r := 0 to |RANKS|
          invariant cards == before + OfSuit(SUITS[s], RANKS[..r])
        {
          OneMoreCard(before, SUITS[s], r);
          cards := cards + [Card(SUITS[s], RANKS[r])];
        }
        OneMoreSuit(Decks(d), s);
      }
      assert SUITS[..|SUITS|] == SUITS;
    }
  }

  class Shoe {
    var cards: seq<Card>
    const deckCount: nat
    ghost var shuffled: seq<Card>
    ghost var dealt: seq<Card>

    /** What was dealt, followed by what remains, is the shuffled shoe in order, and
        that is a permutation of the decks. */
    ghost predicate Valid()
      reads this
    {
      dealt + cards == shuffled && multiset(shuffled) == multiset(Decks(deckCount))
    }

    constructor (deckCount: nat, picks: seq<nat>)
      requires Choices(picks) && |picks| == |Decks(deckCount)|
      ensures Valid() && dealt == [] && this.deckCount == deckCount && cards == Shuffled(Decks(deckCount), picks)
    {
      var built := BuildDecks(deckCount);
      var a := new Card[|built|](i requires 0 <= i < |built| => built[i]);
      assert a[..] == built;
      Shuffle(a, picks);
      ShuffledKeeps(built, picks);
      this.deckCount := deckCount;
      cards := a[..];
      shuffled := a[..];
      dealt := [];
    }

    /** Deals from the front, and as many cards as are left when there are too few. */
    method Deal(count: nat) returns (hand: seq<Card>)
      requires Valid()
      modifies this
      ensures Valid() && shuffled == old(shuffled)
      ensures hand + cards == old(cards) && |hand| == if count <= |old(cards)| then count else |old(cards)|
      ensures dealt == old(dealt) + hand
      ensures AllReal(hand) && AllReal(cards)
    {
      hide AllReal, Decks;
      hand := [];
      var i := 0;
      while i < count && |cards| > 0
        invariant i == |hand| <= count
        invariant hand + cards == old(cards)
        invariant dealt == old(dealt) + hand && shuffled == old(shuffled)
      {
        assert hand + cards == hand + [cards[0]] + cards[1..];
        hand := hand + [cards[0]];
        dealt := dealt + [cards[0]];
        cards := cards[1..];
        i := i + 1;
      }
      assert dealt + cards == old(dealt) + (hand + cards);
      StillReal();
      RealParts(old(dealt), hand);
    }

    lemma StillReal()
      requires dealt + cards == shuffled && multiset(shuffled) == multiset(Decks(deckCount))
      ensures AllReal(dealt) && AllReal(cards)
    {
      hide Decks, AllReal;
      assert multiset(shuffled) == multiset(dealt) + multiset(cards);
      PermutedDecksAreReal(dealt, deckCount);
      PermutedDecksAreReal(cards, deckCount);
    }
  }
}
