/** The Haskell hand evaluator and what its answer means. */
module HandEvaluator {
  import opened Cards

  datatype HandResult = HandResult(value: int, isSoft: bool, isBlackjack: bool, isBust: bool)

  function RankValue(r: Rank): nat {
    match r
    case Ace => 11
    case Two => 2
    case Three => 3
    case Four => 4
    case Five => 5
    case Six => 6
    case Seven => 7
    case Eight => 8
    case Nine => 9
    case Ten => 10
    case Jack => 10
    case Queen => 10
    case King => 10
    case HiddenRank => 0
  }

  function SumRanks(hand: seq<Card>): nat {
    if hand == [] then 0 else SumRanks(hand[..|hand| - 1]) + RankValue(hand[|hand| - 1].rank)
  }

  function AceCount(hand: seq<Card>): nat {
    if hand == [] then 0
    else AceCount(hand[..|hand| - 1]) + if hand[|hand| - 1].rank == Ace then 1 else 0
  }

  /** Counts aces down from 11 to 1 while the total is over 21;
      the second component is how many were counted down. */
  function ReduceAces(total: int, aces: nat, used: nat): (r: (int, nat))
    ensures used <= r.1 <= used + aces
    ensures r.0 == total - 10 * (r.1 - used)
    ensures r.0 > 21 ==> r.1 == used + aces
    ensures r.1 > used ==> r.0 + 10 > 21
    decreases aces
  {
    if aces == 0 then (total, used)
    else if total > 21 then ReduceAces(total - 10, aces - 1, used + 1)
    else (total, used)
  }

  function EvaluateHand(hand: seq<Card>): HandResult {
    var aceCount := AceCount(hand);
    var (total, used) := ReduceAces(SumRanks(hand), aceCount, 0);
    HandResult(total, used < aceCount && total <= 21, total == 21 && |hand| == 2, total > 21)
  }

  // ---- Totals with every ace counted as one ----

  function HardValue(r: Rank): nat {
    if r == Ace then 1 else RankValue(r)
  }

  function HardTotal(hand: seq<Card>): nat {
    if hand == [] then 0 else HardTotal(hand[..|hand| - 1]) + HardValue(hand[|hand| - 1].rank)
  }

  lemma {:induction false} HardTotalOfSums(hand: seq<Card>)
    ensures SumRanks(hand) == HardTotal(hand) + 10 * AceCount(hand)
    ensures AceCount(hand) <= HardTotal(hand)
  {
    if hand != [] {
      HardTotalOfSums(hand[..|hand| - 1]);
    }
  }

  lemma Append(hand: seq<Card>, c: Card)
    ensures HardTotal(hand + [c]) == HardTotal(hand) + HardValue(c.rank)
    ensures AceCount(hand + [c]) == AceCount(hand) + if c.rank == Ace then 1 else 0
    ensures SumRanks(hand + [c]) == SumRanks(hand) + RankValue(c.rank)
  {
    assert (hand + [c])[..|hand|] == hand;
  }

  /** The evaluator in closed form: one ace counts eleven exactly when there is
      one and that keeps the total within 21. */
  lemma Closed(hand: seq<Card>)
    ensures var soft := AceCount(hand) > 0 && HardTotal(hand) + 10 <= 21;
            && EvaluateHand(hand).isSoft == soft
            && EvaluateHand(hand).value == HardTotal(hand) + if soft then 10 else 0
  {
    HardTotalOfSums(hand);
  }

  // ---- Every way of counting the aces ----

  /** The total when `high[i]` says whether card i, if an ace, counts eleven. */
  function AssignedTotal(hand: seq<Card>, high: seq<bool>): nat
    requires |high| == |hand|
  {
    if hand == [] then 0
    else
      var n := |hand| - 1;
      AssignedTotal(hand[..n], high[..n])
      + if hand[n].rank == Ace then (if high[n] then 11 else 1) else RankValue(hand[n].rank)
  }

  function HighAces(hand: seq<Card>, high: seq<bool>): nat
    requires |high| == |hand|
  {
    if hand == [] then 0
    else
      var n := |hand| - 1;
      HighAces(hand[..n], high[..n]) + if hand[n].rank == Ace && high[n] then 1 else 0
  }

  lemma {:induction false} AssignmentBounds(hand: seq<Card>, high: seq<bool>)
    requires |high| == |hand|
    ensures AssignedTotal(hand, high) == HardTotal(hand) + 10 * HighAces(hand, high)
    ensures HighAces(hand, high) <= AceCount(hand)
  {
    if hand != [] {
      AssignmentBounds(hand[..|hand| - 1], high[..|hand| - 1]);
    }
  }

  lemma {:induction false} AssignmentExists(hand: seq<Card>, k: nat) returns (high: seq<bool>)
    requires k <= AceCount(hand)
    ensures |high| == |hand| && HighAces(hand, high) == k
  {
    if hand == [] {
      high := [];
    } else {
      var n := |hand| - 1;
      var take := hand[n].rank == Ace && k > 0;
      assert AceCount(hand) == AceCount(hand[..n]) + if hand[n].rank == Ace then 1 else 0;
      var rest := AssignmentExists(hand[..n], if take then k - 1 else k);
      high := rest + [take];
      assert high[..n] == rest && high[n] == take;
      assert HighAces(hand, high) == HighAces(hand[..n], rest) + if take then 1 else 0;
      hide HighAces, AceCount;
    }
  }

  /** The value is the largest total of at most 21 over all ways of counting the
      aces, or the smallest total when none fits. */
  lemma OptimalTotal(hand: seq<Card>)
    ensures exists high: seq<bool> ::
              |high| == |hand| && AssignedTotal(hand, high) == EvaluateHand(hand).value
    ensures forall high: seq<bool> | |high| == |hand| ::
              var t := AssignedTotal(hand, high);
              if EvaluateHand(hand).isBust then 21 < EvaluateHand(hand).value <= t
              else t <= EvaluateHand(hand).value <= 21 || t > 21
  {
    Closed(hand);
    var best := AssignmentExists(hand, if EvaluateHand(hand).isSoft then 1 else 0);
    AssignmentBounds(hand, best);
    forall high: seq<bool> | |high| == |hand|
      ensures var t := AssignedTotal(hand, high);
              if EvaluateHand(hand).isBust then 21 < EvaluateHand(hand).value <= t
              else t <= EvaluateHand(hand).value <= 21 || t > 21
    {
      AssignmentBounds(hand, high);
    }
  }

  /** A hand is soft exactly when the evaluator's total counts some ace as eleven,
      and then it counts exactly one so. */
  lemma SoftMeansOneHighAce(hand: seq<Card>)
    ensures EvaluateHand(hand).isSoft <==>
            exists high: seq<bool> :: |high| == |hand|
              && AssignedTotal(hand, high) == EvaluateHand(hand).value && HighAces(hand, high) > 0
    ensures forall high: seq<bool> | |high| == |hand| && AssignedTotal(hand, high) == EvaluateHand(hand).value ::
              HighAces(hand, high) == if EvaluateHand(hand).isSoft then 1 else 0
  {
    Closed(hand);
    forall high: seq<bool> | |high| == |hand| && AssignedTotal(hand, high) == EvaluateHand(hand).value
      ensures HighAces(hand, high) == if EvaluateHand(hand).isSoft then 1 else 0
    {
      AssignmentBounds(hand, high);
    }
    if EvaluateHand(hand).isSoft {
      var high := AssignmentExists(hand, 1);
      AssignmentBounds(hand, high);
    }
  }

  lemma TwoCardTotal(hand: seq<Card>)
    requires |hand| == 2
    ensures HardTotal(hand) == HardValue(hand[0].rank) + HardValue(hand[1].rank) <= 20
  {
    assert hand[..1] == [] + [hand[0]] && hand == hand[..1] + [hand[1]];
    Append([], hand[0]);
    Append(hand[..1], hand[1]);
  }

  /** Every natural is a soft hand, which the API's own example denies. */
  lemma NaturalIsSoft(hand: seq<Card>)
    requires EvaluateHand(hand).isBlackjack
    ensures EvaluateHand(hand).isSoft && EvaluateHand(hand).value == 21
  {
    Closed(hand);
    TwoCardTotal(hand);
  }

  predicate CountsTen(r: Rank) {
    r == Ten || r == Jack || r == Queen || r == King
  }

  /** A natural is an ace and a card that counts ten, in either order. */
  lemma NaturalExactly(hand: seq<Card>)
    ensures EvaluateHand(hand).isBlackjack <==>
            && |hand| == 2
            && ((hand[0].rank == Ace && CountsTen(hand[1].rank)) || (hand[1].rank == Ace && CountsTen(hand[0].rank)))
  {
    Closed(hand);
    if |hand| == 2 {
      TwoCardTotal(hand);
      TwoAces(hand);
      TenValued(hand[0].rank);
      TenValued(hand[1].rank);
    }
  }

  lemma TenValued(r: Rank)
    ensures HardValue(r) == 10 <==> CountsTen(r)
    ensures HardValue(r) == 1 <==> r == Ace
  {
  }

  lemma TwoAces(hand: seq<Card>)
    requires |hand| == 2
    ensures AceCount(hand) == (if hand[0].rank == Ace then 1 else 0) + if hand[1].rank == Ace then 1 else 0
  {
    assert hand[..1] == [] + [hand[0]] && hand == hand[..1] + [hand[1]];
    Append([], hand[0]);
    Append(hand[..1], hand[1]);
  }

  // ---- The order of the cards does not matter ----

  lemma {:induction false} RemoveAt(hand: seq<Card>, i: nat)
    requires i < |hand|
    ensures var rest := hand[..i] + hand[i + 1..];
            && SumRanks(hand) == SumRanks(rest) + RankValue(hand[i].rank)
            && AceCount(hand) == AceCount(rest) + if hand[i].rank == Ace then 1 else 0
    decreases |hand|
  {
    var n := |hand| - 1;
    var rest := hand[..i] + hand[i + 1..];
    if i == n {
      assert rest == hand[..n];
    } else {
      RemoveAt(hand[..n], i);
      assert rest[..n - 1] == hand[..n][..i] + hand[..n][i + 1..];
      assert rest[n - 1] == hand[n];
    }
  }

  lemma RestOfPermutation(a: seq<Card>, b: seq<Card>) returns (i: nat)
    requires multiset(a) == multiset(b) && a != []
    ensures i < |b| && b[i] == a[|a| - 1]
    ensures multiset(a[..|a| - 1]) == multiset(b[..i] + b[i + 1..])
  {
    var n := |a| - 1;
    var last := a[n];
    assert last in multiset(b);
    i :| 0 <= i < |b| && b[i] == last;
    assert a == a[..n] + [last];
    assert b == b[..i] + [last] + b[i + 1..];
    assert multiset(a[..n]) == multiset(a) - multiset{last};
    assert multiset(b[..i] + b[i + 1..]) == multiset(b) - multiset{last};
  }

  lemma {:induction false} SumsOfPermutation(a: seq<Card>, b: seq<Card>)
    requires multiset(a) == multiset(b)
    ensures SumRanks(a) == SumRanks(b) && AceCount(a) == AceCount(b) && |a| == |b|
    decreases |a|
  {
    assert |multiset(a)| == |a| && |multiset(b)| == |b|;
    if a != [] {
      var i := RestOfPermutation(a, b);
      SumsOfPermutation(a[..|a| - 1], b[..i] + b[i + 1..]);
      RemoveAt(b, i);
    }
  }

  lemma OrderIndependent(a: seq<Card>, b: seq<Card>)
    requires multiset(a) == multiset(b)
    ensures EvaluateHand(a) == EvaluateHand(b)
  {
    SumsOfPermutation(a, b);
  }
}
