/** The table's dealer loop: it draws while the evaluated hand is below 17 and takes
    no notice of what the dealer AI answers. */
module DealerLoop {
  import opened Cards
  import opened HandEvaluator
  import DealerAI

  /** The next card of the shoe, or the card the table makes up when it is empty. */
  function Draw(shoe: seq<Card>, fallback: Card): (Card, seq<Card>) {
    if shoe == [] then (fallback, []) else (shoe[0], shoe[1..])
  }

  const DEALER_FALLBACK := Card(Spades, Three)

  /** The dealer's final hand and the shoe that is left. A soft hand can fall in value
      when it draws, so the measure is the total with aces counted as one. */
  function DealerDraw(hand: seq<Card>, shoe: seq<Card>): (seq<Card>, seq<Card>)
    decreases |shoe|, 17 - HardTotal(hand)
  {
    if EvaluateHand(hand).value >= 17 then (hand, shoe)
    else
      var (c, rest) := Draw(shoe, DEALER_FALLBACK);
      Closed(hand);
      Append(hand, c);
      DealerDraw(hand + [c], rest)
  }

  /** No more than this many cards follow: each draw below a soft total of seventeen
      either stays soft, stands, or turns the ace to one for good. */
  function DrawBudget(hand: seq<Card>): int {
    var h := HardTotal(hand);
    if h > 16 then 0
    else if AceCount(hand) > 0 then (if h <= 6 then 12 - h else if h <= 11 then 0 else 17 - h)
    else if h <= 10 then (23 - h) / 2
    else 17 - h
  }

  lemma BudgetFalls(hand: seq<Card>, c: Card)
    requires Real(c) && hand != [] && AllReal(hand) && EvaluateHand(hand).value < 17
    ensures 0 <= DrawBudget(hand + [c]) < DrawBudget(hand)
  {
    Closed(hand);
    Append(hand, c);
    HardTotalOfSums(hand);
    HardAtLeastOne(hand);
    assert 1 <= HardValue(c.rank) <= 10 && (c.rank != Ace ==> 2 <= HardValue(c.rank));
  }

  lemma {:induction false} HardAtLeastOne(hand: seq<Card>)
    requires AllReal(hand)
    ensures HardTotal(hand) >= |hand|
    ensures AceCount(hand) == 0 ==> HardTotal(hand) >= 2 * |hand|
  {
    if hand != [] {
      assert Real(hand[|hand| - 1]);
      HardAtLeastOne(hand[..|hand| - 1]);
    }
  }

  /** For every shoe the loop ends within the budget at a total from 17 to 26, and every
      hand it shows the dealer AI on the way would be answered with a hit. */
  lemma {:induction false} DealerDrawBounds(hand: seq<Card>, shoe: seq<Card>)
    requires AllReal(hand) && AllReal(shoe) && hand != [] && EvaluateHand(hand).value <= 26
    ensures var (final, rest) := DealerDraw(hand, shoe);
            && hand <= final && AllReal(final) && AllReal(rest)
            && |final| - |hand| <= DrawBudget(hand)
            && 17 <= EvaluateHand(final).value <= 26
            && (forall k :: |hand| <= k < |final| ==>
                  EvaluateHand(final[..k]).value < 17 && DealerAI.DecisionFor(final[..k]).action == DealerAI.Hit)
    decreases |shoe|, 17 - HardTotal(hand)
  {
    hide EvaluateHand;
    Closed(hand);
    if EvaluateHand(hand).value < 17 {
      var (c, rest) := Draw(shoe, DEALER_FALLBACK);
      Append(hand, c);
      Closed(hand + [c]);
      LoopFollowsAI(hand);
      hide DealerAI.DecisionFor;
      BudgetFalls(hand, c);
      DealerDrawBounds(hand + [c], rest);
      var final := DealerDraw(hand, shoe).0;
      assert final[..|hand|] == hand;
    } else {
      BudgetNotNegative(hand);
    }
  }

  /** The cards drawn are the shoe's next ones in order, and threes of spades when it has
      run out. */
  predicate DrawnInOrder(hand: seq<Card>, shoe: seq<Card>, final: seq<Card>, left: seq<Card>) {
    && hand <= final && left == (if |final| - |hand| <= |shoe| then shoe[|final| - |hand|..] else [])
    && (forall k :: |hand| <= k < |final| ==>
          final[k] == if k - |hand| < |shoe| then shoe[k - |hand|] else Card(Spades, Three))
  }

  lemma {:induction false} DrawsInOrder(hand: seq<Card>, shoe: seq<Card>)
    ensures var (final, left) := DealerDraw(hand, shoe); DrawnInOrder(hand, shoe, final, left)
    decreases |shoe|, 17 - HardTotal(hand)
  {
    hide EvaluateHand;
    if EvaluateHand(hand).value < 17 {
      hide DrawnInOrder;
      var (c, rest) := Draw(shoe, DEALER_FALLBACK);
      Closed(hand);
      Append(hand, c);
      DrawsInOrder(hand + [c], rest);
      var (final, left) := DealerDraw(hand, shoe);
      OneDrawn(hand, shoe, final, left);
    }
  }

  lemma OneDrawn(hand: seq<Card>, shoe: seq<Card>, final: seq<Card>, left: seq<Card>)
    requires var (c, rest) := Draw(shoe, DEALER_FALLBACK); DrawnInOrder(hand + [c], rest, final, left)
    ensures DrawnInOrder(hand, shoe, final, left)
  {
    var (c, rest) := Draw(shoe, DEALER_FALLBACK);
    assert (hand + [c])[|hand|] == c && (hand + [c])[..|hand|] == hand;
    forall k | |hand| <= k < |final|
      ensures final[k] == if k - |hand| < |shoe| then shoe[k - |hand|] else Card(Spades, Three)
    {
      if k > |hand| && k - |hand| - 1 < |rest| {
        assert rest[k - |hand| - 1] == shoe[k - |hand|];
      }
    }
  }

  lemma BudgetNotNegative(hand: seq<Card>)
    ensures DrawBudget(hand) >= 0
  {
  }

  /** From the two cards the dealer starts with, no stream of cards makes it draw more
      than ten times. */
  lemma AtMostTenDraws(hand: seq<Card>, shoe: seq<Card>)
    requires AllReal(hand) && AllReal(shoe) && |hand| == 2
    ensures |DealerDraw(hand, shoe).0| <= 12
    ensures 17 <= EvaluateHand(DealerDraw(hand, shoe).0).value <= 26
  {
    HardAtLeastOne(hand);
    Closed(hand);
    TwoCardTotal(hand);
    HardTotalOfSums(hand);
    DealerDrawBounds(hand, shoe);
  }

  /** Ten draws do happen: five aces up to soft sixteen, a six that turns them hard,
      and five more aces. */
  lemma TenDrawsHappen()
    ensures var ace, six := Card(Spades, Ace), Card(Spades, Six);
            |DealerDraw([ace, ace], [ace, ace, ace, ace, six, ace, ace, ace, ace, ace]).0| == 12
  {
    var ace, six := Card(Spades, Ace), Card(Spades, Six);
    var shoe := [ace, ace, ace, ace, six, ace, ace, ace, ace, ace];
    var final := [ace, ace] + shoe;
    assert [ace, ace] == ([] + [ace]) + [ace];
    Append([], ace);
    Append([] + [ace], ace);
    assert HardTotal([ace, ace]) == 2 && AceCount([ace, ace]) == 2;
    assert DealerDraw([ace, ace], shoe) == (final, []) by {
      DrawsOn([ace, ace], shoe);
    }
  }

  /** The aces and the six of the longest run, one at a time. */
  lemma {:induction false} DrawsOn(hand: seq<Card>, shoe: seq<Card>)
    requires AceCount(hand) > 0
    requires forall i :: 0 <= i < |shoe| ==> shoe[i].rank == if |shoe| - i == 6 then Six else Ace
    requires |shoe| <= 10 && HardTotal(hand) == if |shoe| >= 6 then 12 - |shoe| else 17 - |shoe|
    ensures DealerDraw(hand, shoe) == (hand + shoe, [])
    decreases |shoe|
  {
    Closed(hand);
    if shoe == [] {
      assert hand + shoe == hand;
    } else {
      Append(hand, shoe[0]);
      DrawsOn(hand + [shoe[0]], shoe[1..]);
      assert hand + [shoe[0]] + shoe[1..] == hand + shoe;
    }
  }

  /** A drawn card can lower a soft total, which is why the total itself is no measure. */
  lemma TotalCanFall()
    ensures exists hand, c :: EvaluateHand(hand).value < 17 && EvaluateHand(hand + [c]).value < EvaluateHand(hand).value
  {
    var hand, c := [Card(Spades, Ace), Card(Spades, Five)], Card(Hearts, Six);
    Append([], hand[0]);
    assert [] + [hand[0]] == [hand[0]];
    Append([hand[0]], hand[1]);
    assert [hand[0]] + [hand[1]] == hand;
    Closed(hand);
    Append(hand, c);
    Closed(hand + [c]);
  }

  /** The loop and the dealer AI part company exactly on a soft seventeen, where the AI
      would hit and the loop stands. */
  lemma LoopFollowsAI(hand: seq<Card>)
    ensures EvaluateHand(hand).value < 17 <==>
            DealerAI.DecisionFor(hand).action == DealerAI.Hit
            && !(EvaluateHand(hand).value == 17 && EvaluateHand(hand).isSoft)
  {
  }

  lemma FinalHandAndAI(hand: seq<Card>, shoe: seq<Card>)
    requires AllReal(hand) && AllReal(shoe) && hand != [] && EvaluateHand(hand).value <= 26
    ensures var final := DealerDraw(hand, shoe).0;
            DealerAI.DecisionFor(final).action == DealerAI.Hit <==>
            EvaluateHand(final).value == 17 && EvaluateHand(final).isSoft
  {
    DealerDrawBounds(hand, shoe);
  }

  /** It does happen: dealt an ace and a six, the loop stands on seventeen whatever the
      shoe holds, and the AI would hit. */
  lemma SoftSeventeenStands(ace: Card, six: Card, shoe: seq<Card>)
    requires ace.rank == Ace && six.rank == Six
    ensures EvaluateHand([ace, six]).value == 17 && EvaluateHand([ace, six]).isSoft
    ensures DealerDraw([ace, six], shoe) == ([ace, six], shoe)
    ensures DealerAI.DecisionFor([ace, six]).action == DealerAI.Hit
  {
    assert [] + [ace] == [ace] && [ace] + [six] == [ace, six];
    Append([], ace);
    Append([ace], six);
    Closed([ace, six]);
  }
}
