/** The Python dealer: its own evaluator loop and the house decision. */
module DealerAI {
  import opened Cards
  import HandEvaluator

  datatype Action = Hit | Stand | Bust

  datatype Decision = Decision(action: Action, handValue: int, isSoft: bool)

  function RankValues(r: Rank): nat {
    HandEvaluator.RankValue(r)
  }

  /** Gives the Haskell evaluator's total and softness on every hand, although it
      skips the hidden card and counts its aces in a loop of its own. */
  method EvaluateHand(cards: seq<Card>) returns (total: int, soft: bool)
    ensures total == HandEvaluator.EvaluateHand(cards).value
    ensures soft == HandEvaluator.EvaluateHand(cards).isSoft
  {
    total := 0;
    var aces := 0;
    for i := 0 to |cards|
      invariant total == HandEvaluator.SumRanks(cards[..i])
      invariant aces == HandEvaluator.AceCount(cards[..i])
    {
      HandEvaluator.Append(cards[..i], cards[i]);
      assert cards[..i] + [cards[i]] == cards[..i + 1];
      var rank := cards[i].rank;
      if rank == HiddenRank {
        continue;
      }
      if rank == Ace {
        aces := aces + 1;
        total := total + 11;
      } else {
        total := total + RankValues(rank);
      }
    }
    assert cards[..|cards|] == cards;
    ghost var raw := total;
    var acesUsed := 0;
    while total > 21 && acesUsed < aces
      invariant acesUsed <= aces
      invariant HandEvaluator.ReduceAces(total, aces - acesUsed, acesUsed) == HandEvaluator.ReduceAces(raw, aces, 0)
    {
      total := total - 10;
      acesUsed := acesUsed + 1;
    }
    soft := acesUsed < aces && total <= 21;
  }

  function DecisionFor(hand: seq<Card>): Decision {
    var e := HandEvaluator.EvaluateHand(hand);
    var action :=
      if e.value > 21 then Bust
      else if e.value < 17 || (e.value == 17 && e.isSoft) then Hit
      else Stand;
    Decision(action, e.value, e.isSoft)
  }

  /** A way of counting the aces that gives the largest total of at most 21. */
  ghost predicate Best(hand: seq<Card>, high: seq<bool>) {
    && |high| == |hand| && HandEvaluator.AssignedTotal(hand, high) <= 21
    && forall other: seq<bool> :: |other| == |hand| && HandEvaluator.AssignedTotal(hand, other) <= 21 ==>
         HandEvaluator.AssignedTotal(hand, other) <= HandEvaluator.AssignedTotal(hand, high)
  }

  /** The house rule by all ways of counting the aces: bust when none comes to 21 or
      less; otherwise the best one decides, standing on seventeen unless an ace counts
      eleven in it. */
  lemma HouseRule(hand: seq<Card>)
    ensures var d := DecisionFor(hand);
            && (d.action == Bust <==>
                  forall high: seq<bool> :: |high| == |hand| ==> HandEvaluator.AssignedTotal(hand, high) > 21)
            && (d.action != Bust <==> exists high :: Best(hand, high))
            && (forall high :: Best(hand, high) ==>
                  var soft := HandEvaluator.HighAces(hand, high) > 0;
                  && d.handValue == HandEvaluator.AssignedTotal(hand, high) && d.isSoft == soft
                  && (d.action == Stand <==> d.handValue > 17 || (d.handValue == 17 && !soft))
                  && (d.action == Hit <==> d.handValue < 17 || (d.handValue == 17 && soft)))
  {
    HandEvaluator.OptimalTotal(hand);
    HandEvaluator.SoftMeansOneHighAce(hand);
    hide HandEvaluator.EvaluateHand, HandEvaluator.AssignedTotal, HandEvaluator.HighAces;
    var e := HandEvaluator.EvaluateHand(hand);
    assert e.isBust <==> e.value > 21 by {
      BustOver(hand);
    }
    var high: seq<bool> :| |high| == |hand| && HandEvaluator.AssignedTotal(hand, high) == e.value;
    if e.value <= 21 {
      assert Best(hand, high);
    }
  }

  lemma BustOver(hand: seq<Card>)
    ensures HandEvaluator.EvaluateHand(hand).isBust <==> HandEvaluator.EvaluateHand(hand).value > 21
  {
  }

  method DealerDecision(hand: seq<Card>) returns (d: Decision)
    ensures d == DecisionFor(hand)
  {
    var total, isSoft := EvaluateHand(hand);
    if total > 21 {
      return Decision(Bust, total, isSoft);
    }
    if total < 17 {
      return Decision(Hit, total, isSoft);
    }
    if total == 17 && isSoft {
      return Decision(Hit, total, true);
    }
    return Decision(Stand, total, isSoft);
  }
}
