/** The rules of play: from a table at rest, which cards each action deals, whether the
    turn goes on, and which round it settles when it does not. */
module TableRules {
  import opened Cards
  import opened HandEvaluator
  import opened BankTypes
  import opened Wrappers
  import opened TableModel
  import opened TableRest
  import Cobol
  import Decimal
  import DealerLoop
  import L = Ledger

  // ---- Cards ----

  /** The shoe's next card, or the one made up when it is empty. */
  function NextCard(shoe: seq<Card>, madeUp: Card): Card {
    if shoe == [] then madeUp else shoe[0]
  }

  function Rest(shoe: seq<Card>): seq<Card> {
    if shoe == [] then [] else shoe[1..]
  }

  /** The card shown and the shoe's next ones in order, made-up ones when it has run out. */
  predicate ShownInOrder(up: Card, shoe: seq<Card>, hand: seq<Card>, left: seq<Card>) {
    && |hand| >= 2 && hand[0] == up
    && (forall k :: 1 <= k < |hand| ==>
          hand[k] == if k - 1 < |shoe| then shoe[k - 1] else if k == 1 then Card(Clubs, Eight) else Card(Spades, Three))
    && left == (if |hand| - 1 <= |shoe| then shoe[|hand| - 1..] else [])
  }

  /** From two cards on it is the first hand of seventeen or more. */
  predicate StopsAtSeventeen(hand: seq<Card>) {
    EvaluateHand(hand).value >= 17 && forall k :: 2 <= k < |hand| ==> EvaluateHand(hand[..k]).value < 17
  }

  predicate DealerPlayed(up: Card, shoe: seq<Card>, hand: seq<Card>, left: seq<Card>, playerBust: bool) {
    && ShownInOrder(up, shoe, hand, left)
    && if playerBust then |hand| == 2 else StopsAtSeventeen(hand)
  }

  /** The dealer's cards are the one shown and the shoe's next ones in order: two if the
      player is bust, and else up to the first total of seventeen or more. */
  lemma DealerPlays(w: World)
    requires HandOver(w)
    ensures var d := Dealt(w);
            DealerPlayed(w.table.dealer.hand[0], w.shoe, d.table.dealer.hand, d.shoe, w.table.player.status == Bust)
  {
    hide EvaluateHand, DealerPlayed, Dealt, NextCard, Rest;
    var up, hole, rest := w.table.dealer.hand[0], NextCard(w.shoe, Card(Clubs, Eight)), Rest(w.shoe);
    DealtCards(w, up, hole, rest);
    if w.table.player.status == Bust {
      TwoDealt(up, w.shoe);
    } else {
      MoreDealt(up, w.shoe);
    }
  }

  lemma DealtCards(w: World, up: Card, hole: Card, rest: seq<Card>)
    requires HandOver(w) && up == w.table.dealer.hand[0]
    requires hole == NextCard(w.shoe, Card(Clubs, Eight)) && rest == Rest(w.shoe)
    ensures Real(up) && AllReal(w.shoe)
    ensures (Dealt(w).table.dealer.hand, Dealt(w).shoe) ==
            if w.table.player.status == Bust then ([up, hole], rest) else DealerLoop.DealerDraw([up, hole], rest)
  {
    hide EvaluateHand, DealerLoop.DealerDraw;
    assert w.table.dealer.hand[1 := hole] == [up, hole];
  }

  lemma TwoDealt(up: Card, shoe: seq<Card>)
    ensures DealerPlayed(up, shoe, [up, NextCard(shoe, Card(Clubs, Eight))], Rest(shoe), true)
  {
    hide EvaluateHand;
  }

  lemma MoreDealt(up: Card, shoe: seq<Card>)
    requires Real(up) && AllReal(shoe)
    ensures var (final, left) := DealerLoop.DealerDraw([up, NextCard(shoe, Card(Clubs, Eight))], Rest(shoe));
            DealerPlayed(up, shoe, final, left, false)
  {
    hide EvaluateHand, DealerLoop.DealerDraw, DealerLoop.DrawnInOrder, ShownInOrder, StopsAtSeventeen;
    var hand, rest := [up, NextCard(shoe, Card(Clubs, Eight))], Rest(shoe);
    var (final, left) := DealerLoop.DealerDraw(hand, rest);
    DealerLoop.DrawsInOrder(hand, rest);
    OneCardMore(up, shoe, final, left);
    DrawStops(hand, rest);
  }

  lemma DrawStops(hand: seq<Card>, shoe: seq<Card>)
    requires |hand| == 2 && AllReal(hand) && AllReal(shoe)
    ensures StopsAtSeventeen(DealerLoop.DealerDraw(hand, shoe).0)
  {
    hide EvaluateHand, DealerLoop.DealerDraw;
    TwoCards(hand);
    DealerLoop.DealerDrawBounds(hand, shoe);
  }

  lemma OneCardMore(up: Card, shoe: seq<Card>, final: seq<Card>, left: seq<Card>)
    requires DealerLoop.DrawnInOrder([up, NextCard(shoe, Card(Clubs, Eight))], Rest(shoe), final, left)
    ensures ShownInOrder(up, shoe, final, left)
  {
    assert final[0] == up && final[1] == NextCard(shoe, Card(Clubs, Eight));
    forall k | 1 <= k < |final|
      ensures final[k] ==
              if k - 1 < |shoe| then shoe[k - 1] else if k == 1 then Card(Clubs, Eight) else Card(Spades, Three)
    {
      if k > 1 && k - 2 < |Rest(shoe)| {
        assert Rest(shoe)[k - 2] == shoe[k - 1];
      }
    }
  }

  // ---- Rounds ----

  /** One round more than these is settled, fairly, with this hand and stake, and the table waits. */
  predicate Ended(rounds: seq<Round>, after: World, up: Card, shoe: seq<Card>, hand: seq<Card>, stake: int,
                  doubled: bool)
  {
    && AtRest(after) && after.table.phase == WaitingPhase
    && |after.rounds| == |rounds| + 1 && rounds <= after.rounds
    && var r := after.rounds[|rounds|];
       && r.player == hand && r.stake == stake && r.doubled == doubled && Fair(r)
       && DealerPlayed(up, shoe, r.dealer, after.shoe, EvaluateHand(hand).value > 21)
  }

  lemma FinishEnds(w: World)
    requires HandOver(w)
    ensures var p := w.table.player;
            Ended(w.rounds, FinishRound(w), w.table.dealer.hand[0], w.shoe, p.hand, p.bet, p.tx2.Some?)
    ensures FinishRound(w).bank.next == w.bank.next
  {
    FinishRests(w);
    DealerPlays(w);
    DealtDealer(w);
    hide AtRest, Dealt, DealerPlayed, EvaluateHand, Linked, Sound, PayBet, OutcomeOf, Fair;
  }

  // ---- Actions ----

  /** A card is dealt. The turn goes on with it, everything else as it was, if the hand is
      below 21 with fewer than five cards; otherwise the round ends with that hand. */
  lemma HitRule(w: World, spare: seq<Card>)
    requires AtRest(w) && w.table.phase == PlayerTurn && |spare| == 4
    ensures var after, p := Act(w, HitAction, spare), w.table.player;
            var hand := p.hand + [NextCard(w.shoe, Card(Hearts, Seven))];
            var e := EvaluateHand(hand);
            if e.value < 21 && |hand| < 5 then
              after == w.(table := w.table.(player := p.(hand := hand, value := e.value, soft := e.isSoft)),
                          shoe := Rest(w.shoe))
            else
              && Ended(w.rounds, after, w.table.dealer.hand[0], Rest(w.shoe), hand, p.bet, false)
              && after.bank.next == w.bank.next
  {
    hide EvaluateHand, FinishRound, Ended, L.Valid;
    var s := w.table;
    var c, shoe := NextCard(w.shoe, Card(Hearts, Seven)), Rest(w.shoe);
    CardAdded(s.player, c);
    var p := WithCard(s.player, c);
    assert AllReal(shoe);
    NoNatural(p.hand);
    if p.value > 21 {
      FinishEnds(w.(table := s.(player := p.(status := Bust), active := false), shoe := shoe));
    } else if p.value == 21 || |p.hand| >= 5 {
      FinishEnds(w.(table := s.(player := p.(status := Standing), active := false), shoe := shoe));
    }
  }

  lemma StandRule(w: World, spare: seq<Card>)
    requires AtRest(w) && w.table.phase == PlayerTurn && |spare| == 4
    ensures var after, p := Act(w, StandAction, spare), w.table.player;
            && Ended(w.rounds, after, w.table.dealer.hand[0], w.shoe, p.hand, p.bet, false)
            && after.bank.next == w.bank.next
  {
    hide EvaluateHand, FinishRound, Ended, HandOver, L.Valid;
    var stood := w.(table := w.table.(player := w.table.player.(status := Standing), active := false));
    StoodIsOver(w, stood);
    FinishEnds(stood);
  }

  lemma StoodIsOver(w: World, stood: World)
    requires AtRest(w) && w.table.phase == PlayerTurn
    requires stood == w.(table := w.table.(player := w.table.player.(status := Standing), active := false))
    ensures HandOver(stood)
  {
    NoNatural(w.table.player.hand);
    hide EvaluateHand, L.Valid, OpenOf, Staked;
  }

  /** The bank takes a bet exactly when the balance covers it. */
  predicate Covered(bank: L.Ledger, p: PlayerId, dollars: int) {
    p in bank.accounts && bank.accounts[p] >= 100 * dollars
  }

  lemma TakenIfCovered(bank: L.Ledger, p: PlayerId, dollars: int)
    requires L.Valid(bank) && 0 < dollars <= MAX_BET
    ensures L.Prepare(bank, DollarBet(p, dollars))
         == if Covered(bank, p, dollars)
            then Some(Row(p, BetRow, 100 * dollars, bank.accounts[p], bank.accounts[p] - 100 * dollars, None))
            else None
  {
    L.DebitServed(bank, DollarBet(p, dollars));
    Cobol.FieldHolds(100 * dollars);
    if p in bank.accounts && bank.accounts[p] < 0 {
      assert Decimal.ReadBack(bank.accounts[p]) < 100;
    }
    hide L.Prepare, Cobol.Signed15, L.Valid;
  }

  /** With chips and balance for a second stake, one card is dealt and the round ends with
      both; otherwise doubling is a hit. */
  lemma DoubleRule(w: World, spare: seq<Card>)
    requires AtRest(w) && w.table.phase == PlayerTurn && |spare| == 4
    ensures var after, p := Act(w, DoubleAction, spare), w.table.player;
            if p.bet <= p.chips && Covered(w.bank, p.id, p.bet) then
              var hand := p.hand + [NextCard(w.shoe, Card(Diamonds, Four))];
              && Ended(w.rounds, after, w.table.dealer.hand[0], Rest(w.shoe), hand, 2 * p.bet, true)
              && after.bank.next == w.bank.next + 1
            else after == Act(w, HitAction, spare)
  {
    hide AtRest, Hit, Doubled, FinishRound, Ended, HandOver, EvaluateHand, L.Prepare, L.Valid;
    var p := w.table.player;
    StakeInLimits(w);
    TakenIfCovered(w.bank, p.id, p.bet);
    if p.bet <= p.chips && Covered(w.bank, p.id, p.bet) {
      var row := L.Prepare(w.bank, DollarBet(p.id, p.bet)).value;
      DoubledIsOver(w);
      DoubledCards(w, row);
      FinishEnds(Doubled(w, row));
    }
  }

  lemma StakeInLimits(w: World)
    requires AtRest(w) && w.table.phase == PlayerTurn
    ensures L.Valid(w.bank) && w.table.player.status == Playing && 0 < w.table.player.bet <= MAX_BET
  {
    hide L.Valid, EvaluateHand;
  }

  lemma DoubledCards(w: World, row: Row)
    ensures var d, p := Doubled(w, row), w.table.player;
            && d.table.player.hand == p.hand + [NextCard(w.shoe, Card(Diamonds, Four))] && d.shoe == Rest(w.shoe)
            && d.table.player.bet == 2 * p.bet && d.table.player.tx2.Some? && d.table.dealer == w.table.dealer
  {
    hide EvaluateHand, L.Commit;
  }

  /** A bet that the bank takes is dealt: the first and the third card to the player, the
      second to the dealer. A natural ends the round at once, and otherwise it is the
      player's turn. A bet it does not take changes nothing. */
  lemma BetRule(w: World, amount: int, spare: seq<Card>)
    requires AtRest(w) && w.table.phase == WaitingPhase && |spare| == 4 && AllReal(spare)
    ensures var after, p := Act(w, BetAction(amount), spare), w.table.player;
            var bet, cards := ClampBet(amount, p.chips), if |w.shoe| < 4 then spare else w.shoe;
            var shoe, hand, up := if |w.shoe| < 4 then [] else w.shoe[4..], [cards[0], cards[2]], cards[1];
            var e := EvaluateHand(hand);
            if bet <= 0 || !Covered(w.bank, p.id, bet) then after == w
            else if NaturalHand(hand) then
              Ended(w.rounds, after, up, shoe, hand, bet, false) && after.bank.next == w.bank.next + 1
            else
              var balance := w.bank.accounts[p.id];
              && after.table == GameState(
                   PlayerTurn,
                   Player(p.id, WholeDollars(balance - 100 * bet), bet, hand, e.value, e.isSoft, Playing,
                          Some(w.bank.next), None),
                   Dealer([up, HIDDEN], RankValue(up.rank), false), true)
              && after.bank == L.Commit(w.bank, Row(p.id, BetRow, 100 * bet, balance, balance - 100 * bet, None))
              && after.shoe == shoe && after.rounds == w.rounds
  {
    hide L.Prepare, L.Valid, Opened, FinishRound, EvaluateHand, HandOver, Ended, ClampBet;
    var p := w.table.player;
    var bet := ClampBet(amount, p.chips);
    if bet > 0 {
      TakenIfCovered(w.bank, p.id, bet);
      if Covered(w.bank, p.id, bet) {
        OpeningCardsDealt(w, bet, spare);
        hide AtRest, Covered;
        var o := Opened(w, bet, L.Prepare(w.bank, DollarBet(p.id, bet)).value, spare);
        if o.table.player.status == Natural {
          FinishEnds(o);
        }
      }
    }
  }

  lemma OpeningCardsDealt(w: World, bet: int, spare: seq<Card>)
    requires AtRest(w) && w.table.phase == WaitingPhase && |spare| == 4 && AllReal(spare)
    requires 0 < bet <= MAX_BET && L.Prepare(w.bank, DollarBet(w.table.player.id, bet)).Some?
    ensures var row := L.Prepare(w.bank, DollarBet(w.table.player.id, bet)).value;
            var o, p := Opened(w, bet, row, spare), w.table.player;
            var cards := if |w.shoe| < 4 then spare else w.shoe;
            var hand, up := [cards[0], cards[2]], cards[1];
            var e := EvaluateHand(hand);
            && (o.table.player.status == Natural <==> NaturalHand(hand))
            && o.table == GameState(
                 PlayerTurn,
                 Player(p.id, WholeDollars(row.after), bet, hand, e.value, e.isSoft,
                        if NaturalHand(hand) then Natural else Playing, Some(w.bank.next), None),
                 Dealer([up, HIDDEN], RankValue(up.rank), false), true)
            && o.bank == L.Commit(w.bank, row) && o.bank.next == w.bank.next + 1
            && o.shoe == (if |w.shoe| < 4 then [] else w.shoe[4..]) && o.rounds == w.rounds
            && (NaturalHand(hand) ==> HandOver(o))
  {
    var row := L.Prepare(w.bank, DollarBet(w.table.player.id, bet)).value;
    BetTaken(w, bet);
    OpeningDeal(w, bet, row, spare);
    var o := Opened(w, bet, row, spare);
    hide L.Prepare, L.Commit, L.Valid, EvaluateHand;
    assert Linked(o);
  }

  /** Whatever the phase does not provide for changes nothing, and neither does a split. */
  lemma IgnoredRule(w: World, a: Action, spare: seq<Card>)
    requires AtRest(w) && |spare| == 4
    requires if w.table.phase == WaitingPhase then !a.BetAction?
             else !a.HitAction? && !a.StandAction? && !a.DoubleAction?
    ensures Act(w, a, spare) == w
  {
  }
}
