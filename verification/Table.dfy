/** The player table: its state is overwritten step by step while it calls the bank and
    the shoe. Each method leaves what the table model says it leaves. */
module Table {
  import opened Wrappers
  import opened Cards
  import opened HandEvaluator
  import opened BankTypes
  import opened Decimal
  import opened Numeric
  import opened TableModel
  import opened TableRest
  import Cobol
  import DealerLoop
  import L = Ledger
  import B = Bank
  import S = Shoe
  import Sequences
  import Strings

  // ---- Amounts as text ----

  function DollarText(dollars: nat): string {
    Digits(dollars) + ".00"
  }

  /** The integer part of a balance the bank sent. */
  function WholeOfText(s: string): int {
    var whole := ParseInt(Strings.SplitFirst(s, '.').0);
    if whole.None? then 0 else whole.value
  }

  lemma DollarTextIsCents(dollars: nat)
    requires dollars <= MAX_BET
    ensures AmountCents(DollarText(dollars)) == NumericInput(DollarText(dollars)) == Some(100 * dollars)
  {
    assert DollarText(dollars) == CentsToDollars(100 * dollars) by {
      hide Digits;
      assert Pair(0) == "00";
    }
    hide AmountCents, NumericInput, CentsToDollars;
    ReadsBack(100 * dollars);
    StoresWritten(100 * dollars);
  }

  /** Cutting a balance text off at the point cuts the balance off towards zero. */
  lemma WholeOfBalance(cents: int)
    requires L.InColumn(cents)
    ensures WholeOfText(CentsToDollars(cents)) == WholeDollars(cents)
  {
    var n := if cents < 0 then -cents else cents;
    hide Digits, Pair, ParseInt, Strings.SplitFirst;
    TextParts(Digits(n / 100), Pair(n % 100));
  }

  lemma TextParts(digits: string, frac: string)
    requires digits != "" && AllDigits(digits)
    ensures var s := digits + "." + frac;
            && Strings.SplitFirst(s, '.').0 == digits && Strings.SplitFirst("-" + s, '.').0 == "-" + digits
    ensures ParseInt(digits) == if Int64(Value(digits)) then Some(Value(digits)) else None
    ensures ParseInt("-" + digits) == if Int64(0 - Value(digits)) then Some(0 - Value(digits)) else None
  {
    NoPoint(digits);
    ParseDigits(digits);
    Strings.SplitJoined(digits, '.', frac);
    Strings.SplitJoined("-" + digits, '.', frac);
    Sequences.Associative("-", digits, ".");
    Sequences.Associative("-", digits + ".", frac);
    hide ParseInt, Strings.SplitFirst, AllDigits, Value;
  }

  // ---- The table's own estimate of a hand ----

  /** Agrees with the evaluator on every hand, hidden cards included. */
  method EstimateValue(hand: seq<Card>) returns (total: int)
    ensures total == EvaluateHand(hand).value
  {
    total := 0;
    var aces := 0;
    for i := 0 to |hand|
      invariant total == SumRanks(hand[..i]) && aces == AceCount(hand[..i])
    {
      Append(hand[..i], hand[i]);
      assert hand[..i] + [hand[i]] == hand[..i + 1];
      if hand[i].rank == Ace {
        aces := aces + 1;
        total := total + 11;
      } else {
        total := total + RankValue(hand[i].rank);
      }
    }
    assert hand[..|hand|] == hand;
    ghost var allAces := aces;
    while aces > 0 && total > 21
      invariant 0 <= aces <= allAces
      invariant ReduceAces(total, aces, allAces - aces) == ReduceAces(SumRanks(hand), allAces, 0)
    {
      total := total - 10;
      aces := aces - 1;
    }
  }

  class Table {
    var state: GameState
    const bank: B.Bank
    const shoe: S.Shoe
    ghost var rounds: seq<Round>

    ghost predicate Valid()
      reads this, bank, shoe
    {
      bank.Ok() && shoe.Valid() && state.player.id != DEMO_PLAYER
    }

    ghost function Snapshot(): World
      reads this, bank, shoe
    {
      World(state, bank.Tables(), shoe.cards, rounds)
    }

    constructor (bank: B.Bank, shoe: S.Shoe, playerID: PlayerId, startingChips: int)
      requires bank.Ok() && shoe.Valid() && playerID != DEMO_PLAYER
      ensures Valid() && this.bank == bank && this.shoe == shoe
      ensures state == GameState(WaitingPhase, Player(playerID, startingChips, 0, [], 0, false, Waiting, None, None),
                                 EMPTY_DEALER, false)
      ensures rounds == []
      ensures AllReal(shoe.cards) && OpenOf(bank.Tables(), playerID) == {} ==> AtRest(Snapshot())
    {
      this.bank := bank;
      this.shoe := shoe;
      state := GameState(WaitingPhase, Player(playerID, startingChips, 0, [], 0, false, Waiting, None, None),
                         EMPTY_DEALER, false);
      rounds := [];
    }

    // ---- Calls to the bank ----

    /** The bet's transaction id, or none when the bank refuses, and the new balance. */
    method CallBankBet(playerID: PlayerId, amount: int) returns (txID: Option<TxId>, newBalance: int)
      requires bank.Ok() && playerID != DEMO_PLAYER && 0 < amount <= MAX_BET
      modifies bank
      ensures bank.Ok()
      ensures match L.Prepare(old(bank.Tables()), DollarBet(playerID, amount))
              case Some(row) =>
                && txID == Some(old(bank.nextId)) && newBalance == WholeDollars(row.after)
                && bank.Tables() == L.Commit(old(bank.Tables()), row)
              case None => txID == None && bank.Tables() == old(bank.Tables())
    {
      hide NumericInput, AmountCents, CentsToDollars, WholeOfText, WholeDollars, L.Prepare, DollarText;
      DollarTextIsCents(amount);
      if L.Prepare(bank.Tables(), DollarBet(playerID, amount)).Some? {
        L.PreparedRow(bank.Tables(), DollarBet(playerID, amount));
        L.RowOf(bank.Tables(), DollarBet(playerID, amount));
        WholeOfBalance(L.Prepare(bank.Tables(), DollarBet(playerID, amount)).value.after);
      }
      var resp := bank.BetHandler(playerID, DollarText(amount));
      match resp
      case BetPlaced(tx, balance) => return Some(tx), WholeOfText(balance);
      case _ => return None, -1;
    }

    /** The new balance, or -1 when the bank refuses. */
    method CallBankPayout(txID: TxId, result: Outcome) returns (newBalance: int)
      requires bank.Ok()
      modifies bank
      ensures bank.Ok()
      ensures match L.Prepare(old(bank.Tables()), L.Payout(txID, result))
              case Some(row) =>
                newBalance == WholeDollars(row.after) && bank.Tables() == L.Commit(old(bank.Tables()), row)
              case None => newBalance == -1 && bank.Tables() == old(bank.Tables())
    {
      hide NumericInput, AmountCents, CentsToDollars, WholeOfText, WholeDollars, Cobol.OutcomeOf, Cobol.OutcomeName;
      hide L.PreparePayout;
      Cobol.OutcomeOfName(result);
      NamedOutcome(result);
      if L.Prepare(bank.Tables(), L.Payout(txID, result)).Some? {
        L.PreparedRow(bank.Tables(), L.Payout(txID, result));
        WholeOfBalance(L.Prepare(bank.Tables(), L.Payout(txID, result)).value.after);
      }
      var resp := bank.PayoutHandler(Some(txID), Cobol.OutcomeName(result));
      match resp
      case NewBalance(balance) => return WholeOfText(balance);
      case _ => return -1;
    }

    // ---- Calls to the deck ----

    /** The next card, or the one the table makes up when the shoe is empty. */
    method DrawCard(fallback: Card) returns (c: Card)
      requires shoe.Valid()
      modifies shoe
      ensures shoe.Valid() && (c, shoe.cards) == DealerLoop.Draw(old(shoe.cards), fallback)
    {
      hide S.Shoe.Valid, AllReal;
      var cards := shoe.Deal(1);
      c := if |cards| > 0 then cards[0] else fallback;
    }

    method DrawFour(spare: seq<Card>) returns (cards: seq<Card>)
      requires shoe.Valid() && |spare| == 4
      modifies shoe
      ensures shoe.Valid() && |cards| == 4 && (cards, shoe.cards) == OpeningCards(old(shoe.cards), spare)
    {
      hide S.Shoe.Valid, AllReal;
      cards := shoe.Deal(4);
      if |cards| < 4 {
        cards := spare;
      }
    }

    // ---- Actions ----

    method PlayerBet(requested: int, spare: seq<Card>)
      requires Valid() && |spare| == 4
      modifies this, bank, shoe
      ensures Valid() && Snapshot() == PlaceBet(old(Snapshot()), requested, spare)
    {
      hide L.Prepare, L.Commit, EvaluateHand, WholeDollars, FinishRound, S.Shoe.Valid, B.Bank.Ok, L.Valid, AllReal;
      var s := state;
      var amount := requested;
      if amount < MIN_BET {
        amount := MIN_BET;
      }
      if amount > MAX_BET {
        amount := MAX_BET;
      }
      if amount > s.player.chips {
        amount := s.player.chips;
      }
      assert amount == ClampBet(requested, s.player.chips);
      hide ClampBet, OpeningCards, DollarBet, B.Bank.Tables, RankValue;
      if amount <= 0 {
        return;
      }
      ghost var w := Snapshot();
      var txID, newBalance := CallBankBet(s.player.id, amount);
      if txID.None? {
        return;
      }
      ghost var row := L.Prepare(w.bank, DollarBet(s.player.id, amount)).value;
      s := s.(player := s.player.(tx := txID, bet := amount, chips := newBalance, status := Betting,
                                  hand := [], value := 0),
              dealer := EMPTY_DEALER, phase := BettingPhase);
      state := s;

      var cards := DrawFour(spare);
      assert Valid();
      DealOpening(cards);
      assert Valid();
      assert Snapshot() == w.(table := state, bank := L.Commit(w.bank, row), shoe := shoe.cards);
      hide L.Commit, EMPTY_DEALER;
      StartPlay();
    }

    /** A natural goes straight to the dealer; otherwise it is the player's turn. */
    method StartPlay()
      requires Valid()
      modifies this, bank, shoe
      ensures Valid()
      ensures var w := old(Snapshot());
              var status := if w.table.player.value == 21 then Natural else Playing;
              var ready := w.(table := w.table.(phase := PlayerTurn, player := w.table.player.(status := status)));
              Snapshot() == if status == Natural then FinishRound(ready) else ready
    {
      hide FinishRound, S.Shoe.Valid, B.Bank.Ok, B.Bank.Tables;
      if state.player.value == 21 {
        state := state.(player := state.player.(status := Natural), phase := PlayerTurn);
        RunDealerTurn();
        return;
      }
      state := state.(phase := PlayerTurn, player := state.player.(status := Playing));
    }

    /** Player, dealer, player, and a face-down card for the dealer. */
    method DealOpening(cards: seq<Card>)
      requires |cards| == 4
      modifies this`state
      ensures var hand, s := [cards[0], cards[2]], old(state);
              state == GameState(
                DealingPhase,
                s.player.(hand := hand, value := EvaluateHand(hand).value, soft := EvaluateHand(hand).isSoft),
                Dealer([cards[1], HIDDEN], RankValue(cards[1].rank), s.dealer.revealed),
                true)
    {
      hide EvaluateHand, RankValue;
      state := state.(phase := DealingPhase);

      var s := state;
      s := s.(player := s.player.(hand := [cards[0]]));
      s := s.(player := s.player.(value := EvaluateHand(s.player.hand).value));
      state := s;

      state := state.(dealer := state.dealer.(hand := [cards[1]], value := RankValue(cards[1].rank)));

      s := state;
      s := s.(player := s.player.(hand := s.player.hand + [cards[2]]));
      var hr := EvaluateHand(s.player.hand);
      s := s.(player := s.player.(value := hr.value, soft := hr.isSoft));
      state := s;

      state := state.(dealer := state.dealer.(hand := state.dealer.hand + [HIDDEN]), active := true);
      assert [cards[0]] + [cards[2]] == [cards[0], cards[2]] && [cards[1]] + [HIDDEN] == [cards[1], HIDDEN];
    }

    method PlayerHit()
      requires Valid()
      modifies this, bank, shoe
      ensures Valid() && Snapshot() == Hit(old(Snapshot()))
    {
      hide EvaluateHand, FinishRound, S.Shoe.Valid, B.Bank.Ok, L.Valid, AllReal;
      BustOver21();
      if state.player.status != Playing {
        return;
      }
      var c := DrawCard(HIT_FALLBACK);
      var s := state;
      s := s.(player := s.player.(hand := s.player.hand + [c]));
      var hr := EvaluateHand(s.player.hand);
      s := s.(player := s.player.(value := hr.value, soft := hr.isSoft));
      if hr.isBust {
        state := s.(player := s.player.(status := Bust), active := false);
        RunDealerTurn();
        return;
      }
      if hr.value == 21 {
        state := s.(player := s.player.(status := Standing), active := false);
        RunDealerTurn();
        return;
      }
      if |s.player.hand| >= 5 {
        state := s.(player := s.player.(status := Standing), active := false);
        RunDealerTurn();
        return;
      }
      state := s;
    }

    method PlayerStand()
      requires Valid()
      modifies this, bank, shoe
      ensures Valid() && Snapshot() == Stand(old(Snapshot()))
    {
      hide FinishRound;
      state := state.(player := state.player.(status := Standing), active := false);
      RunDealerTurn();
    }

    method PlayerDouble()
      requires Valid() && 0 <= state.player.bet <= MAX_BET
      requires state.player.status == Playing ==> state.player.bet > 0
      modifies this, bank, shoe
      ensures Valid() && Snapshot() == Double(old(Snapshot()))
    {
      hide L.Prepare, L.Commit, EvaluateHand, WholeDollars, FinishRound, Hit, S.Shoe.Valid, B.Bank.Ok, L.Valid, AllReal;
      BustOver21();
      var s := state;
      if s.player.status != Playing {
        return;
      }
      var additionalBet := s.player.bet;
      if additionalBet > s.player.chips {
        PlayerHit();
        return;
      }
      var txID2, newBalance := CallBankBet(s.player.id, additionalBet);
      if txID2.None? {
        PlayerHit();
        return;
      }
      s := state;
      s := s.(player := s.player.(bet := s.player.bet + additionalBet, chips := newBalance, tx2 := txID2));
      var c := DrawCard(DOUBLE_FALLBACK);
      s := s.(player := s.player.(hand := s.player.hand + [c]));
      var hr := EvaluateHand(s.player.hand);
      s := s.(player := s.player.(value := hr.value, soft := hr.isSoft, status := if hr.isBust then Bust else Standing),
              active := false);
      state := s;
      RunDealerTurn();
    }

    // ---- The end of a round ----

    method RunDealerTurn()
      requires Valid()
      modifies this, bank, shoe
      ensures Valid() && Snapshot() == FinishRound(old(Snapshot()))
    {
      hide Settle, EvaluateHand, S.Shoe.Valid, B.Bank.Ok, L.Valid, AllReal, DealerLoop.DealerDraw;
      state := state.(phase := DealerTurn);
      if |state.dealer.hand| >= 2 {
        var hole := DrawCard(HOLE_FALLBACK);
        state := state.(dealer := state.dealer.(hand := state.dealer.hand[1 := hole]));
      }
      state := state.(dealer := state.dealer.(revealed := true, value := EvaluateHand(state.dealer.hand).value));

      if state.player.status != Bust {
        DealerHits();
      }
      assert Snapshot() == Dealt(old(Snapshot()));
      RunPayout();
    }

    /** Draws as the dealer loop does; what the dealer AI answers is not used. */
    method DealerHits()
      requires Valid() && state.dealer.value == EvaluateHand(state.dealer.hand).value && state.dealer.revealed
      modifies this`state, shoe
      ensures Valid()
      ensures var (hand, left) := DealerLoop.DealerDraw(old(state.dealer.hand), old(shoe.cards));
              && shoe.cards == left
              && state == old(state).(dealer := Dealer(hand, EvaluateHand(hand).value, true))
    {
      hide EvaluateHand, AllReal, S.Shoe.Valid, B.Bank.Ok, B.Bank.Tables;
      while state.dealer.value < 17
        invariant Valid()
        invariant state == old(state).(dealer := Dealer(state.dealer.hand, EvaluateHand(state.dealer.hand).value, true))
        invariant DealerLoop.DealerDraw(state.dealer.hand, shoe.cards)
               == DealerLoop.DealerDraw(old(state.dealer.hand), old(shoe.cards))
        decreases |shoe.cards|, 17 - HardTotal(state.dealer.hand)
      {
        Closed(state.dealer.hand);
        var hit := DrawCard(DealerLoop.DEALER_FALLBACK);
        Append(state.dealer.hand, hit);
        var hand := state.dealer.hand + [hit];
        state := state.(dealer := state.dealer.(hand := hand, value := EvaluateHand(hand).value));
      }
    }

    /** How the round ended, and the status the player is shown for it. */
    method Judge() returns (status: Status, outcome: Outcome)
      ensures outcome == OutcomeOf(state.player, state.dealer)
      ensures status == match outcome
                        case Win => Won
                        case Loss => Lost
                        case Push => Pushed
                        case Blackjack => Natural
    {
      var s := state;
      var playerBlackjack := s.player.value == 21 && |s.player.hand| == 2 && s.player.status == Natural;
      var dealerBlackjack := s.dealer.value == 21 && |s.dealer.hand| == 2;
      var fiveCardCharlie := |s.player.hand| >= 5 && s.player.status != Bust;
      if s.player.status == Bust {
        return Lost, Loss;
      } else if playerBlackjack && dealerBlackjack {
        return Pushed, Push;
      } else if playerBlackjack {
        return Natural, Blackjack;
      } else if fiveCardCharlie {
        return Won, Win;
      } else if s.dealer.value > 21 || s.player.value > s.dealer.value {
        return Won, Win;
      } else if s.player.value == s.dealer.value {
        return Pushed, Push;
      } else {
        return Lost, Loss;
      }
    }

    /** Settles one of the table's bets, if there is one. */
    method SettleBet(txID: Option<TxId>, outcome: Outcome, chips: int) returns (newChips: int)
      requires bank.Ok()
      modifies bank
      ensures bank.Ok() && (bank.Tables(), newChips) == PayBet(old(bank.Tables()), chips, txID, outcome)
    {
      hide L.Prepare, L.Commit, WholeDollars, L.Valid, B.Bank.Ok;
      newChips := chips;
      if txID.Some? {
        var newBalance := CallBankPayout(txID.value, outcome);
        if newBalance >= 0 {
          newChips := newBalance;
        }
      }
    }

    method RunPayout()
      requires Valid()
      modifies this, bank
      ensures Valid() && Snapshot() == Settle(old(Snapshot()))
    {
      hide PayBet, OutcomeOf, S.Shoe.Valid, B.Bank.Ok, B.Bank.Tables;
      var status, outcome := Judge();
      var p := state.player;
      rounds := rounds + [Round(outcome, p.bet, p.tx2.Some?, p.hand, state.dealer.hand)];
      var s := state.(phase := PayoutPhase, player := state.player.(status := status));

      var chips := SettleBet(s.player.tx, outcome, s.player.chips);
      s := s.(player := s.player.(chips := chips, tx := None));
      chips := SettleBet(s.player.tx2, outcome, s.player.chips);
      s := s.(player := s.player.(chips := chips, tx2 := None));
      state := s;

      s := state;
      state := s.(phase := WaitingPhase, dealer := EMPTY_DEALER, active := false,
                  player := s.player.(status := Waiting, bet := 0, hand := [], value := 0, soft := false));
    }

    /** The action a table at rest accepts, run to its end. */
    method ProcessAction(action: Action, spare: seq<Card>)
      requires Valid() && |spare| == 4 && AtRest(Snapshot())
      modifies this, bank, shoe
      ensures Valid() && Snapshot() == Act(old(Snapshot()), action, spare)
      ensures AllReal(spare) ==> AtRest(Snapshot())
    {
      hide PlaceBet, Hit, Stand, Double, S.Shoe.Valid, B.Bank.Ok, L.Valid, AllReal;
      if AllReal(spare) {
        ActRests(Snapshot(), action, spare);
      }
      match state.phase
      case WaitingPhase =>
        if action.BetAction? {
          PlayerBet(action.amount, spare);
        }
      case PlayerTurn =>
        match action {
          case HitAction => PlayerHit();
          case StandAction => PlayerStand();
          case DoubleAction => PlayerDouble();
          case _ =>
        }
      case _ =>
    }
  }

  lemma NamedOutcome(o: Outcome)
    ensures Cobol.OutcomeName(o) != ""
  {
  }

  lemma BustOver21()
    ensures forall hand: seq<Card> :: EvaluateHand(hand).isBust <==> EvaluateHand(hand).value > 21
  {
  }
}
