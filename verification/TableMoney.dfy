/** What each action of the table does to the player's balance at the bank. */
module TableMoney {
  import opened Wrappers
  import opened Cards
  import opened HandEvaluator
  import opened BankTypes
  import opened Decimal
  import opened TableModel
  import opened TableRest
  import Cobol
  import DealerLoop
  import L = Ledger

  /** What the player gains on a stake, in dollars; the natural's three halves are
      rounded down. */
  function Profit(o: Outcome, stake: int): int {
    match o
    case Loss => -stake
    case Push => 0
    case Win => stake
    case Blackjack => 3 * stake / 2
  }

  function TotalProfit(rounds: seq<Round>): int {
    if rounds == [] then 0
    else TotalProfit(rounds[..|rounds| - 1]) + Profit(rounds[|rounds| - 1].outcome, rounds[|rounds| - 1].stake)
  }

  function Balance(w: World): int
    requires w.table.player.id in w.bank.accounts
  {
    w.bank.accounts[w.table.player.id]
  }

  /** The balance with the stake on the table put back and every settled round undone. */
  function Worth(w: World): int
    requires w.table.player.id in w.bank.accounts
  {
    Balance(w) + 100 * w.table.player.bet - 100 * TotalProfit(w.rounds)
  }

  /** No round pays back more than this, in cents. */
  const ROUND_LIMIT := 200_000

  predicate Funded(w: World) {
    w.table.player.id in w.bank.accounts && Balance(w) >= 0
  }

  predicate Synced(w: World)
    requires w.table.player.id in w.bank.accounts
  {
    Balance(w) == 100 * w.table.player.chips
  }

  lemma WholeReturn(o: Outcome, bet: nat)
    requires bet % 100 == 0
    ensures Cobol.Documented(o, bet) == bet + 100 * Profit(o, bet / 100)
    ensures Cobol.Documented(o, bet) % 100 == 0
  {
    var dollars := bet / 100;
    assert bet == 100 * dollars;
    assert 3 * bet / 200 == 3 * dollars / 2;
  }

  lemma CreditedWhole(balance: int, returned: int)
    requires 0 <= balance < COLUMN_LIMIT && returned >= 0 && returned % 100 == 0
    ensures Cobol.Signed15(balance + returned) % 100 == balance % 100
    ensures balance + returned < COLUMN_LIMIT ==> Cobol.Signed15(balance + returned) == balance + returned
  {
    var sum := balance + returned;
    assert sum == Cobol.FIELD * (sum / Cobol.FIELD) + sum % Cobol.FIELD;
    assert Cobol.FIELD == 100 * 10_000_000_000_000;
  }

  /** One payout credits the stake and its profit, while the column has room for them. */
  lemma BetPays(bank: L.Ledger, chips: int, tx: Option<TxId>, o: Outcome, p: PlayerId)
    requires L.Valid(bank) && (tx.Some? ==> tx.value in OpenOf(bank, p)) && WholeStake(bank, tx)
    requires p in bank.accounts && bank.accounts[p] >= 0
    ensures var (after, chips2) := PayBet(bank, chips, tx, o);
            var before, dollars := bank.accounts[p], Staked(bank, tx) / 100;
            && p in after.accounts && after.accounts[p] >= 0 && after.accounts[p] % 100 == before % 100
            && (if tx.Some? then chips2 == after.accounts[p] / 100 else after == bank && chips2 == chips)
            && (before + 100 * (dollars + Profit(o, dollars)) < COLUMN_LIMIT ==>
                  after.accounts[p] == before + 100 * (dollars + Profit(o, dollars)))
  {
    var staked := Staked(bank, tx);
    BetPaid(bank, chips, tx, o, p);
    WholeReturn(o, staked);
    CreditedWhole(bank.accounts[p], Cobol.Documented(o, staked));
    hide PayBet, L.Valid, Cobol.Signed15, Cobol.Documented, OpenOf;
  }

  /** A round of total stake S changes the balance by S plus its profit at the payout,
      and leaves the chips equal to the whole dollars of the balance. */
  lemma SettlePays(w: World)
    requires Sound(w) && Linked(w) && w.table.player.tx.Some? && Funded(w)
    ensures var after := Settle(w);
            var o, stake := OutcomeOf(w.table.player, w.table.dealer), w.table.player.bet;
            && Funded(after) && after.table.player.chips == Balance(after) / 100
            && Balance(after) % 100 == Balance(w) % 100
            && ((w.table.player.tx2.Some? ==> o != Blackjack) && Balance(w) + ROUND_LIMIT < COLUMN_LIMIT ==>
                  (Balance(after) == Balance(w) + 100 * (stake + Profit(o, stake))
                   && Balance(w) <= Balance(after) <= Balance(w) + ROUND_LIMIT))
  {
    var p := w.table.player;
    var o := OutcomeOf(p, w.table.dealer);
    var (bank, chips) := PayBet(w.bank, p.chips, p.tx, o);
    hide PayBet, OutcomeOf, L.Valid;
    BetPaid(w.bank, p.chips, p.tx, o, p.id);
    BetPays(w.bank, p.chips, p.tx, o, p.id);
    BetPays(bank, chips, p.tx2, o, p.id);
    assert p.tx2.Some? ==> Staked(bank, p.tx2) == Staked(w.bank, p.tx2);
    hide OpenOf, Staked;
  }

  lemma ProfitAppended(rounds: seq<Round>, r: Round)
    ensures TotalProfit(rounds + [r]) == TotalProfit(rounds) + Profit(r.outcome, r.stake)
  {
    assert (rounds + [r])[..|rounds|] == rounds;
  }

  /** How an action may change the balance, chips and settled rounds. */
  predicate Fairly(w: World, after: World)
    requires Funded(w)
  {
    && Funded(after)
    && Balance(after) % 100 == Balance(w) % 100
    && (Balance(w) + ROUND_LIMIT < COLUMN_LIMIT ==>
          Worth(after) == Worth(w) && Balance(after) <= Balance(w) + ROUND_LIMIT)
  }

  lemma FinishPays(w: World)
    requires HandOver(w) && Funded(w)
    ensures Fairly(w, FinishRound(w))
    ensures FinishRound(w).table.player.chips == Balance(FinishRound(w)) / 100
  {
    DealtDealer(w);
    var d := Dealt(w);
    hide Dealt;
    OutcomeIsFair(d.table.player, d.table.dealer);
    SettlePays(d);
    ProfitAppended(w.rounds, Settle(d).rounds[|w.rounds|]);
    hide PayBet, OutcomeOf, EvaluateHand;
  }

  /** The chips follow the bank whenever an action touches the account. */
  predicate Follows(w: World, after: World)
    requires Funded(w)
  {
    && Fairly(w, after)
    && (after.table.player.chips == Balance(after) / 100
        || (after.bank == w.bank && after.table.player.chips == w.table.player.chips))
    && (after.bank.next > w.bank.next ==> after.table.player.chips == Balance(after) / 100)
  }

  /** Paying a stake in moves it from the balance to the table. */
  predicate StakeMoved(w: World, after: World, cents: int)
    requires Funded(w)
  {
    && Funded(after) && after.table.player.id == w.table.player.id && after.rounds == w.rounds
    && Balance(after) == Balance(w) - cents && cents >= 0 && cents % 100 == 0
    && Worth(after) == Worth(w) && after.table.player.chips == Balance(after) / 100
  }

  lemma FinishAfterStake(w: World, staked: World, cents: int)
    requires Funded(w) && StakeMoved(w, staked, cents) && HandOver(staked)
    ensures Follows(w, FinishRound(staked))
  {
    hide FinishRound, HandOver, Worth;
    FinishPays(staked);
    WholeDifference(Balance(w), cents);
  }

  lemma WholeDifference(balance: int, cents: int)
    requires cents % 100 == 0
    ensures (balance - cents) % 100 == balance % 100
  {
  }

  lemma PlaceBetPays(w: World, amount: int, spare: seq<Card>)
    requires AtRest(w) && w.table.phase == WaitingPhase && Funded(w) && |spare| == 4 && AllReal(spare)
    ensures Follows(w, PlaceBet(w, amount, spare))
  {
    var p := w.table.player;
    var bet := ClampBet(amount, p.chips);
    if bet > 0 && L.Prepare(w.bank, DollarBet(p.id, bet)).Some? {
      var row := L.Prepare(w.bank, DollarBet(p.id, bet)).value;
      BetTaken(w, bet);
      OpeningDeal(w, bet, row, spare);
      var o := Opened(w, bet, row, spare);
      assert StakeMoved(w, o, 100 * bet);
      hide L.Prepare, L.Commit, L.Valid, Opened, FinishRound, EvaluateHand;
      if o.table.player.status == Natural {
        assert Linked(o);
        FinishAfterStake(w, o, 100 * bet);
      }
    }
  }

  lemma HitPays(w: World)
    requires AtRest(w) && w.table.phase == PlayerTurn && Funded(w)
    ensures Follows(w, Hit(w))
  {
    hide WithCard, EvaluateHand, FinishRound, L.Valid, OpenOf, Staked;
    var s := w.table;
    var (c, shoe) := DealerLoop.Draw(w.shoe, HIT_FALLBACK);
    CardAdded(s.player, c);
    var p := WithCard(s.player, c);
    assert AllReal(shoe);
    NoNatural(p.hand);
    if p.value > 21 {
      FinishPays(w.(table := s.(player := p.(status := Bust), active := false), shoe := shoe));
    } else if p.value == 21 || |p.hand| >= 5 {
      FinishPays(w.(table := s.(player := p.(status := Standing), active := false), shoe := shoe));
    }
  }

  lemma StandPays(w: World)
    requires AtRest(w) && w.table.phase == PlayerTurn && Funded(w)
    ensures Follows(w, Stand(w))
  {
    NoNatural(w.table.player.hand);
    hide EvaluateHand, FinishRound, L.Valid;
    FinishPays(w.(table := w.table.(player := w.table.player.(status := Standing), active := false)));
  }

  lemma DoublePays(w: World)
    requires AtRest(w) && w.table.phase == PlayerTurn && Funded(w)
    ensures Follows(w, Double(w))
  {
    hide Hit, FinishRound, HandOver, L.Prepare, EvaluateHand;
    var p := w.table.player;
    HitPays(w);
    if p.bet <= p.chips && L.Prepare(w.bank, DollarBet(p.id, p.bet)).Some? {
      DoubleMovesStake(w);
      DoubledIsOver(w);
      hide Doubled;
      FinishAfterStake(w, Doubled(w, L.Prepare(w.bank, DollarBet(p.id, p.bet)).value), 100 * p.bet);
    }
  }

  lemma DoubleMovesStake(w: World)
    requires AtRest(w) && w.table.phase == PlayerTurn && Funded(w)
    requires L.Prepare(w.bank, DollarBet(w.table.player.id, w.table.player.bet)).Some?
    ensures StakeMoved(w, Doubled(w, L.Prepare(w.bank, DollarBet(w.table.player.id, w.table.player.bet)).value),
                       100 * w.table.player.bet)
  {
    hide L.Prepare, EvaluateHand;
    BetTaken(w, w.table.player.bet);
  }

  /** Every action conserves the player's worth, and leaves chips that were never
      refreshed or equal the whole dollars of the balance. */
  lemma ActPays(w: World, a: Action, spare: seq<Card>)
    requires AtRest(w) && Funded(w) && |spare| == 4 && AllReal(spare)
    ensures Follows(w, Act(w, a, spare))
  {
    hide PlaceBet, Hit, Stand, Double, AtRest;
    if Accepted(w.table.phase, a) {
      match a
      case BetAction(amount) => PlaceBetPays(w, amount, spare);
      case HitAction => HitPays(w);
      case StandAction => StandPays(w);
      case DoubleAction => DoublePays(w);
      case _ =>
    }
  }
}
