/** What holds of a table whenever no action is under way, and what each action does
    to the player's money. */
module TableRest {
  import opened Wrappers
  import opened Cards
  import opened HandEvaluator
  import opened BankTypes
  import opened DealerLoop
  import opened TableModel
  import opened Decimal
  import Cobol
  import L = Ledger

  // ---- The table's transaction ids and the bank's open bets ----

  function OpenOf(l: L.Ledger, p: PlayerId): set<TxId> {
    set t | t in l.open && l.open[t].player == p
  }

  function Ids(p: Player): set<TxId> {
    (if p.tx.Some? then {p.tx.value} else {}) + (if p.tx2.Some? then {p.tx2.value} else {})
  }

  function Staked(l: L.Ledger, tx: Option<TxId>): int {
    if tx.Some? && tx.value in l.open then l.open[tx.value].amount else 0
  }

  predicate WholeStake(l: L.Ledger, tx: Option<TxId>) {
    0 <= Staked(l, tx) <= 100 * MAX_BET && Staked(l, tx) % 100 == 0
  }

  /** The player's open bets are the non-empty ids the table holds, and their amounts
      are the table's bet. */
  predicate Linked(w: World) {
    var p := w.table.player;
    && OpenOf(w.bank, p.id) == Ids(p)
    && (p.tx2.Some? ==> p.tx.Some? && p.tx != p.tx2)
    && WholeStake(w.bank, p.tx) && WholeStake(w.bank, p.tx2)
    && Staked(w.bank, p.tx) + Staked(w.bank, p.tx2) == 100 * p.bet
  }

  predicate Sound(w: World) {
    L.Valid(w.bank) && AllReal(w.shoe)
  }

  predicate HandShown(p: Player) {
    && AllReal(p.hand)
    && p.value == EvaluateHand(p.hand).value && p.soft == EvaluateHand(p.hand).isSoft
  }

  predicate HoleHidden(d: Dealer) {
    |d.hand| == 2 && Real(d.hand[0]) && d.hand[1] == HIDDEN && !d.revealed && d.value == RankValue(d.hand[0].rank)
  }

  /** Between actions the table waits, cleared, or it is the player's turn with two
      to four cards at no more than twenty and one dealer card showing. */
  predicate AtRest(w: World) {
    var p := w.table.player;
    && Sound(w) && Linked(w)
    && match w.table.phase
       case WaitingPhase =>
         p == Cleared(p, p.chips) && w.table.dealer == EMPTY_DEALER && !w.table.active
       case PlayerTurn =>
         && p.status == Playing && p.bet > 0 && p.tx.Some? && p.tx2.None?
         && HandShown(p) && 2 <= |p.hand| <= 4 && p.value <= 20
         && HoleHidden(w.table.dealer) && w.table.active
       case _ => false
  }

  function NaturalHand(hand: seq<Card>): bool {
    EvaluateHand(hand).isBlackjack
  }

  /** Ready for the dealer: the player's status says how the hand ended. */
  predicate HandOver(w: World) {
    var p := w.table.player;
    && Sound(w) && Linked(w) && HandShown(p) && HoleHidden(w.table.dealer)
    && p.bet > 0 && p.tx.Some? && |p.hand| >= 2 && (p.tx2.Some? ==> |p.hand| >= 3)
    && (p.status == Bust <==> p.value > 21)
    && (p.status == Natural <==> NaturalHand(p.hand))
  }

  // ---- One bet, one payout ----

  lemma BetTaken(w: World, dollars: int)
    requires Sound(w) && 0 < dollars <= MAX_BET && L.Prepare(w.bank, DollarBet(w.table.player.id, dollars)).Some?
    ensures var p := w.table.player;
            var row := L.Prepare(w.bank, DollarBet(p.id, dollars)).value;
            var bank := L.Commit(w.bank, row);
            && L.Valid(bank) && w.bank.next !in w.bank.open
            && OpenOf(bank, p.id) == OpenOf(w.bank, p.id) + {w.bank.next}
            && Staked(bank, Some(w.bank.next)) == 100 * dollars
            && (forall t :: t in w.bank.open ==> t in bank.open && bank.open[t] == w.bank.open[t])
            && p.id in w.bank.accounts && row.player == p.id
            && (w.bank.accounts[p.id] >= 0 ==> row.after == w.bank.accounts[p.id] - 100 * dollars >= 0)
            && bank.next == w.bank.next + 1
  {
    var bet := DollarBet(w.table.player.id, dollars);
    L.PreparedRow(w.bank, bet);
    L.ApplyValid(w.bank, L.Served(bet));
  }

  lemma StakeReturned(bet: OpenBet, o: Outcome)
    requires 0 <= bet.amount <= 100 * MAX_BET
    ensures L.Returned(bet, o) == Cobol.Documented(o, bet.amount) <= 250 * MAX_BET
  {
    Cobol.FieldsHoldReturn(o, bet.amount);
    assert Cobol.Unsigned15(ReadBack(bet.amount)) == bet.amount;
  }

  lemma PayoutPrepared(bank: L.Ledger, tx: TxId, o: Outcome)
    requires L.Valid(bank) && tx in bank.open && 0 <= bank.open[tx].amount <= 100 * MAX_BET
    ensures var prepared, bet := L.Prepare(bank, L.Payout(tx, o)), bank.open[tx];
            && prepared.Some? && prepared.value.player == bet.player && prepared.value.ref == Some(tx)
            && prepared.value.kind == Cobol.PayoutType(o) != BetRow
            && (bank.accounts[bet.player] >= 0 ==>
                  prepared.value.after
                  == Cobol.Signed15(bank.accounts[bet.player] + Cobol.Documented(o, bet.amount)) >= 0)
  {
    var bet := bank.open[tx];
    StakeReturned(bet, o);
    hide L.Returned, Cobol.Documented, L.PrepareCredit;
    CreditPrepared(bank, bet.player, L.Returned(bet, o), Cobol.PayoutType(o), tx);
  }

  lemma CreditPrepared(bank: L.Ledger, p: PlayerId, cents: int, kind: RowType, tx: TxId)
    requires p in bank.accounts && -COLUMN_LIMIT < bank.accounts[p] < COLUMN_LIMIT && 0 <= cents < COLUMN_LIMIT
    ensures var prepared := L.PrepareCredit(bank, p, cents, cents, kind, Some(tx));
            && prepared.Some? && prepared.value.player == p
            && prepared.value.ref == Some(tx) && prepared.value.kind == kind
            && (bank.accounts[p] >= 0 ==> prepared.value.after == Cobol.Signed15(bank.accounts[p] + cents) >= 0)
  {
    var balance := ReadBack(bank.accounts[p]);
    Credited(balance, cents);
    hide Cobol.CreditOf, Cobol.Signed15;
  }

  lemma Credited(balance: int, cents: int)
    requires -COLUMN_LIMIT < balance < COLUMN_LIMIT && 0 <= cents < COLUMN_LIMIT
    ensures Cobol.CreditOf(balance, cents) == Some(Cobol.Signed15(balance + cents))
    ensures balance >= 0 ==> Cobol.Signed15(balance + cents) >= 0
  {
    L.CreditStores(balance, cents);
    assert balance + cents >= 0 ==> Cobol.Signed15(balance + cents) >= 0;
    hide Cobol.Signed15;
  }

  /** Paying an open bet removes it and credits what COBOL returns for it. */
  lemma BetPaid(bank: L.Ledger, chips: int, tx: Option<TxId>, o: Outcome, p: PlayerId)
    requires L.Valid(bank) && (tx.Some? ==> tx.value in OpenOf(bank, p)) && WholeStake(bank, tx)
    ensures var (after, chips2) := PayBet(bank, chips, tx, o);
            && L.Valid(after) && after.next == bank.next
            && OpenOf(after, p) == OpenOf(bank, p) - (if tx.Some? then {tx.value} else {})
            && (forall t :: t in after.open ==> t in bank.open && after.open[t] == bank.open[t])
            && after.accounts.Keys == bank.accounts.Keys
            && (tx.None? ==> after == bank && chips2 == chips)
            && (tx.Some? && p in bank.accounts && bank.accounts[p] >= 0 ==>
                  (var returned := Cobol.Documented(o, Staked(bank, tx));
                   && after.accounts[p] == Cobol.Signed15(bank.accounts[p] + returned) >= 0
                   && chips2 == after.accounts[p] / 100))
  {
    if tx.Some? {
      var r := L.Payout(tx.value, o);
      PayoutPrepared(bank, tx.value, o);
      L.PreparedRow(bank, r);
      L.ApplyValid(bank, L.Served(r));
      hide L.Prepare, Cobol.Documented, Cobol.Signed15;
    }
  }

  // ---- The end of a round ----

  /** A hand's strength: bust below everything, then the total, a five-card hand above
      every total, a natural above that. */
  function PlayerStrength(hand: seq<Card>): int {
    if EvaluateHand(hand).value > 21 then -1
    else if NaturalHand(hand) then 23
    else if |hand| >= 5 then 22
    else EvaluateHand(hand).value
  }

  /** A natural of the dealer counts as one only against a natural. */
  function DealerStrength(hand: seq<Card>, player: seq<Card>): int {
    if EvaluateHand(hand).value > 21 then 0
    else if NaturalHand(hand) && NaturalHand(player) then 23
    else EvaluateHand(hand).value
  }

  function FairOutcome(player: seq<Card>, dealer: seq<Card>): Outcome {
    var p, d := PlayerStrength(player), DealerStrength(dealer, player);
    if p < d then Loss else if p == d then Push else if NaturalHand(player) then Blackjack else Win
  }

  predicate Fair(r: Round) {
    && r.stake > 0 && AllReal(r.player) && AllReal(r.dealer)
    && r.outcome == FairOutcome(r.player, r.dealer)
    && (r.doubled ==> r.outcome != Blackjack)
    && (if PlayerStrength(r.player) < 0 then |r.dealer| == 2
        else 2 <= |r.dealer| <= 12 && 17 <= EvaluateHand(r.dealer).value <= 26)
  }

  lemma RealTotal(hand: seq<Card>)
    requires AllReal(hand)
    ensures EvaluateHand(hand).value >= |hand|
  {
    Closed(hand);
    HardAtLeastOne(hand);
  }

  /** The table's outcome compares the two strengths. */
  lemma OutcomeIsFair(p: Player, d: Dealer)
    requires HandShown(p) && p.hand != []
    requires (p.status == Bust <==> p.value > 21) && (p.status == Natural <==> NaturalHand(p.hand))
    requires AllReal(d.hand) && d.value == EvaluateHand(d.hand).value
    ensures OutcomeOf(p, d) == FairOutcome(p.hand, d.hand)
  {
    RealTotal(p.hand);
    RealTotal(d.hand);
  }

  lemma DealtDealer(w: World)
    requires HandOver(w)
    ensures var d := Dealt(w);
            && d.bank == w.bank && d.table.player == w.table.player && d.rounds == w.rounds && AllReal(d.shoe)
            && AllReal(d.table.dealer.hand) && d.table.dealer.value == EvaluateHand(d.table.dealer.hand).value
            && (if w.table.player.status == Bust then |d.table.dealer.hand| == 2
                else 2 <= |d.table.dealer.hand| <= 12 && 17 <= d.table.dealer.value <= 26)
  {
    var (hole, rest) := Draw(w.shoe, HOLE_FALLBACK);
    var hand := w.table.dealer.hand[1 := hole];
    assert AllReal(hand) && AllReal(rest);
    if w.table.player.status != Bust {
      hide EvaluateHand;
      TwoCards(hand);
      DealerDrawBounds(hand, rest);
      AtMostTenDraws(hand, rest);
    }
  }

  lemma TwoCards(hand: seq<Card>)
    requires |hand| == 2
    ensures EvaluateHand(hand).value <= 21
  {
    Closed(hand);
    TwoCardTotal(hand);
  }

  lemma SettleRests(w: World)
    requires Sound(w) && Linked(w) && w.table.player.tx.Some?
    ensures AtRest(Settle(w)) && Settle(w).table.phase == WaitingPhase
    ensures Settle(w).bank.next == w.bank.next && Settle(w).table.player.id == w.table.player.id
    ensures Settle(w).bank.accounts.Keys == w.bank.accounts.Keys
  {
    var p := w.table.player;
    var o := OutcomeOf(p, w.table.dealer);
    var (bank, chips) := PayBet(w.bank, p.chips, p.tx, o);
    BetPaid(w.bank, p.chips, p.tx, o, p.id);
    BetPaid(bank, chips, p.tx2, o, p.id);
    hide PayBet, OutcomeOf, L.Valid;
  }

  /** The dealer's turn and the payout end in a table at rest and one more fair round. */
  lemma FinishRests(w: World)
    requires HandOver(w)
    ensures AtRest(FinishRound(w)) && FinishRound(w).table.phase == WaitingPhase
    ensures FinishRound(w).bank.next == w.bank.next && FinishRound(w).table.player.id == w.table.player.id
    ensures |FinishRound(w).rounds| == |w.rounds| + 1 && w.rounds <= FinishRound(w).rounds
    ensures Fair(FinishRound(w).rounds[|w.rounds|])
  {
    DealtDealer(w);
    var d := Dealt(w);
    assert Linked(d) && Sound(d);
    SettleRests(d);
    OutcomeIsFair(d.table.player, d.table.dealer);
    hide Dealt, Linked, Sound, AtRest, EvaluateHand;
  }

  // ---- Actions ----

  /** What an action from a table at rest must leave behind. */
  predicate Rested(w: World, after: World) {
    && AtRest(after) && after.table.player.id == w.table.player.id
    && w.bank.next <= after.bank.next
    && (after.rounds == w.rounds
        || (after.table.phase == WaitingPhase && w.rounds <= after.rounds && |after.rounds| == |w.rounds| + 1
            && Fair(after.rounds[|w.rounds|])))
  }

  lemma OpeningDeal(w: World, bet: int, row: Row, spare: seq<Card>)
    requires |spare| == 4 && AllReal(spare) && AllReal(w.shoe)
    ensures var o := Opened(w, bet, row, spare);
            && AllReal(o.shoe) && HandShown(o.table.player) && HoleHidden(o.table.dealer) && |o.table.player.hand| == 2
            && o.table.player.value <= 21
            && (o.table.player.status == Natural <==> NaturalHand(o.table.player.hand))
            && (o.table.player.status == Natural || (o.table.player.status == Playing && o.table.player.value <= 20))
            && o.bank == L.Commit(w.bank, row) && o.rounds == w.rounds && o.table.phase == PlayerTurn && o.table.active
            && o.table.player.id == w.table.player.id && o.table.player.bet == bet
            && o.table.player.tx == Some(w.bank.next) && o.table.player.tx2 == w.table.player.tx2
  {
    TwoCards(Opened(w, bet, row, spare).table.player.hand);
  }

  lemma PlaceBetRests(w: World, amount: int, spare: seq<Card>)
    requires AtRest(w) && w.table.phase == WaitingPhase && |spare| == 4 && AllReal(spare)
    ensures Rested(w, PlaceBet(w, amount, spare))
  {
    var p := w.table.player;
    var bet := ClampBet(amount, p.chips);
    if bet > 0 && L.Prepare(w.bank, DollarBet(p.id, bet)).Some? {
      var row := L.Prepare(w.bank, DollarBet(p.id, bet)).value;
      BetTaken(w, bet);
      OpeningDeal(w, bet, row, spare);
      var o := Opened(w, bet, row, spare);
      hide L.Prepare, L.Commit, L.Valid, Opened, FinishRound, EvaluateHand, Fair;
      assert Linked(o);
      if o.table.player.status == Natural {
        FinishRests(o);
      }
    }
  }

  lemma CardAdded(p: Player, c: Card)
    requires HandShown(p) && Real(c)
    ensures HandShown(WithCard(p, c)) && |WithCard(p, c).hand| == |p.hand| + 1
    ensures WithCard(p, c) == p.(hand := p.hand + [c], value := WithCard(p, c).value, soft := WithCard(p, c).soft)
  {
  }

  lemma HitRests(w: World)
    requires AtRest(w) && w.table.phase == PlayerTurn
    ensures Rested(w, Hit(w)) && Hit(w).bank.next == w.bank.next
    ensures Hit(w).table.phase == PlayerTurn ==> |Hit(w).table.player.hand| == |w.table.player.hand| + 1
  {
    hide WithCard, EvaluateHand, FinishRound, Fair, L.Valid;
    var s := w.table;
    var (c, shoe) := Draw(w.shoe, HIT_FALLBACK);
    CardAdded(s.player, c);
    var p := WithCard(s.player, c);
    assert AllReal(shoe);
    NoNatural(p.hand);
    if p.value > 21 {
      FinishRests(w.(table := s.(player := p.(status := Bust), active := false), shoe := shoe));
    } else if p.value == 21 || |p.hand| >= 5 {
      FinishRests(w.(table := s.(player := p.(status := Standing), active := false), shoe := shoe));
    }
  }

  lemma NoNatural(hand: seq<Card>)
    requires |hand| >= 3 || EvaluateHand(hand).value <= 20
    ensures !NaturalHand(hand)
  {
  }

  lemma StandRests(w: World)
    requires AtRest(w) && w.table.phase == PlayerTurn
    ensures Rested(w, Stand(w)) && Stand(w).table.phase == WaitingPhase
  {
    NoNatural(w.table.player.hand);
    hide EvaluateHand, FinishRound, Fair, L.Valid;
    FinishRests(w.(table := w.table.(player := w.table.player.(status := Standing), active := false)));
  }

  lemma DoubleRests(w: World)
    requires AtRest(w) && w.table.phase == PlayerTurn
    ensures Rested(w, Double(w))
    ensures Double(w).table.phase == PlayerTurn ==> |Double(w).table.player.hand| == |w.table.player.hand| + 1
  {
    hide Hit, FinishRound, HandOver, L.Prepare, EvaluateHand;
    var p := w.table.player;
    HitRests(w);
    if p.bet <= p.chips && L.Prepare(w.bank, DollarBet(p.id, p.bet)).Some? {
      DoubledIsOver(w);
      hide Doubled;
      FinishRests(Doubled(w, L.Prepare(w.bank, DollarBet(p.id, p.bet)).value));
    }
  }

  lemma DoubledIsOver(w: World)
    requires AtRest(w) && w.table.phase == PlayerTurn
    requires L.Prepare(w.bank, DollarBet(w.table.player.id, w.table.player.bet)).Some?
    ensures var d := Doubled(w, L.Prepare(w.bank, DollarBet(w.table.player.id, w.table.player.bet)).value);
            && HandOver(d) && d.rounds == w.rounds && d.bank.next == w.bank.next + 1
            && d.table.player.id == w.table.player.id
  {
    var s := w.table;
    var row := L.Prepare(w.bank, DollarBet(s.player.id, s.player.bet)).value;
    BetTaken(w, s.player.bet);
    var (c, shoe) := Draw(w.shoe, DOUBLE_FALLBACK);
    CardAdded(s.player, c);
    NoNatural(WithCard(s.player, c).hand);
    hide WithCard, EvaluateHand, L.Prepare, L.Commit, L.Valid;
    assert AllReal(shoe);
  }

  /** Every action, run to its end from a table at rest, leaves it at rest, and either
      settles nothing or settles one round fairly. */
  lemma ActRests(w: World, a: Action, spare: seq<Card>)
    requires AtRest(w) && |spare| == 4 && AllReal(spare)
    ensures Rested(w, Act(w, a, spare))
  {
    hide PlaceBet, Hit, Stand, Double, AtRest, Fair;
    if Accepted(w.table.phase, a) {
      match a
      case BetAction(amount) => PlaceBetRests(w, amount, spare);
      case HitAction => HitRests(w);
      case StandAction => StandRests(w);
      case DoubleAction => DoubleRests(w);
      case _ =>
    }
  }
}
