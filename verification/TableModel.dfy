/** The player table as a value: what each accepted action makes of the table, the
    bank's tables and the shoe once it has run to its end. */
module TableModel {
  import opened Wrappers
  import opened Cards
  import opened HandEvaluator
  import opened BankTypes
  import opened DealerLoop
  import L = Ledger

  const MIN_BET := 10
  const MAX_BET := 500

  datatype Phase = WaitingPhase | BettingPhase | DealingPhase | PlayerTurn | DealerTurn | PayoutPhase

  datatype Status = Waiting | Betting | Playing | Standing | Bust | Natural | Won | Lost | Pushed

  datatype Player = Player(
    id: PlayerId, chips: int, bet: int, hand: seq<Card>, value: int, soft: bool, status: Status,
    tx: Option<TxId>, tx2: Option<TxId>)

  datatype Dealer = Dealer(hand: seq<Card>, value: int, revealed: bool)

  datatype GameState = GameState(phase: Phase, player: Player, dealer: Dealer, active: bool)

  /** A settled round, as the table knew it when it called the bank. */
  datatype Round = Round(outcome: Outcome, stake: int, doubled: bool, player: seq<Card>, dealer: seq<Card>)

  datatype World = World(table: GameState, bank: L.Ledger, shoe: seq<Card>, rounds: seq<Round>)

  datatype Action = BetAction(amount: int) | HitAction | StandAction | DoubleAction | SplitAction | UnknownAction

  const EMPTY_DEALER := Dealer([], 0, false)

  // ---- Calls to the bank ----

  function DollarBet(p: PlayerId, dollars: int): L.Request {
    L.Bet(p, 100 * dollars, 100 * dollars)
  }

  /** The whole dollars of a balance, cut off towards zero. */
  function WholeDollars(cents: int): int {
    if cents < 0 then -((-cents) / 100) else cents / 100
  }

  /** Settles one bet; the chips follow the bank's answer unless it is negative. */
  function PayBet(bank: L.Ledger, chips: int, tx: Option<TxId>, o: Outcome): (L.Ledger, int) {
    if tx.None? then (bank, chips)
    else match L.Prepare(bank, L.Payout(tx.value, o))
      case None => (bank, chips)
      case Some(row) =>
        (L.Commit(bank, row), if WholeDollars(row.after) >= 0 then WholeDollars(row.after) else chips)
  }

  // ---- The end of a round ----

  function OutcomeOf(p: Player, d: Dealer): Outcome {
    var playerBlackjack := p.value == 21 && |p.hand| == 2 && p.status == Natural;
    var dealerBlackjack := d.value == 21 && |d.hand| == 2;
    if p.status == Bust then Loss
    else if playerBlackjack && dealerBlackjack then Push
    else if playerBlackjack then Blackjack
    else if |p.hand| >= 5 then Win
    else if d.value > 21 || p.value > d.value then Win
    else if p.value == d.value then Push
    else Loss
  }

  function Cleared(p: Player, chips: int): Player {
    p.(chips := chips, bet := 0, hand := [], value := 0, soft := false, status := Waiting, tx := None, tx2 := None)
  }

  function Settle(w: World): World {
    var s := w.table;
    var o := OutcomeOf(s.player, s.dealer);
    var (bank, chips) := PayBet(w.bank, s.player.chips, s.player.tx, o);
    var (bank2, chips2) := PayBet(bank, chips, s.player.tx2, o);
    World(
      GameState(WaitingPhase, Cleared(s.player, chips2), EMPTY_DEALER, false),
      bank2, w.shoe,
      w.rounds + [Round(o, s.player.bet, s.player.tx2.Some?, s.player.hand, s.dealer.hand)])
  }

  const HOLE_FALLBACK := Card(Clubs, Eight)

  /** The dealer's turn up to the payout: a card is drawn for the hole, and more unless
      the player is bust. */
  function Dealt(w: World): World {
    var s := w.table;
    var (hand, shoe) :=
      if |s.dealer.hand| < 2 then (s.dealer.hand, w.shoe)
      else
        var (hole, rest) := Draw(w.shoe, HOLE_FALLBACK);
        (s.dealer.hand[1 := hole], rest);
    var (final, left) := if s.player.status == Bust then (hand, shoe) else DealerDraw(hand, shoe);
    w.(table := s.(phase := DealerTurn, dealer := Dealer(final, EvaluateHand(final).value, true)), shoe := left)
  }

  function FinishRound(w: World): World {
    Settle(Dealt(w))
  }

  // ---- Actions ----

  predicate LegalBet(bet: int, chips: int) {
    MIN_BET <= bet <= MAX_BET && bet <= chips
  }

  function Distance(a: int, b: int): nat {
    if a < b then b - a else a - b
  }

  /** The bet placed is the one nearest to what was asked for that is within the limits
      and the chips, or all the chips when they are below the minimum. */
  function ClampBet(amount: int, chips: int): (bet: int)
    ensures chips < MIN_BET ==> bet == chips
    ensures chips >= MIN_BET ==> LegalBet(bet, chips)
    ensures forall b :: LegalBet(b, chips) ==> Distance(bet, amount) <= Distance(b, amount)
  {
    var atLeast := if amount < MIN_BET then MIN_BET else amount;
    var atMost := if atLeast > MAX_BET then MAX_BET else atLeast;
    if atMost > chips then chips else atMost
  }

  /** The limits are ten and five hundred dollars. */
  lemma BetLimits()
    ensures ClampBet(5, 1000) == 10 && ClampBet(501, 1000) == 500
    ensures ClampBet(501, 60) == 60 && ClampBet(501, 6) == 6
  {
  }

  /** Four cards, or the `spare` ones the table makes up when fewer are left. */
  function OpeningCards(shoe: seq<Card>, spare: seq<Card>): (seq<Card>, seq<Card>) {
    if |shoe| < 4 then (spare, []) else (shoe[..4], shoe[4..])
  }

  /** A bet the bank took, with the opening cards dealt; the fourth card is not used. */
  function Opened(w: World, bet: int, row: Row, spare: seq<Card>): World
    requires |spare| == 4
  {
    var s := w.table;
    var (cards, shoe) := OpeningCards(w.shoe, spare);
    var hand := [cards[0], cards[2]];
    var e := EvaluateHand(hand);
    World(
      GameState(
        PlayerTurn,
        s.player.(chips := WholeDollars(row.after), bet := bet, hand := hand, value := e.value, soft := e.isSoft,
                  status := if e.value == 21 then Natural else Playing, tx := Some(w.bank.next)),
        Dealer([cards[1], HIDDEN], RankValue(cards[1].rank), false),
        true),
      L.Commit(w.bank, row), shoe, w.rounds)
  }

  function PlaceBet(w: World, amount: int, spare: seq<Card>): World
    requires |spare| == 4
  {
    var bet := ClampBet(amount, w.table.player.chips);
    if bet <= 0 then w
    else match L.Prepare(w.bank, DollarBet(w.table.player.id, bet))
      case None => w
      case Some(row) =>
        var dealt := Opened(w, bet, row, spare);
        if dealt.table.player.status == Natural then FinishRound(dealt) else dealt
  }

  function WithCard(p: Player, c: Card): Player {
    var e := EvaluateHand(p.hand + [c]);
    p.(hand := p.hand + [c], value := e.value, soft := e.isSoft)
  }

  const HIT_FALLBACK := Card(Hearts, Seven)
  const DOUBLE_FALLBACK := Card(Diamonds, Four)

  function Hit(w: World): World {
    var s := w.table;
    if s.player.status != Playing then w
    else
      var (c, shoe) := Draw(w.shoe, HIT_FALLBACK);
      var p := WithCard(s.player, c);
      if p.value > 21 then FinishRound(w.(table := s.(player := p.(status := Bust), active := false), shoe := shoe))
      else if p.value == 21 || |p.hand| >= 5 then
        FinishRound(w.(table := s.(player := p.(status := Standing), active := false), shoe := shoe))
      else w.(table := s.(player := p), shoe := shoe)
  }

  function Stand(w: World): World {
    FinishRound(w.(table := w.table.(player := w.table.player.(status := Standing), active := false)))
  }

  /** The second bet taken and the one card dealt. */
  function Doubled(w: World, row: Row): World {
    var s := w.table;
    var (c, shoe) := Draw(w.shoe, DOUBLE_FALLBACK);
    var p := WithCard(s.player, c);
    World(
      s.(player := p.(bet := 2 * s.player.bet, chips := WholeDollars(row.after), tx2 := Some(w.bank.next),
                      status := if p.value > 21 then Bust else Standing),
         active := false),
      L.Commit(w.bank, row), shoe, w.rounds)
  }

  function Double(w: World): World {
    var s := w.table;
    if s.player.status != Playing then w
    else if s.player.bet > s.player.chips then Hit(w)
    else match L.Prepare(w.bank, DollarBet(s.player.id, s.player.bet))
      case None => Hit(w)
      case Some(row) => FinishRound(Doubled(w, row))
  }

  predicate Accepted(phase: Phase, a: Action) {
    match phase
    case WaitingPhase => a.BetAction?
    case PlayerTurn => a.HitAction? || a.StandAction? || a.DoubleAction? || a.SplitAction?
    case _ => false
  }

  /** One action, run to its end; what the phase does not accept changes nothing. */
  function Act(w: World, a: Action, spare: seq<Card>): World
    requires |spare| == 4
  {
    if !Accepted(w.table.phase, a) then w
    else match a
      case BetAction(amount) => PlaceBet(w, amount, spare)
      case HitAction => Hit(w)
      case StandAction => Stand(w)
      case DoubleAction => Double(w)
      case _ => w
  }
}
