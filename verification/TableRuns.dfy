/** Whole runs of a table: its own actions one after the other, with anything the bank
    does for others, or for the player away from the table, in between. */
module TableRuns {
  import opened Wrappers
  import opened Cards
  import opened BankTypes
  import opened Decimal
  import opened TableModel
  import opened TableRest
  import opened TableMoney
  import Cobol
  import L = Ledger

  datatype Event = Acted(action: Action, spare: seq<Card>) | Banked(event: L.Event)

  predicate ValidEvent(e: Event) {
    match e
    case Acted(_, spare) => |spare| == 4 && AllReal(spare)
    case Banked(b) => L.ValidEvent(b)
  }

  predicate ValidEvents(events: seq<Event>) {
    forall i :: 0 <= i < |events| ==> ValidEvent(events[i])
  }

  function Step(w: World, e: Event): World
    requires ValidEvent(e)
  {
    match e
    case Acted(a, spare) => Act(w, a, spare)
    case Banked(b) => w.(bank := L.Apply(w.bank, b))
  }

  function Run(w: World, events: seq<Event>): World
    requires ValidEvents(events)
  {
    if events == [] then w else Step(Run(w, events[..|events| - 1]), events[|events| - 1])
  }

  /** The table is the only one that bets for its player and settles the player's bets. */
  predicate OnlyBettor(w: World, e: Event) {
    match e
    case Banked(Served(Bet(p, _, _))) => p != w.table.player.id
    case Banked(Served(Payout(tx, _))) => tx in w.bank.open ==> w.bank.open[tx].player != w.table.player.id
    case _ => true
  }

  predicate OnlyBettorThroughout(w: World, events: seq<Event>)
    requires ValidEvents(events)
  {
    events == [] ||
    (OnlyBettorThroughout(w, events[..|events| - 1])
     && OnlyBettor(Run(w, events[..|events| - 1]), events[|events| - 1]))
  }

  // ---- Bets stay linked ----

  lemma BankedRests(w: World, b: L.Event)
    requires AtRest(w) && L.ValidEvent(b) && OnlyBettor(w, Banked(b))
    ensures AtRest(w.(bank := L.Apply(w.bank, b)))
    ensures w.bank.next <= L.Apply(w.bank, b).next
  {
    L.ApplyValid(w.bank, b);
    if b.Served? && L.Prepare(w.bank, b.request).Some? {
      L.PreparedRow(w.bank, b.request);
      L.RowOf(w.bank, b.request);
    }
    var bank := L.Apply(w.bank, b);
    var p := w.table.player;
    hide L.Prepare, L.Valid;
    assert OpenOf(bank, p.id) == OpenOf(w.bank, p.id);
    assert forall t :: t in OpenOf(w.bank, p.id) ==> bank.open[t] == w.bank.open[t];
  }

  /** In every run between whose actions the bank serves anything but bets and payouts
      of this player, the player's open bets are the ids the table holds, their amounts
      are its bet, the hand and the dealer are as the phase says, and every round settled
      was settled fairly. */
  lemma {:induction false} AlwaysAtRest(w: World, events: seq<Event>)
    requires AtRest(w) && ValidEvents(events) && OnlyBettorThroughout(w, events)
    ensures var after := Run(w, events);
            && AtRest(after) && after.table.player.id == w.table.player.id
            && w.rounds <= after.rounds
            && (forall i :: |w.rounds| <= i < |after.rounds| ==> Fair(after.rounds[i]))
  {
    hide AtRest, Fair, Act, OnlyBettor;
    if events != [] {
      var front, e := events[..|events| - 1], events[|events| - 1];
      AlwaysAtRest(w, front);
      var mid := Run(w, front);
      match e
      case Acted(a, spare) => ActRests(mid, a, spare);
      case Banked(b) => BankedRests(mid, b);
    }
  }

  // ---- Rounds end ----

  predicate IsMove(a: Action) {
    a.HitAction? || a.StandAction? || a.DoubleAction?
  }

  lemma MoveAdvances(w: World, a: Action, spare: seq<Card>)
    requires AtRest(w) && w.table.phase == PlayerTurn && IsMove(a) && |spare| == 4 && AllReal(spare)
    ensures var after := Act(w, a, spare);
            after.table.phase == WaitingPhase
            || (after.table.phase == PlayerTurn && |after.table.player.hand| == |w.table.player.hand| + 1)
  {
    ActRests(w, a, spare);
    match a {
      case HitAction => HitRests(w);
      case StandAction => StandRests(w);
      case DoubleAction => DoubleRests(w);
    }
    hide Hit, Stand, Double;
  }

  function Moves(events: seq<Event>): nat {
    if events == [] then 0
    else Moves(events[..|events| - 1]) + if events[|events| - 1].Acted? then 1 else 0
  }

  /** From a hand of n cards, 5 - n moves end the round, whatever they are, whatever is
      drawn and whatever the bank does for others in between: hits alone end it after
      three at the latest. */
  lemma {:induction false} RoundEnds(w: World, events: seq<Event>)
    requires AtRest(w) && w.table.phase == PlayerTurn && ValidEvents(events) && OnlyBettorThroughout(w, events)
    requires forall i :: 0 <= i < |events| && events[i].Acted? ==> IsMove(events[i].action)
    ensures var after := Run(w, events);
            && AtRest(after)
            && (after.table.phase == WaitingPhase
                || (after.table.phase == PlayerTurn
                    && |after.table.player.hand| == |w.table.player.hand| + Moves(events)))
    ensures Moves(events) >= 5 - |w.table.player.hand| ==> Run(w, events).table.phase == WaitingPhase
  {
    hide OnlyBettor, Act;
    if events != [] {
      var front, e := events[..|events| - 1], events[|events| - 1];
      RoundEnds(w, front);
      AlwaysAtRest(w, front);
      var mid := Run(w, front);
      match e
      case Banked(b) => BankedRests(mid, b);
      case Acted(a, spare) =>
        ActRests(mid, a, spare);
        if mid.table.phase == PlayerTurn {
          MoveAdvances(mid, a, spare);
        } else {
          MoveNeedsTurn(mid, a, spare);
        }
    }
  }

  lemma MoveNeedsTurn(w: World, a: Action, spare: seq<Card>)
    requires IsMove(a) && w.table.phase != PlayerTurn && |spare| == 4 && AllReal(spare)
    ensures Act(w, a, spare) == w
  {
  }

  // ---- Money over runs ----

  /** What the event pays into the player's account away from the table: the cents as
      the bank's programs see them, in fifteen digits. */
  function PaidBy(w: World, e: Event): int {
    match e
    case Banked(Served(Deposit(p, cents, column))) =>
      if p == w.table.player.id && L.Prepare(w.bank, L.Deposit(p, cents, column)).Some? then Cobol.Signed15(cents)
      else 0
    case Banked(Served(Withdraw(p, cents, column))) =>
      if p == w.table.player.id && L.Prepare(w.bank, L.Withdraw(p, cents, column)).Some? then -Cobol.Signed15(cents)
      else 0
    case _ => 0
  }

  function PaidIn(w: World, events: seq<Event>): int
    requires ValidEvents(events)
  {
    if events == [] then 0
    else
      var front := events[..|events| - 1];
      PaidIn(w, front) + PaidBy(Run(w, front), events[|events| - 1])
  }

  /** All deposits of the player that are asked for. */
  function Deposits(events: seq<Event>, p: PlayerId): int {
    if events == [] then 0
    else Deposits(events[..|events| - 1], p) + DepositOf(events[|events| - 1], p)
  }

  function DepositOf(e: Event, p: PlayerId): int {
    match e
    case Banked(Served(Deposit(q, cents, _))) => if q == p then Cobol.Signed15(cents) else 0
    case _ => 0
  }

  /** The player's balance is never reset to the demo player's. */
  predicate NoReset(w: World, events: seq<Event>) {
    w.table.player.id == DEMO_PLAYER ==> Banked(L.Replenish) !in events
  }

  lemma BankedPays(w: World, b: L.Event)
    requires L.Valid(w.bank) && Funded(w) && L.ValidEvent(b) && OnlyBettor(w, Banked(b)) && NoReset(w, [Banked(b)])
    requires Balance(w) + DepositOf(Banked(b), w.table.player.id) < COLUMN_LIMIT
    ensures Funded(w.(bank := L.Apply(w.bank, b)))
    ensures L.Apply(w.bank, b).accounts[w.table.player.id] == Balance(w) + PaidBy(w, Banked(b))
    ensures PaidBy(w, Banked(b)) <= DepositOf(Banked(b), w.table.player.id)
  {
    assert Banked(b) in [Banked(b)];
    if b.Served? && L.Prepare(w.bank, b.request).Some? {
      var r := b.request;
      L.PreparedRow(w.bank, r);
      L.RowOf(w.bank, r);
      hide L.PrepareDebit, L.PrepareCredit, L.PreparePayout;
      if r.Deposit? && r.player == w.table.player.id {
        L.CreditExact(w.bank, r.player, r.cents, r.column, DepositRow, None);
      } else if r.Withdraw? && r.player == w.table.player.id {
        L.DebitExact(w.bank, r.player, r.cents, r.column, WithdrawalRow);
        L.DebitTakes(Balance(w), r.cents);
      }
    }
  }

  /** Over any run the balance changes by the profits of the rounds settled in it and by
      what the player paid in or took out, less the stake still on the table. */
  lemma {:induction false} BalanceIsProfit(w: World, events: seq<Event>)
    requires AtRest(w) && Funded(w) && ValidEvents(events) && OnlyBettorThroughout(w, events) && NoReset(w, events)
    requires Balance(w) + ROUND_LIMIT * |events| + Deposits(events, w.table.player.id) < COLUMN_LIMIT
    ensures var after, paid := Run(w, events), Deposits(events, w.table.player.id);
            && Funded(after) && after.table.player.id == w.table.player.id && paid >= 0
            && Worth(after) == Worth(w) + PaidIn(w, events)
            && Balance(after) <= Balance(w) + ROUND_LIMIT * |events| + paid
  {
    hide AtRest, Fair, Act, OnlyBettor, Worth, PaidBy;
    AlwaysAtRest(w, events);
    if events != [] {
      var front, e := events[..|events| - 1], events[|events| - 1];
      assert DepositOf(e, w.table.player.id) >= 0 by {
        assert ValidEvent(e);
      }
      hide DepositOf;
      BalanceIsProfit(w, front);
      AlwaysAtRest(w, front);
      var mid := Run(w, front);
      match e {
        case Acted(a, spare) =>
          ActPays(mid, a, spare);
          NothingPaid(mid, e);
        case Banked(b) =>
          RestIsValid(mid);
          BankedPays(mid, b);
          WorthMoves(mid, b);
      }
    }
  }

  lemma NothingPaid(w: World, e: Event)
    requires e.Acted?
    ensures PaidBy(w, e) == 0
  {
  }

  lemma RestIsValid(w: World)
    requires AtRest(w)
    ensures L.Valid(w.bank)
  {
  }

  lemma WorthMoves(w: World, b: L.Event)
    requires Funded(w) && Funded(w.(bank := L.Apply(w.bank, b)))
    requires L.Apply(w.bank, b).accounts[w.table.player.id] == Balance(w) + PaidBy(w, Banked(b))
    ensures Worth(w.(bank := L.Apply(w.bank, b))) == Worth(w) + PaidBy(w, Banked(b))
  {
    hide PaidBy;
  }

  /** The money of complete rounds: from a waiting table to a waiting table the balance
      moves by exactly the profits of the rounds in between and the player's deposits less
      withdrawals. */
  lemma CompleteRounds(w: World, events: seq<Event>)
    requires AtRest(w) && Funded(w) && ValidEvents(events) && OnlyBettorThroughout(w, events) && NoReset(w, events)
    requires Balance(w) + ROUND_LIMIT * |events| + Deposits(events, w.table.player.id) < COLUMN_LIMIT
    requires w.table.phase == WaitingPhase && Run(w, events).table.phase == WaitingPhase
    ensures var after := Run(w, events);
            && w.rounds <= after.rounds && Funded(after)
            && Balance(after) - Balance(w) == 100 * TotalProfit(after.rounds[|w.rounds|..]) + PaidIn(w, events)
            && (forall i :: |w.rounds| <= i < |after.rounds| ==>
                  Fair(after.rounds[i]) && (after.rounds[i].doubled ==> after.rounds[i].outcome != Blackjack))
  {
    AlwaysAtRest(w, events);
    BalanceIsProfit(w, events);
    var after := Run(w, events);
    ProfitSplits(w.rounds, after.rounds[|w.rounds|..]);
    assert after.rounds == w.rounds + after.rounds[|w.rounds|..];
    hide Run, PaidIn, Deposits;
  }

  lemma {:induction false} ProfitSplits(a: seq<Round>, b: seq<Round>)
    ensures TotalProfit(a + b) == TotalProfit(a) + TotalProfit(b)
  {
    if b == [] {
      assert a + b == a;
    } else {
      ProfitSplits(a, b[..|b| - 1]);
      assert (a + b)[..|a + b| - 1] == a + b[..|b| - 1];
    }
  }

  // ---- Chips ----

  /** Nothing but the table touches the player's account. */
  predicate OnlyUser(w: World, e: Event) {
    match e
    case Banked(Served(Deposit(p, _, _))) => p != w.table.player.id
    case Banked(Served(Withdraw(p, _, _))) => p != w.table.player.id
    case Banked(Replenish) => w.table.player.id != DEMO_PLAYER
    case _ => OnlyBettor(w, e)
  }

  predicate OnlyUserThroughout(w: World, events: seq<Event>)
    requires ValidEvents(events)
  {
    events == [] ||
    (OnlyUserThroughout(w, events[..|events| - 1])
     && OnlyUser(Run(w, events[..|events| - 1]), events[|events| - 1]))
  }

  lemma BankedKeepsAccount(w: World, b: L.Event)
    requires AtRest(w) && Funded(w) && L.ValidEvent(b) && OnlyUser(w, Banked(b))
    ensures Funded(w.(bank := L.Apply(w.bank, b)))
    ensures L.Apply(w.bank, b).accounts[w.table.player.id] == Balance(w)
  {
    if b.Served? && L.Prepare(w.bank, b.request).Some? {
      L.PreparedRow(w.bank, b.request);
      L.RowOf(w.bank, b.request);
      hide L.Prepare;
    }
  }

  lemma {:induction false} UserIsBettor(w: World, events: seq<Event>)
    requires ValidEvents(events) && OnlyUserThroughout(w, events)
    ensures OnlyBettorThroughout(w, events)
  {
    if events != [] {
      UserIsBettor(w, events[..|events| - 1]);
    }
  }

  /** Some action of the run had a bet taken by the bank. */
  predicate TookBet(w: World, events: seq<Event>)
    requires ValidEvents(events)
  {
    events != [] &&
    (TookBet(w, events[..|events| - 1])
     || (events[|events| - 1].Acted?
         && Run(w, events).bank.next > Run(w, events[..|events| - 1]).bank.next))
  }

  /** Once the bank took a bet, the chips of a player whose balance is whole dollars equal
      that balance at every rest, so cutting it off to an integer loses nothing. */
  lemma {:induction false} ChipsTrackBalance(w: World, events: seq<Event>)
    requires AtRest(w) && Funded(w) && ValidEvents(events) && OnlyUserThroughout(w, events)
    requires Balance(w) % 100 == 0
    ensures var after := Run(w, events);
            && Funded(after) && Balance(after) % 100 == 0
            && (Synced(w) || TookBet(w, events) ==> Synced(after))
  {
    hide AtRest, Fair, Act, OnlyUser, OnlyBettor, Worth;
    if events != [] {
      var front, e := events[..|events| - 1], events[|events| - 1];
      ChipsTrackBalance(w, front);
      UserIsBettor(w, front);
      AlwaysAtRest(w, front);
      var mid := Run(w, front);
      match e
      case Acted(a, spare) =>
        ActRests(mid, a, spare);
        ActPays(mid, a, spare);
      case Banked(b) => BankedKeepsAccount(mid, b);
    }
  }
}
