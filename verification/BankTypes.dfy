/** The bank's vocabulary: outcomes of a bet, rows of the journal, open bets. */
module BankTypes {
  import opened Wrappers

  type PlayerId = string
  type TxId = nat

  datatype Outcome = Win | Loss | Push | Blackjack

  datatype RowType = BetRow | PayoutWin | PayoutLoss | PayoutPush | DepositRow | WithdrawalRow

  /** A row of `transactions`; the amounts are columns, in hundredths. */
  datatype Row = Row(player: PlayerId, kind: RowType, amount: int, before: int, after: int, ref: Option<TxId>)

  datatype OpenBet = OpenBet(player: PlayerId, amount: int)

  const DEMO_PLAYER: PlayerId := "player-00000000-0000-0000-0000-000000000001"
}
