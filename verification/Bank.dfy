/** The bank service: its tables, its database transactions and its handlers.
    Handlers work on text; each is shown to serve one request of the cents ledger. */
module Bank {
  import opened Wrappers
  import opened BankTypes
  import opened Decimal
  import opened Numeric
  import opened Ledger
  import opened Cobol
  import Strings

  const STARTING_BALANCE := "1000.00"

  datatype Response =
    | BetPlaced(tx: TxId, newBalance: string)
    | NewBalance(newBalance: string)
    | Refused(status: int)

  datatype Funds = Funds(balance: string, newBalance: int) | NoFunds(status: int)

  // What the handlers make of an amount text they charge.

  function BetOf(player: PlayerId, amount: string): Request
    requires Chargeable(amount)
  {
    Bet(player, AmountCents(amount).value, NumericInput(amount).value)
  }

  function DepositOf(player: PlayerId, amount: string): Request
    requires Chargeable(amount)
  {
    Deposit(player, AmountCents(amount).value, NumericInput(amount).value)
  }

  function WithdrawalOf(player: PlayerId, amount: string): Request
    requires Chargeable(amount)
  {
    Withdraw(player, AmountCents(amount).value, NumericInput(amount).value)
  }

  predicate Positive(amount: string) {
    AmountCents(amount).Some? && AmountCents(amount).value > 0
  }

  function Charge(amount: string): int {
    if Positive(amount) then AmountCents(amount).value else 0
  }

  // The rows the handlers prepare for an amount text, or None where they refuse.

  function PrepareBet(l: Ledger, player: PlayerId, amount: string): (row: Option<Row>)
    ensures row.Some? ==> InColumn(row.value.after)
  {
    hide NumericInput, AmountCents;
    if Chargeable(amount) then Prepare(l, BetOf(player, amount)) else None
  }

  function PrepareWithdrawal(l: Ledger, player: PlayerId, amount: string): (row: Option<Row>)
    ensures row.Some? ==> InColumn(row.value.after)
  {
    hide NumericInput, AmountCents;
    if Chargeable(amount) then Prepare(l, WithdrawalOf(player, amount)) else None
  }

  function PrepareDeposit(l: Ledger, player: PlayerId, amount: string): (row: Option<Row>)
    ensures row.Some? ==> InColumn(row.value.after)
  {
    hide NumericInput, AmountCents;
    if Chargeable(amount) then Prepare(l, DepositOf(player, amount)) else None
  }

  /** The answer to a bet or withdrawal that is not served: no account, too little on it,
      or a charge or text that the debit program or the database does not take. */
  function RefusedDebit(l: Ledger, player: PlayerId, cents: int): int {
    if player !in l.accounts then 404 else if Short(l, player, cents) then 409 else 500
  }

  class Bank {
    var accounts: map<PlayerId, int>
    var transactions: seq<Row>
    var openBets: map<TxId, OpenBet>
    var nextId: TxId

    constructor ()
      ensures Tables() == Ledger(map[], [], map[], 0) && Ok()
    {
      accounts, transactions, openBets, nextId := map[], [], map[], 0;
    }

    function Tables(): Ledger
      reads this
    {
      Ledger(accounts, transactions, openBets, nextId)
    }

    /** Column values fit their columns, open bets belong to accounts, and no account
        has an empty player id. */
    ghost predicate Ok()
      reads this
    {
      Valid(Tables()) && "" !in accounts
    }

    // ---- Database transactions ----

    method GetBalance(player: PlayerId) returns (balance: Option<string>)
      requires Valid(Tables())
      ensures balance == if player in accounts then Some(CentsToDollars(accounts[player])) else None
    {
      if player !in accounts {
        return None;
      }
      return Some(CentsToDollars(accounts[player]));
    }

    /** Undoes the statements of a transaction that did not commit. */
    method Rollback(saved: Ledger)
      modifies this
      ensures Tables() == saved
    {
      accounts, transactions, openBets, nextId := saved.accounts, saved.rows, saved.open, saved.next;
    }

    /** The two statements every balance change starts with; false when one of them fails. */
    method UpdateAndRecord(player: PlayerId, kind: RowType, amount: string, balanceBefore: string, newBalance: string,
                           ref: Option<TxId>)
      returns (done: bool)
      modifies this
      ensures openBets == old(openBets) && nextId == old(nextId)
      ensures done <==> player in old(accounts) && NumericInput(amount).Some?
                        && NumericInput(balanceBefore).Some? && NumericInput(newBalance).Some?
      ensures done ==>
                && accounts == old(accounts)[player := NumericInput(newBalance).value]
                && transactions == old(transactions) + [Row(player, kind, NumericInput(amount).value,
                     NumericInput(balanceBefore).value, NumericInput(newBalance).value, ref)]
    {
      var after := NumericInput(newBalance);
      if after.None? {
        return false;
      }
      if player in accounts {
        accounts := accounts[player := after.value];
      }
      var column, before := NumericInput(amount), NumericInput(balanceBefore);
      if column.None? || before.None? || player !in accounts {
        return false;
      }
      transactions := transactions + [Row(player, kind, column.value, before.value, after.value, ref)];
      return true;
    }

    method PlaceBet(player: PlayerId, balanceBefore: string, newBalance: string, amount: string)
      returns (txId: Option<TxId>)
      modifies this
      ensures var before, after, column := NumericInput(balanceBefore), NumericInput(newBalance), NumericInput(amount);
              if player in old(accounts) && before.Some? && after.Some? && column.Some? then
                && txId == Some(old(nextId))
                && Tables() == Commit(old(Tables()), Row(player, BetRow, column.value, before.value, after.value, None))
              else txId == None && Tables() == old(Tables())
    {
      var saved := Tables();
      var done := UpdateAndRecord(player, BetRow, amount, balanceBefore, newBalance, None);
      if !done {
        Rollback(saved);
        return None;
      }
      var id := nextId;
      nextId := nextId + 1;
      openBets := openBets[id := OpenBet(player, NumericInput(amount).value)];
      return Some(id);
    }

    method SettlePayout(tx: TxId, player: PlayerId, balanceBefore: string, newBalance: string,
                        returned: string, kind: RowType)
      returns (done: bool)
      requires kind != BetRow
      modifies this
      ensures var before, after := NumericInput(balanceBefore), NumericInput(newBalance);
              var column := NumericInput(returned);
              && done == (player in old(accounts) && before.Some? && after.Some? && column.Some?)
              && Tables() == if done
                 then Commit(old(Tables()), Row(player, kind, column.value, before.value, after.value, Some(tx)))
                 else old(Tables())
    {
      var saved := Tables();
      done := UpdateAndRecord(player, kind, returned, balanceBefore, newBalance, Some(tx));
      if !done {
        Rollback(saved);
        return;
      }
      openBets := openBets - {tx};
    }

    method ApplyBalanceChange(player: PlayerId, balanceBefore: string, newBalance: string,
                              amount: string, kind: RowType)
      returns (done: bool)
      requires kind != BetRow
      modifies this
      ensures var before, after, column := NumericInput(balanceBefore), NumericInput(newBalance), NumericInput(amount);
              && done == (player in old(accounts) && before.Some? && after.Some? && column.Some?)
              && Tables() == if done
                 then Commit(old(Tables()), Row(player, kind, column.value, before.value, after.value, None))
                 else old(Tables())
    {
      var saved := Tables();
      done := UpdateAndRecord(player, kind, amount, balanceBefore, newBalance, None);
      if !done {
        Rollback(saved);
      }
    }

    method ReplenishDemoPlayer() returns (balance: string)
      modifies this
      ensures Tables() == Apply(old(Tables()), Replenish)
      ensures balance == "1000.00" && (DEMO_PLAYER in accounts ==> accounts[DEMO_PLAYER] == 100_000)
    {
      hide NumericInput, AmountCents, CentsToDollars;
      StartingBalanceText();
      if DEMO_PLAYER in accounts {
        accounts := accounts[DEMO_PLAYER := NumericInput(STARTING_BALANCE).value];
      }
      return STARTING_BALANCE;
    }

    // ---- Handlers ----

    /** Opens an account; one that exists is left as it is. */
    method AccountHandler(player: PlayerId, startingBalance: string) returns (r: Response)
      requires Ok()
      modifies this
      ensures var opening := NumericInput(if startingBalance == "" then STARTING_BALANCE else startingBalance);
              Tables() == if player != "" && opening.Some? then Apply(old(Tables()), OpenAccount(player, opening.value))
                          else old(Tables())
      ensures var starting := if startingBalance == "" then STARTING_BALANCE else startingBalance;
              r == if player == "" then Refused(400)
                   else if player in old(accounts) then Refused(409)
                   else if NumericInput(starting).None? then Refused(500)
                   else NewBalance(starting)
      ensures Ok()
    {
      hide NumericInput;
      if player == "" {
        return Refused(400);
      }
      var starting := if startingBalance == "" then STARTING_BALANCE else startingBalance;
      if player in accounts {
        return Refused(409);
      }
      var opening := NumericInput(starting);
      if opening.None? {
        return Refused(500);
      }
      accounts := accounts[player := opening.value];
      return NewBalance(starting);
    }

    /** The read half of a bet: looks the balance up, has the funds checked, and
        resets the demo player's balance when they do not suffice. */
    method CheckFunds(player: PlayerId, cents: int) returns (f: Funds)
      requires Ok() && cents > 0
      modifies this
      ensures Ok() && accounts.Keys == old(accounts).Keys
      ensures f.Funds? ==> InColumn(f.newBalance)
      ensures Tables() == if player == DEMO_PLAYER && Short(old(Tables()), player, cents)
                          then Apply(old(Tables()), Replenish) else old(Tables())
      ensures f == if player !in old(accounts) then NoFunds(404)
                   else match DebitOf(ReadBack(accounts[player]), cents)
                     case None => NoFunds(500)
                     case Some(Insufficient) => NoFunds(409)
                     case Some(Sufficient(newBalance)) => Funds(CentsToDollars(accounts[player]), newBalance)
    {
      hide NumericInput, AmountCents, CentsToDollars, DebitOf, Signed15, ReadBack;
      var balanceStr := GetBalance(player);
      if balanceStr.None? {
        return NoFunds(404);
      }
      StoredBalance(accounts[player]);
      var balanceCents := DollarsToCents(balanceStr.value);
      if balanceCents.None? {
        return NoFunds(500);
      }
      DebitTakes(balanceCents.value, cents);
      var debit := ValidateDebit(balanceCents.value, cents);
      if debit.None? {
        return NoFunds(500);
      }
      if debit.value.Sufficient? {
        return Funds(balanceStr.value, debit.value.newBalance);
      }
      if player != DEMO_PLAYER {
        return NoFunds(409);
      }
      var full := ReplenishDemoPlayer();
      StartingBalanceText();
      StoredBalance(DEMO_OPENING);
      DebitTakes(DEMO_OPENING, cents);
      var freshCents := DollarsToCents(full);
      debit := ValidateDebit(if freshCents.Some? then freshCents.value else 0, cents);
      if debit.None? || debit.value.Insufficient? {
        return NoFunds(409);
      }
      return Funds(full, debit.value.newBalance);
    }

    /** A bet the database can store is served as one request of the ledger; for the
        demo player an insufficient balance is first reset. Everything else is refused
        and changes nothing, but for that reset. */
    method BetHandler(player: PlayerId, amount: string) returns (r: Response)
      requires Ok()
      modifies this
      ensures player == "" || !Positive(amount) ==> r == Refused(400) && Tables() == old(Tables())
      ensures player != "" && Positive(amount) ==>
                var start := if player == DEMO_PLAYER && Short(old(Tables()), player, Charge(amount))
                             then Apply(old(Tables()), Replenish) else old(Tables());
                match PrepareBet(start, player, amount)
                case Some(row) =>
                  Tables() == Commit(start, row) && r == BetPlaced(start.next, CentsToDollars(row.after))
                case None => Tables() == start && r == Refused(RefusedDebit(start, player, Charge(amount)))
      ensures Ok() && accounts.Keys == old(accounts).Keys
    {
      hide NumericInput, AmountCents, CentsToDollars, ReadBack;
      if player == "" || amount == "" {
        EmptyAmount();
        return Refused(400);
      }
      var betCents := DollarsToCents(amount);
      if betCents.None? || betCents.value <= 0 {
        return Refused(400);
      }
      var funds := CheckFunds(player, betCents.value);
      if funds.NoFunds? {
        return Refused(funds.status);
      }
      StoredBalance(accounts[player]);
      var newBalStr := CentsToDollars(funds.newBalance);
      StoredBalance(funds.newBalance);
      var txId := PlaceBet(player, funds.balance, newBalStr, amount);
      if txId.None? {
        return Refused(500);
      }
      return BetPlaced(txId.value, newBalStr);
    }

    method GetOpenBet(tx: TxId) returns (bet: Option<(PlayerId, string)>)
      requires Ok()
      ensures bet == if tx in openBets then Some((openBets[tx].player, CentsToDollars(openBets[tx].amount))) else None
    {
      if tx !in openBets {
        return None;
      }
      return Some((openBets[tx].player, CentsToDollars(openBets[tx].amount)));
    }

    /** Serves a payout of the ledger when the bet is open and the result is known, and
        changes nothing otherwise. No transaction id stands for an empty one. */
    method PayoutHandler(tx: Option<TxId>, result: string) returns (r: Response)
      requires Ok()
      modifies this
      ensures tx.Some? && OutcomeOf(result).Some? ==>
                var payout := Payout(tx.value, OutcomeOf(result).value);
                && Tables() == Serve(old(Tables()), payout)
                && (tx.value in old(openBets) ==>
                      (Prepare(old(Tables()), payout).Some?
                       && r == NewBalance(CentsToDollars(Prepare(old(Tables()), payout).value.after))))
      ensures tx.None? || OutcomeOf(result).None? ==> Tables() == old(Tables())
      ensures r.Refused? ==> r.status == if tx.Some? && result != "" && tx.value !in old(openBets) then 404 else 400
      ensures r.Refused? <==> tx.None? || OutcomeOf(result).None? || tx.value !in old(openBets)
      ensures Ok() && accounts.Keys == old(accounts).Keys
    {
      hide NumericInput, AmountCents, CentsToDollars, ReadBack, OutcomeOf, Unsigned15, ReturnedCents;
      if tx.None? || result == "" {
        EmptyResult();
        return Refused(400);
      }
      var bet := GetOpenBet(tx.value);
      if bet.None? {
        return Refused(404);
      }
      var (player, amount) := bet.value;
      StoredBalance(openBets[tx.value].amount);
      var betCents := DollarsToCents(amount);
      if betCents.None? {
        return Refused(500);
      }
      var payout := CalcPayout(betCents.value, result);
      if payout.None? {
        return Refused(400);
      }
      var balanceStr := GetBalance(player);
      if balanceStr.None? {
        return Refused(500);
      }
      StoredBalance(accounts[player]);
      var balanceCents := DollarsToCents(balanceStr.value);
      if balanceCents.None? {
        return Refused(500);
      }
      FieldsHoldReturn(OutcomeOf(result).value, Unsigned15(betCents.value));
      CreditFits(balanceCents.value, payout.value.returned);
      var newBalCents := CalcCredit(balanceCents.value, payout.value.returned);
      if newBalCents.None? {
        return Refused(500);
      }
      var returnedStr := CentsToDollars(payout.value.returned);
      var newBalStr := CentsToDollars(newBalCents.value);
      StoredBalance(payout.value.returned);
      StoredBalance(newBalCents.value);
      var done := SettlePayout(tx.value, player, balanceStr.value, newBalStr, returnedStr, payout.value.kind);
      if !done {
        return Refused(500);
      }
      return NewBalance(newBalStr);
    }

    method DepositHandler(player: PlayerId, amount: string) returns (r: Response)
      requires Ok()
      modifies this
      ensures player == "" || !Positive(amount) ==> r == Refused(400) && Tables() == old(Tables())
      ensures player != "" && Positive(amount) ==>
                match PrepareDeposit(old(Tables()), player, amount)
                case Some(row) => Tables() == Commit(old(Tables()), row) && r == NewBalance(CentsToDollars(row.after))
                case None => Tables() == old(Tables()) && r == Refused(if player !in old(accounts) then 404 else 500)
      ensures Ok() && accounts.Keys == old(accounts).Keys
    {
      hide NumericInput, AmountCents, CentsToDollars, ReadBack;
      if player == "" || amount == "" {
        EmptyAmount();
        return Refused(400);
      }
      var cents := DollarsToCents(amount);
      if cents.None? || cents.value <= 0 {
        return Refused(400);
      }
      var balanceStr := GetBalance(player);
      if balanceStr.None? {
        return Refused(404);
      }
      StoredBalance(accounts[player]);
      var balanceCents := DollarsToCents(balanceStr.value);
      CreditFits(balanceCents.value, cents.value);
      var newBalCents := CalcCredit(balanceCents.value, cents.value);
      if newBalCents.None? {
        return Refused(500);
      }
      var newBalStr := CentsToDollars(newBalCents.value);
      StoredBalance(newBalCents.value);
      var done := ApplyBalanceChange(player, balanceStr.value, newBalStr, amount, DepositRow);
      if !done {
        return Refused(500);
      }
      return NewBalance(newBalStr);
    }

    method WithdrawHandler(player: PlayerId, amount: string) returns (r: Response)
      requires Ok()
      modifies this
      ensures player == "" || !Positive(amount) ==> r == Refused(400) && Tables() == old(Tables())
      ensures player != "" && Positive(amount) ==>
                match PrepareWithdrawal(old(Tables()), player, amount)
                case Some(row) => Tables() == Commit(old(Tables()), row) && r == NewBalance(CentsToDollars(row.after))
                case None =>
                  Tables() == old(Tables()) && r == Refused(RefusedDebit(old(Tables()), player, Charge(amount)))
      ensures Ok() && accounts.Keys == old(accounts).Keys
    {
      hide NumericInput, AmountCents, CentsToDollars, ReadBack, DebitOf, Signed15;
      if player == "" || amount == "" {
        EmptyAmount();
        return Refused(400);
      }
      var cents := DollarsToCents(amount);
      if cents.None? || cents.value <= 0 {
        return Refused(400);
      }
      var balanceStr := GetBalance(player);
      if balanceStr.None? {
        return Refused(404);
      }
      StoredBalance(accounts[player]);
      var balanceCents := DollarsToCents(balanceStr.value);
      var debit := ValidateDebit(balanceCents.value, cents.value);
      if debit.None? {
        return Refused(500);
      }
      if debit.value.Insufficient? {
        return Refused(409);
      }
      var newBalStr := CentsToDollars(debit.value.newBalance);
      StoredBalance(debit.value.newBalance);
      var done := ApplyBalanceChange(player, balanceStr.value, newBalStr, amount, WithdrawalRow);
      if !done {
        return Refused(500);
      }
      return NewBalance(newBalStr);
    }
  }

  // ---- Charge and record ----

  /** The digits of the text, its exponent left out, come to at most fifteen of cents. */
  predicate InFifteen(amount: string) {
    Read(amount).Some? && Truncated(Read(amount).value) < COLUMN_LIMIT
  }

  /** A request made of an amount text the database can store is exact by what can be
      checked on the text: no minus sign, no exponent, and no third fraction digit that
      rounds up. A deposit must also leave the balance fifteen digits. The check is
      necessary, too, on up to fifteen digits, but for a deposit with a minus sign on a
      balance that overflows. */
  lemma TextDecides(l: Ledger, r: Request, p: PlayerId, amount: string)
    requires Valid(l) && p in l.accounts && l.accounts[p] >= 0 && Chargeable(amount)
    requires r == BetOf(p, amount) || r == WithdrawalOf(p, amount) || r == DepositOf(p, amount)
    requires Prepare(l, r).Some?
    ensures var row := Prepare(l, r).value;
            var exact := row.after - row.before == Change(row);
            var fits := r.Deposit? ==> l.accounts[p] + Signed15(AmountCents(amount).value) < COLUMN_LIMIT;
            && (Faithful(amount) ==> (exact <==> fits))
            && (InFifteen(amount) && fits ==> (exact <==> Faithful(amount)))
            && (InFifteen(amount) && exact && !fits ==> Minus(amount))
  {
    hide NumericInput, AmountCents, Prepare, Faithful, Minus, Signed15;
    RowOf(l, r);
    RowIsExact(l, r);
    ChargeMatchesRecord(amount);
    ChargedDigits(amount);
    hide Read, Truncated;
  }

  /** What is charged for such a text, and what stored, in fifteen digits. */
  lemma ChargedDigits(amount: string)
    requires Chargeable(amount)
    ensures InFifteen(amount) || Faithful(amount) ==> Signed15(AmountCents(amount).value) == AmountCents(amount).value
    ensures !Minus(amount) ==> NumericInput(amount).value >= 0
    ensures 0 <= Signed15(AmountCents(amount).value) < COLUMN_LIMIT
  {
    hide NumericInput, AmountCents, Faithful, Minus, Read, Value, Hundredths, Stored, Wrap64;
    ChargeMatchesRecord(amount);
    ChargeReadsLiteral(amount);
    var lit := Read(amount).value;
    if InFifteen(amount) {
      ChargeInRange(Value(lit.whole), Hundredths(lit.frac), Minus(amount));
    }
  }

  /** "1.50e3" at a balance of a thousand dollars: the bet costs a dollar fifty and is open
      for fifteen hundred dollars. */
  lemma ExponentBet(l: Ledger, p: PlayerId)
    requires Valid(l) && p in l.accounts && l.accounts[p] == DEMO_OPENING
    ensures Chargeable("1.50e3")
    ensures Prepare(l, BetOf(p, "1.50e3")) == Some(Row(p, BetRow, 150_000, DEMO_OPENING, DEMO_OPENING - 150, None))
  {
    hide NumericInput, AmountCents;
    ExponentDiffers();
  }

  lemma EmptyResult()
    ensures OutcomeOf("").None?
  {
    assert ResultField("") == "         ";
    assert Strings.TrimLeft("         ", c => c == ' ') == "";
  }

  lemma CreditFits(balance: int, credit: int)
    requires InColumn(balance) && credit >= 0
    ensures CreditOf(balance, credit).Some? && InColumn(CreditOf(balance, credit).value)
  {
  }

  lemma StartingBalanceText()
    ensures NumericInput(STARTING_BALANCE) == Some(DEMO_OPENING) && AmountCents(STARTING_BALANCE) == Some(DEMO_OPENING)
    ensures STARTING_BALANCE == CentsToDollars(DEMO_OPENING)
  {
    hide CentsToDollars, NumericInput, AmountCents;
    StartingBalanceWritten();
    StoresWritten(DEMO_OPENING);
    ReadsBack(DEMO_OPENING);
  }

  lemma StartingBalanceWritten()
    ensures STARTING_BALANCE == CentsToDollars(DEMO_OPENING)
  {
    assert Digits(1) == "1";
    hide Digits;
    OneDigitMore(1, 0);
    OneDigitMore(10, 0);
    OneDigitMore(100, 0);
    assert Digits(1000) == "1000";
    assert CentsToDollars(DEMO_OPENING) == "1000" + "." + Pair(0) == "1000.00";
  }

  /** A stored balance as the handlers see it. */
  lemma StoredBalance(cents: int)
    requires InColumn(cents)
    ensures AmountCents(CentsToDollars(cents)) == Some(ReadBack(cents)) && InColumn(ReadBack(cents))
    ensures NumericInput(CentsToDollars(cents)) == Some(cents)
  {
    hide CentsToDollars, NumericInput, AmountCents;
    ReadsBack(cents);
    StoresWritten(cents);
  }

  lemma EmptyAmount()
    ensures AmountCents("").None?
  {
  }
}
