/** The bank's tables as a value, and each handler as one read followed by one
    commit. Amounts are cents; a request also carries what the column stores for its
    amount text, which need not be the cents. */
module Ledger {
  import opened Wrappers
  import opened BankTypes
  import opened Cobol
  import opened Decimal

  datatype Ledger = Ledger(accounts: map<PlayerId, int>, rows: seq<Row>, open: map<TxId, OpenBet>, next: TxId)

  datatype Request =
    | Bet(player: PlayerId, cents: int, column: int)
    | Payout(tx: TxId, outcome: Outcome)
    | Deposit(player: PlayerId, cents: int, column: int)
    | Withdraw(player: PlayerId, cents: int, column: int)

  predicate InColumn(x: int) { -COLUMN_LIMIT < x < COLUMN_LIMIT }

  predicate ValidRequest(r: Request) {
    !r.Payout? ==> r.cents > 0 && InColumn(r.column)
  }

  predicate Valid(l: Ledger) {
    && (forall p :: p in l.accounts ==> InColumn(l.accounts[p]))
    && (forall t :: t in l.open ==> t < l.next && l.open[t].player in l.accounts && InColumn(l.open[t].amount))
  }

  // ---- Read, then commit ----

  function PrepareDebit(l: Ledger, p: PlayerId, cents: int, column: int, kind: RowType): Option<Row> {
    if p !in l.accounts then None
    else match DebitOf(ReadBack(l.accounts[p]), cents)
      case Some(Sufficient(after)) => Some(Row(p, kind, column, l.accounts[p], after, None))
      case _ => None
  }

  /** The balance does not cover the cents. */
  predicate Short(l: Ledger, p: PlayerId, cents: int) {
    p in l.accounts && DebitOf(ReadBack(l.accounts[p]), cents) == Some(Insufficient)
  }

  function PrepareCredit(l: Ledger, p: PlayerId, cents: int, column: int, kind: RowType, ref: Option<TxId>)
    : Option<Row>
  {
    if p !in l.accounts then None
    else match CreditOf(ReadBack(l.accounts[p]), cents)
      case None => None
      case Some(after) => Some(Row(p, kind, column, l.accounts[p], after, ref))
  }

  function Returned(bet: OpenBet, o: Outcome): nat {
    ReturnedCents(o, Unsigned15(ReadBack(bet.amount)))
  }

  function PreparePayout(l: Ledger, tx: TxId, o: Outcome, bet: OpenBet): Option<Row> {
    PrepareCredit(l, bet.player, Returned(bet, o), Returned(bet, o), PayoutType(o), Some(tx))
  }

  /** The row a handler would write, read off the current tables; None refuses. */
  function Prepare(l: Ledger, r: Request): Option<Row> {
    match r
    case Bet(p, cents, column) => PrepareDebit(l, p, cents, column, BetRow)
    case Withdraw(p, cents, column) => PrepareDebit(l, p, cents, column, WithdrawalRow)
    case Deposit(p, cents, column) => PrepareCredit(l, p, cents, column, DepositRow, None)
    case Payout(tx, o) => if tx in l.open then PreparePayout(l, tx, o, l.open[tx]) else None
  }

  /** One database transaction: the balance is overwritten, not adjusted. */
  function Commit(l: Ledger, row: Row): Ledger {
    Ledger(
      l.accounts[row.player := row.after],
      l.rows + [row],
      if row.kind == BetRow then l.open[l.next := OpenBet(row.player, row.amount)]
      else if row.ref.Some? then l.open - {row.ref.value}
      else l.open,
      if row.kind == BetRow then l.next + 1 else l.next)
  }

  function Serve(l: Ledger, r: Request): Ledger {
    match Prepare(l, r)
    case None => l
    case Some(row) => Commit(l, row)
  }

  // ---- Runs ----

  const DEMO_OPENING := 100_000

  datatype Event = Served(request: Request) | OpenAccount(player: PlayerId, opening: int) | Replenish

  predicate ValidEvent(e: Event) {
    match e
    case Served(r) => ValidRequest(r)
    case OpenAccount(_, opening) => InColumn(opening)
    case Replenish => true
  }

  function Apply(l: Ledger, e: Event): Ledger {
    match e
    case Served(r) => Serve(l, r)
    case OpenAccount(p, opening) => if p in l.accounts then l else l.(accounts := l.accounts[p := opening])
    case Replenish => if DEMO_PLAYER in l.accounts then l.(accounts := l.accounts[DEMO_PLAYER := DEMO_OPENING]) else l
  }

  function Run(l: Ledger, events: seq<Event>): Ledger {
    if events == [] then l else Apply(Run(l, events[..|events| - 1]), events[|events| - 1])
  }

  predicate ValidEvents(events: seq<Event>) {
    forall i :: 0 <= i < |events| ==> ValidEvent(events[i])
  }

  /** What the debit program takes off a balance of fifteen digits: the low-order fifteen
      digits of the cents, unless those are zero or more than there is. */
  lemma DebitTakes(balance: int, cents: int)
    requires InColumn(balance) && cents > 0
    ensures var charge := Signed15(cents);
            && 0 <= charge < FIELD && (cents < FIELD ==> charge == cents)
            && DebitOf(balance, cents) ==
               if charge == 0 then None
               else if balance < charge then Some(Insufficient)
               else Some(Sufficient(balance - charge))
  {
  }

  lemma PreparedRow(l: Ledger, r: Request)
    requires Valid(l) && ValidRequest(r) && Prepare(l, r).Some?
    ensures var row := Prepare(l, r).value;
            && row.player in l.accounts && row.before == l.accounts[row.player] && InColumn(row.after)
            && (row.kind == BetRow ==> InColumn(row.amount))
            && (row.before >= 0 ==> row.after >= 0)
            && (row.kind == BetRow ==> row.ref.None?)
            && (row.ref.Some? ==> row.ref.value in l.open && row.player == l.open[row.ref.value].player)
  {
    hide ReturnedCents, Unsigned15;
  }

  /** Whose row a request prepares, and the bet it refers to. */
  lemma RowOf(l: Ledger, r: Request)
    requires Prepare(l, r).Some?
    ensures var row := Prepare(l, r).value;
            && row.player in l.accounts && (row.kind == BetRow <==> r.Bet?)
            && (if r.Payout? then r.tx in l.open && row.player == l.open[r.tx].player && row.ref == Some(r.tx)
                else row.player == r.player && row.ref.None?)
  {
    hide CreditOf, Returned;
  }

  // ---- Which requests are served, and what they journal ----

  /** A bet or withdrawal is served exactly when the balance covers the cents charged, and
      journalled as what it is. */
  lemma DebitServed(l: Ledger, r: Request)
    requires Valid(l) && ValidRequest(r) && (r.Bet? || r.Withdraw?)
    ensures Prepare(l, r).Some? <==>
            r.player in l.accounts && 0 < Signed15(r.cents) <= ReadBack(l.accounts[r.player])
    ensures Prepare(l, r).Some? ==>
              var before := l.accounts[r.player];
              Prepare(l, r).value == Row(r.player, if r.Bet? then BetRow else WithdrawalRow, r.column, before,
                                         ReadBack(before) - Signed15(r.cents), None)
  {
    if r.player in l.accounts {
      ReadBackFits(l.accounts[r.player]);
      DebitTakes(ReadBack(l.accounts[r.player]), r.cents);
    }
    hide DebitOf, Signed15, ReadBack;
  }

  lemma ReadBackFits(x: int)
    requires InColumn(x)
    ensures InColumn(ReadBack(x))
  {
  }

  /** A deposit is served for every account. */
  lemma DepositServed(l: Ledger, r: Request)
    requires Valid(l) && ValidRequest(r) && r.Deposit?
    ensures Prepare(l, r).Some? <==> r.player in l.accounts
    ensures Prepare(l, r).Some? ==>
              var before := l.accounts[r.player];
              Prepare(l, r).value == Row(r.player, DepositRow, r.column, before,
                                         Signed15(ReadBack(before) + Signed15(r.cents)), None)
  {
    if r.player in l.accounts {
      ReadBackFits(l.accounts[r.player]);
      ChargeCredited(ReadBack(l.accounts[r.player]), r.cents);
    }
    hide ReadBack, CreditOf, Signed15;
  }

  lemma ChargeCredited(balance: int, cents: int)
    requires InColumn(balance) && cents > 0
    ensures CreditOf(balance, cents) == Some(Signed15(balance + Signed15(cents)))
  {
    FieldHolds(balance);
    assert Signed15(cents) >= 0;
    hide Signed15;
  }

  /** A payout is served exactly for an open bet. The row says how much comes back and, on
      bets of sixty-seven cents or more, whether that is more, as much or less. */
  lemma PayoutServed(l: Ledger, tx: TxId, o: Outcome)
    requires Valid(l)
    ensures Prepare(l, Payout(tx, o)).Some? <==> tx in l.open
    ensures tx in l.open ==>
              var row, bet := Prepare(l, Payout(tx, o)).value, l.open[tx];
              var stake := Unsigned15(ReadBack(bet.amount));
              var returned := Documented(o, stake) % FIELD;
              && row.player == bet.player && row.ref == Some(tx) && row.amount == returned
              && row.before == l.accounts[bet.player] && row.after == Signed15(ReadBack(row.before) + returned)
              && (stake >= 67 ==>
                    && (row.kind == PayoutWin <==> Documented(o, stake) > stake)
                    && (row.kind == PayoutPush <==> Documented(o, stake) == stake)
                    && (row.kind == PayoutLoss <==> Documented(o, stake) < stake))
  {
    if tx in l.open {
      var bet := l.open[tx];
      var stake := Unsigned15(ReadBack(bet.amount));
      ReturnedModulo(o, stake);
      ReadBackFits(l.accounts[bet.player]);
      CreditStores(ReadBack(l.accounts[bet.player]), Returned(bet, o));
      if stake > 0 {
        TypeTellsReturn(o, stake);
      }
      hide Documented, ReturnedCents, ReadBack, Unsigned15, Signed15, CreditOf, PayoutType;
    }
  }

  lemma CreditStores(balance: int, credit: int)
    requires InColumn(balance) && 0 <= credit < FIELD
    ensures CreditOf(balance, credit) == Some(Signed15(balance + credit))
  {
    FieldHolds(balance);
    FieldHolds(credit);
    hide Signed15;
  }

  lemma ApplyValid(l: Ledger, e: Event)
    requires Valid(l) && ValidEvent(e)
    ensures Valid(Apply(l, e)) && l.rows <= Apply(l, e).rows && l.accounts.Keys <= Apply(l, e).accounts.Keys
    ensures l.next <= Apply(l, e).next
  {
    if e.Served? && Prepare(l, e.request).Some? {
      PreparedRow(l, e.request);
      hide Prepare;
    }
  }

  lemma {:induction false} RunValid(l: Ledger, events: seq<Event>)
    requires Valid(l) && ValidEvents(events)
    ensures var after := Run(l, events);
            Valid(after) && l.rows <= after.rows && l.accounts.Keys <= after.accounts.Keys && l.next <= after.next
  {
    if events != [] {
      RunValid(l, events[..|events| - 1]);
      ApplyValid(Run(l, events[..|events| - 1]), events[|events| - 1]);
    }
  }

  // ---- The journal of one account ----

  /** The player's balance after these rows, from `opening` before them. */
  function EndBalance(rows: seq<Row>, p: PlayerId, opening: int): int {
    if rows == [] then opening
    else
      var last := rows[|rows| - 1];
      if last.player == p then last.after else EndBalance(rows[..|rows| - 1], p, opening)
  }

  /** Each of the player's rows starts from the balance the one before it left. */
  predicate Chained(rows: seq<Row>, p: PlayerId, opening: int) {
    rows == [] ||
    (var last, front := rows[|rows| - 1], rows[..|rows| - 1];
     Chained(front, p, opening) && (last.player == p ==> last.before == EndBalance(front, p, opening)))
  }

  predicate NeverNegative(rows: seq<Row>, p: PlayerId) {
    forall i :: 0 <= i < |rows| && rows[i].player == p ==> rows[i].before >= 0 && rows[i].after >= 0
  }

  /** What a row should do to the balance. */
  function Change(row: Row): int {
    if row.kind == BetRow || row.kind == WithdrawalRow then -row.amount else row.amount
  }

  function TotalOf(rows: seq<Row>, p: PlayerId, kind: RowType): int {
    if rows == [] then 0
    else
      var last := rows[|rows| - 1];
      TotalOf(rows[..|rows| - 1], p, kind) + if last.player == p && last.kind == kind then last.amount else 0
  }

  /** Opening plus deposits and payouts, less bets and withdrawals. */
  function Reckoning(rows: seq<Row>, p: PlayerId, opening: int): int {
    opening + TotalOf(rows, p, DepositRow)
    + TotalOf(rows, p, PayoutWin) + TotalOf(rows, p, PayoutPush) + TotalOf(rows, p, PayoutLoss)
    - TotalOf(rows, p, BetRow) - TotalOf(rows, p, WithdrawalRow)
  }

  function NewRows(before: Ledger, after: Ledger): seq<Row>
    requires before.rows <= after.rows
  {
    after.rows[|before.rows|..]
  }

  predicate Writes(l: Ledger, e: Event) {
    e.Served? && Prepare(l, e.request).Some?
  }

  /** One event either journals the row it prepared, or leaves the journal and every
      account but the demo one alone. */
  lemma EventEffect(start: Ledger, l: Ledger, e: Event, p: PlayerId)
    requires Valid(l) && ValidEvent(e) && start.rows <= l.rows && p in l.accounts && p != DEMO_PLAYER
    ensures var after := Apply(l, e);
            && start.rows <= after.rows && p in after.accounts
            && (if Writes(l, e) then
                  var row := Prepare(l, e.request).value;
                  && NewRows(start, after) == NewRows(start, l) + [row]
                  && after.accounts[p] == if row.player == p then row.after else l.accounts[p]
                else NewRows(start, after) == NewRows(start, l) && after.accounts[p] == l.accounts[p])
  {
    hide Prepare;
  }

  lemma RowAppended(rows: seq<Row>, row: Row, p: PlayerId, opening: int)
    ensures EndBalance(rows + [row], p, opening) == if row.player == p then row.after else EndBalance(rows, p, opening)
    ensures Chained(rows + [row], p, opening) <==>
            Chained(rows, p, opening) && (row.player == p ==> row.before == EndBalance(rows, p, opening))
    ensures Reckoning(rows + [row], p, opening)
         == Reckoning(rows, p, opening) + if row.player == p then Change(row) else 0
    ensures NeverNegative(rows, p) && (row.player == p ==> row.before >= 0 && row.after >= 0) ==>
            NeverNegative(rows + [row], p)
  {
    assert (rows + [row])[..|rows|] == rows;
  }

  /** The balances of a non-demo account follow its journal: every row continues the
      previous one, the last one holds the current balance, and an account opened at
      zero or more never falls below zero. */
  lemma {:induction false} AccountFollowsJournal(l: Ledger, events: seq<Event>, p: PlayerId)
    requires Valid(l) && ValidEvents(events)
    requires p in l.accounts && p != DEMO_PLAYER && l.accounts[p] >= 0
    ensures var after := Run(l, events);
            && l.rows <= after.rows && p in after.accounts
            && Chained(NewRows(l, after), p, l.accounts[p])
            && after.accounts[p] == EndBalance(NewRows(l, after), p, l.accounts[p]) >= 0
            && NeverNegative(NewRows(l, after), p)
  {
    hide Apply, Prepare, Valid;
    if events == [] {
      assert NewRows(l, l) == [];
    } else {
      var front, e := events[..|events| - 1], events[|events| - 1];
      AccountFollowsJournal(l, front, p);
      RunValid(l, front);
      var mid := Run(l, front);
      EventEffect(l, mid, e, p);
      if Writes(mid, e) {
        PreparedRow(mid, e.request);
        RowAppended(NewRows(l, mid), Prepare(mid, e.request).value, p, l.accounts[p]);
      }
    }
  }

  // ---- Conservation ----

  /** What a request says about its own exactness: the column stores the fifteen digits
      that are charged, and a credited balance still has fifteen digits; or it has not,
      and the column is short of the charge by just what the balance lost. */
  predicate Exact(l: Ledger, r: Request) {
    match r
    case Bet(_, cents, column) => column == Signed15(cents)
    case Withdraw(_, cents, column) => column == Signed15(cents)
    case Deposit(p, cents, column) =>
      p in l.accounts ==>
        column == if l.accounts[p] + Signed15(cents) < COLUMN_LIMIT then Signed15(cents)
                  else Signed15(cents) - COLUMN_LIMIT
    case Payout(tx, o) =>
      tx in l.open && l.open[tx].player in l.accounts ==>
        l.accounts[l.open[tx].player] + Returned(l.open[tx], o) < COLUMN_LIMIT
  }

  /** A served request changes the balance by the amount it journals exactly when
      that holds, whatever is charged and stored. */
  lemma RowIsExact(l: Ledger, r: Request)
    requires Valid(l) && ValidRequest(r) && Prepare(l, r).Some?
    requires l.accounts[Prepare(l, r).value.player] >= 0
    ensures var row := Prepare(l, r).value; row.after - row.before == Change(row) <==> Exact(l, r)
  {
    hide PrepareDebit, PrepareCredit, Returned, Signed15;
    RowOf(l, r);
    match r
    case Bet(p, cents, column) => DebitExact(l, p, cents, column, BetRow);
    case Withdraw(p, cents, column) => DebitExact(l, p, cents, column, WithdrawalRow);
    case Deposit(p, cents, column) =>
      CreditRow(l, p, cents, column, DepositRow, None);
      CreditExact(l, p, cents, column, DepositRow, None);
    case Payout(tx, o) => PayoutExact(l, tx, o);
  }

  lemma PayoutExact(l: Ledger, tx: TxId, o: Outcome)
    requires Valid(l) && Prepare(l, Payout(tx, o)).Some? && l.accounts[l.open[tx].player] >= 0
    ensures var row := Prepare(l, Payout(tx, o)).value;
            row.after - row.before == Change(row) <==> Exact(l, Payout(tx, o))
  {
    hide Signed15, Unsigned15, ReturnedCents, CreditOf, ReadBack;
    var bet := l.open[tx];
    var returned := Returned(bet, o);
    ReturnedFits(bet, o);
    CreditTakes(l.accounts[bet.player], returned);
    hide Returned;
    CreditRow(l, bet.player, returned, returned, PayoutType(o), Some(tx));
    CreditExact(l, bet.player, returned, returned, PayoutType(o), Some(tx));
    hide PrepareCredit;
  }

  lemma ReturnedFits(bet: OpenBet, o: Outcome)
    ensures 0 <= Returned(bet, o) < COLUMN_LIMIT
  {
    hide ReturnedCents;
    FieldsHoldReturn(o, Unsigned15(ReadBack(bet.amount)));
  }

  lemma CreditRow(l: Ledger, p: PlayerId, cents: int, column: int, kind: RowType, ref: Option<TxId>)
    requires PrepareCredit(l, p, cents, column, kind, ref).Some? && kind != BetRow && kind != WithdrawalRow
    ensures var row := PrepareCredit(l, p, cents, column, kind, ref).value; Change(row) == column && row.player == p
  {
    hide CreditOf;
  }

  lemma DebitExact(l: Ledger, p: PlayerId, cents: int, column: int, kind: RowType)
    requires Valid(l) && cents > 0
    requires PrepareDebit(l, p, cents, column, kind).Some? && l.accounts[p] >= 0
    requires kind == BetRow || kind == WithdrawalRow
    ensures var row := PrepareDebit(l, p, cents, column, kind).value;
            row.after - row.before == -Signed15(cents) && Change(row) == -column && row.player == p
  {
    DebitTakes(l.accounts[p], cents);
    hide DebitOf, Signed15;
  }

  lemma CreditExact(l: Ledger, p: PlayerId, cents: int, column: int, kind: RowType, ref: Option<TxId>)
    requires PrepareCredit(l, p, cents, column, kind, ref).Some?
    requires 0 <= l.accounts[p] < COLUMN_LIMIT && cents >= 0
    ensures var row := PrepareCredit(l, p, cents, column, kind, ref).value;
            row.after - row.before == Signed15(cents) - if l.accounts[p] + Signed15(cents) < COLUMN_LIMIT then 0
                                                        else COLUMN_LIMIT
  {
    CreditTakes(l.accounts[p], cents);
  }

  /** The credit program, too, sees the low-order fifteen digits of the cents. */
  lemma CreditTakes(balance: int, cents: int)
    requires 0 <= balance < FIELD && cents >= 0
    ensures 0 <= Signed15(cents) < FIELD && (cents < FIELD ==> Signed15(cents) == cents)
    ensures var sum := balance + Signed15(cents);
            CreditOf(balance, cents) == Some(if sum < FIELD then sum else sum - FIELD)
  {
  }

  lemma ExactRow(l: Ledger, r: Request)
    requires Valid(l) && ValidRequest(r) && Prepare(l, r).Some? && Exact(l, r)
    requires l.accounts[Prepare(l, r).value.player] >= 0
    ensures var row := Prepare(l, r).value; row.after - row.before == Change(row)
  {
    RowIsExact(l, r);
  }

  /** Every request that writes a row of the player passes the check; those refused and
      those of other players need not. */
  predicate ExactRun(l: Ledger, events: seq<Event>, p: PlayerId) {
    events == [] ||
    (var front, e := events[..|events| - 1], events[|events| - 1];
     var mid := Run(l, front);
     && ExactRun(l, front, p)
     && (Writes(mid, e) && Prepare(mid, e.request).value.player == p ==> Exact(mid, e.request)))
  }

  /** Balance = opening + deposits + payouts - bets - withdrawals, over any run. */
  lemma {:induction false} Conservation(l: Ledger, events: seq<Event>, p: PlayerId)
    requires Valid(l) && ValidEvents(events) && ExactRun(l, events, p)
    requires p in l.accounts && p != DEMO_PLAYER && l.accounts[p] >= 0
    ensures var after := Run(l, events);
            && l.rows <= after.rows && p in after.accounts
            && after.accounts[p] == Reckoning(NewRows(l, after), p, l.accounts[p])
  {
    hide Apply, Prepare, Valid;
    AccountFollowsJournal(l, events, p);
    if events == [] {
      assert NewRows(l, l) == [];
    } else {
      var front, e := events[..|events| - 1], events[|events| - 1];
      Conservation(l, front, p);
      AccountFollowsJournal(l, front, p);
      RunValid(l, front);
      var mid := Run(l, front);
      EventEffect(l, mid, e, p);
      if Writes(mid, e) {
        PreparedRow(mid, e.request);
        var row := Prepare(mid, e.request).value;
        RowAppended(NewRows(l, mid), row, p, l.accounts[p]);
        if row.player == p {
          ExactRow(mid, e.request);
        }
      }
    }
  }

  // ---- Open bets ----

  function Settled(rows: seq<Row>): set<TxId> {
    set i | 0 <= i < |rows| && rows[i].ref.Some? :: rows[i].ref.value
  }

  predicate SettledOnce(rows: seq<Row>) {
    forall i, j :: 0 <= i < j < |rows| && rows[i].ref.Some? ==> rows[i].ref != rows[j].ref
  }

  /** `open_bets` holds the bets issued and not yet settled, as they were placed, and
      no bet is settled twice. */
  lemma {:induction false} OpenBetsAreUnsettled(l: Ledger, events: seq<Event>)
    requires Valid(l) && ValidEvents(events)
    ensures var after := Run(l, events);
            && l.rows <= after.rows && l.next <= after.next
            && (forall t :: t in after.open <==>
                  (t in l.open || l.next <= t < after.next) && t !in Settled(NewRows(l, after)))
            && (forall t :: t in Settled(NewRows(l, after)) ==> t in l.open || l.next <= t < after.next)
            && (forall t :: t in after.open && t in l.open ==> after.open[t] == l.open[t])
            && SettledOnce(NewRows(l, after))
  {
    if events != [] {
      hide NewRows, Settled, SettledOnce, Valid, ValidEvent;
      var front, e := events[..|events| - 1], events[|events| - 1];
      OpenBetsAreUnsettled(l, front);
      RunValid(l, front);
      var mid := Run(l, front);
      RowsGrow(l, mid, e);
      if Writes(mid, e) {
        PreparedRow(mid, e.request);
        SettledGrows(NewRows(l, mid), Prepare(mid, e.request).value);
      }
      hide Prepare;
    }
  }

  lemma RowsGrow(start: Ledger, l: Ledger, e: Event)
    requires start.rows <= l.rows
    ensures var after := Apply(l, e);
            && start.rows <= after.rows
            && NewRows(start, after) == NewRows(start, l) + if Writes(l, e) then [Prepare(l, e.request).value] else []
  {
    hide Prepare;
  }

  lemma SettledGrows(rows: seq<Row>, row: Row)
    ensures Settled(rows + [row]) == Settled(rows) + if row.ref.Some? then {row.ref.value} else {}
    ensures SettledOnce(rows + [row]) <==> SettledOnce(rows) && (row.ref.Some? ==> row.ref.value !in Settled(rows))
  {
    var grown := rows + [row];
    if row.ref.Some? {
      assert grown[|rows|] == row;
    }
    forall i | 0 <= i < |rows| && rows[i].ref.Some?
      ensures rows[i].ref.value in Settled(rows) && rows[i].ref.value in Settled(grown)
    {
      assert grown[i] == rows[i];
    }
    if SettledOnce(grown) {
      assert forall i :: 0 <= i < |rows| ==> grown[i] == rows[i];
    }
  }

  /** A payout repeated at any later time changes nothing. */
  lemma RepeatedPayout(l: Ledger, tx: TxId, o: Outcome, events: seq<Event>, again: Outcome)
    requires Valid(l) && ValidEvents(events)
    requires Prepare(l, Payout(tx, o)).Some?
    ensures var later := Run(Serve(l, Payout(tx, o)), events);
            Serve(later, Payout(tx, again)) == later
  {
    var paid := Serve(l, Payout(tx, o));
    PreparedRow(l, Payout(tx, o));
    ApplyValid(l, Served(Payout(tx, o)));
    assert tx < l.next == paid.next && tx !in paid.open;
    OpenBetsAreUnsettled(paid, events);
  }
}
