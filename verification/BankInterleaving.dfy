/** The bank's handlers interleaved: each reads, possibly twice, and commits later.
    Commits overwrite a balance computed from what was read. */
module BankInterleaving {
  import opened Wrappers
  import opened BankTypes
  import opened Ledger
  import Cobol
  import Decimal

  /** How far a request has come: a payout has found its open bet, or a request has
      read everything and holds the row it will write. */
  datatype Progress =
    | Found(tx: TxId, outcome: Outcome, bet: OpenBet)
    | Ready(request: Request, row: Row)

  datatype System = System(ledger: Ledger, pending: map<nat, Progress>)

  datatype Step =
    | Begin(id: nat, request: Request)
    | ReadBalance(id: nat)
    | CommitRow(id: nat)
    | BeginReplenished(id: nat, cents: int, column: int)
    | Open(player: PlayerId, opening: int)

  function Owner(g: Progress): PlayerId {
    match g
    case Found(_, _, bet) => bet.player
    case Ready(_, row) => row.player
  }

  function Hold(s: System, id: nat, r: Request, row: Option<Row>): System {
    if row.None? then s.(pending := s.pending - {id})
    else s.(pending := s.pending[id := Ready(r, row.value)])
  }

  function Next(s: System, step: Step): System {
    match step
    case Begin(id, r) =>
      if id in s.pending then s
      else if r.Payout? then
        if r.tx in s.ledger.open then s.(pending := s.pending[id := Found(r.tx, r.outcome, s.ledger.open[r.tx])]) else s
      else Hold(s, id, r, Prepare(s.ledger, r))
    case ReadBalance(id) =>
      if id in s.pending && s.pending[id].Found? then
        var g := s.pending[id];
        Hold(s, id, Payout(g.tx, g.outcome), PreparePayout(s.ledger, g.tx, g.outcome, g.bet))
      else s
    case CommitRow(id) =>
      if id in s.pending && s.pending[id].Ready?
      then System(Commit(s.ledger, s.pending[id].row), s.pending - {id})
      else s
    case BeginReplenished(id, cents, column) =>
      var bet := Bet(DEMO_PLAYER, cents, column);
      if id in s.pending || !Short(s.ledger, DEMO_PLAYER, cents) then s
      else
        var full := Apply(s.ledger, Replenish);
        Hold(s.(ledger := full), id, bet, Prepare(full, bet))
    case Open(p, opening) => s.(ledger := Apply(s.ledger, OpenAccount(p, opening)))
  }

  function RunSteps(s: System, steps: seq<Step>): System {
    if steps == [] then s else Next(RunSteps(s, steps[..|steps| - 1]), steps[|steps| - 1])
  }

  /** What a step writes, as an event of a serial run. */
  function Written(s: System, step: Step): seq<Event> {
    match step
    case CommitRow(id) => if id in s.pending && s.pending[id].Ready? then [Served(s.pending[id].request)] else []
    case BeginReplenished(id, cents, _) =>
      if id in s.pending || !Short(s.ledger, DEMO_PLAYER, cents) then [] else [Replenish]
    case Open(p, opening) => [OpenAccount(p, opening)]
    case _ => []
  }

  function CommitOrder(s: System, steps: seq<Step>): seq<Event> {
    if steps == [] then []
    else
      var front := steps[..|steps| - 1];
      CommitOrder(s, front) + Written(RunSteps(s, front), steps[|steps| - 1])
  }

  // ---- A player's windows, from the balance read to the commit, do not overlap ----

  /** No request of the player is between its balance read and its commit. */
  predicate Idle(s: System, p: PlayerId) {
    forall id :: id in s.pending && s.pending[id].Ready? ==> Owner(s.pending[id]) != p
  }

  predicate Separate(s: System) {
    forall i, j :: (i in s.pending && j in s.pending && s.pending[i].Ready? && s.pending[j].Ready?
                    && Owner(s.pending[i]) == Owner(s.pending[j])) ==> i == j
  }

  predicate ValidStep(step: Step) {
    match step
    case Begin(_, r) => ValidRequest(r)
    case BeginReplenished(_, cents, column) => ValidRequest(Bet(DEMO_PLAYER, cents, column))
    case Open(_, opening) => InColumn(opening)
    case _ => true
  }

  /** The step opens no window of a player who has one, and resets no balance in one.
      A payout's lookup opens none. */
  predicate Alone(s: System, step: Step) {
    && ValidStep(step) && Separate(Next(s, step))
    && (step.BeginReplenished? && Written(s, step) != [] ==> Idle(s, DEMO_PLAYER))
  }

  predicate Exclusive(s: System, steps: seq<Step>) {
    steps == [] ||
    (Exclusive(s, steps[..|steps| - 1]) && Alone(RunSteps(s, steps[..|steps| - 1]), steps[|steps| - 1]))
  }

  // ---- Payouts of bets that are settled already ----

  /** The step commits a payout whose bet is no longer open. */
  predicate Stale(s: System, step: Step) {
    && step.CommitRow? && step.id in s.pending && s.pending[step.id].Ready? && s.pending[step.id].request.Payout?
    && s.pending[step.id].request.tx !in s.ledger.open
  }

  predicate NoStaleCommit(s: System, steps: seq<Step>) {
    steps == [] ||
    (NoStaleCommit(s, steps[..|steps| - 1]) && !Stale(RunSteps(s, steps[..|steps| - 1]), steps[|steps| - 1]))
  }

  // ---- What stays true of a request under way ----

  predicate Fits(l: Ledger, row: Row) {
    && row.player in l.accounts && row.before == l.accounts[row.player] && InColumn(row.after)
    && (row.kind == BetRow ==> InColumn(row.amount)) && (row.before >= 0 ==> row.after >= 0)
  }

  /** A found bet is as it was found while it is open; a row read is still what its
      request would write, but for a payout whose bet was settled. */
  predicate Current(l: Ledger, g: Progress) {
    match g
    case Found(tx, _, bet) =>
      tx < l.next && bet.player in l.accounts && InColumn(bet.amount) && (tx in l.open ==> l.open[tx] == bet)
    case Ready(r, row) =>
      && ValidRequest(r) && Fits(l, row)
      && if r.Payout? then r.tx < l.next && row.ref == Some(r.tx) && row.kind != BetRow
                           && (r.tx in l.open ==> Prepare(l, r) == Some(row))
         else Prepare(l, r) == Some(row)
  }

  predicate Consistent(s: System) {
    Valid(s.ledger) && Separate(s) && forall id :: id in s.pending ==> Current(s.ledger, s.pending[id])
  }

  /** What a request prepares depends on its player's balance and its open bet only. */
  lemma PrepareFrame(l: Ledger, m: Ledger, r: Request)
    requires Prepare(l, r).Some?
    requires var p := Prepare(l, r).value.player; p in l.accounts && p in m.accounts && m.accounts[p] == l.accounts[p]
    requires r.Payout? ==> r.tx in l.open && r.tx in m.open && m.open[r.tx] == l.open[r.tx]
    ensures Prepare(m, r) == Prepare(l, r)
  {
    hide Cobol.ReturnedCents, Cobol.CreditOf, Cobol.Unsigned15;
  }

  lemma PreparedIsCurrent(l: Ledger, r: Request)
    requires Valid(l) && ValidRequest(r) && Prepare(l, r).Some?
    ensures Current(l, Ready(r, Prepare(l, r).value))
  {
    PreparedRow(l, r);
    RowOf(l, r);
    hide Prepare;
  }

  /** The row a payout reads for the bet it found, open or not. */
  lemma FoundRow(l: Ledger, tx: TxId, o: Outcome, bet: OpenBet)
    requires Valid(l) && Current(l, Found(tx, o, bet))
    ensures var row := PreparePayout(l, tx, o, bet);
            row.Some? ==> Current(l, Ready(Payout(tx, o), row.value)) && row.value.player == bet.player
  {
    if PreparePayout(l, tx, o, bet).Some? {
      CreditFits(l, bet.player, Returned(bet, o), Cobol.PayoutType(o), Some(tx));
      hide Returned, PrepareCredit;
    }
  }

  lemma CreditFits(l: Ledger, p: PlayerId, cents: nat, kind: RowType, ref: Option<TxId>)
    requires Valid(l) && PrepareCredit(l, p, cents, cents, kind, ref).Some? && kind != BetRow
    ensures var row := PrepareCredit(l, p, cents, cents, kind, ref).value;
            Fits(l, row) && row.player == p && row.kind == kind && row.ref == ref
  {
  }

  lemma CommitKeepsCurrent(l: Ledger, row: Row, g: Progress)
    requires Valid(l) && Fits(l, row) && Current(l, g) && (g.Ready? ==> Owner(g) != row.player)
    ensures Current(Commit(l, row), g)
  {
    var after := Commit(l, row);
    if g.Ready? && Prepare(l, g.request) == Some(g.row) && (g.request.Payout? ==> g.request.tx in after.open) {
      RowOf(l, g.request);
      PrepareFrame(l, after, g.request);
    }
    hide Prepare;
  }

  lemma EventKeepsCurrent(l: Ledger, e: Event, g: Progress)
    requires Valid(l) && Current(l, g)
    requires e.OpenAccount? || (e.Replenish? && (g.Ready? ==> Owner(g) != DEMO_PLAYER))
    ensures Current(Apply(l, e), g)
  {
    if g.Ready? && Prepare(l, g.request) == Some(g.row) {
      RowOf(l, g.request);
      PrepareFrame(l, Apply(l, e), g.request);
    }
    hide Prepare;
  }

  lemma CommitValid(l: Ledger, row: Row)
    requires Valid(l) && Fits(l, row)
    ensures Valid(Commit(l, row)) && l.rows <= Commit(l, row).rows
  {
  }

  // ---- One step ----

  lemma HoldConsistent(s: System, id: nat, r: Request, row: Option<Row>)
    requires Consistent(s) && Separate(Hold(s, id, r, row)) && (row.Some? ==> Current(s.ledger, Ready(r, row.value)))
    ensures Consistent(Hold(s, id, r, row))
  {
    hide Current, Valid;
  }

  lemma BeginStep(s: System, id: nat, r: Request)
    requires Consistent(s) && Alone(s, Begin(id, r))
    ensures Consistent(Next(s, Begin(id, r)))
  {
    if id !in s.pending && !r.Payout? {
      if Prepare(s.ledger, r).Some? {
        PreparedIsCurrent(s.ledger, r);
      }
      HoldConsistent(s, id, r, Prepare(s.ledger, r));
    }
    hide Prepare, Hold;
  }

  lemma ReadStep(s: System, id: nat)
    requires Consistent(s) && Separate(Next(s, ReadBalance(id)))
    ensures Consistent(Next(s, ReadBalance(id)))
  {
    if id in s.pending && s.pending[id].Found? {
      var g := s.pending[id];
      assert Current(s.ledger, g);
      FoundRow(s.ledger, g.tx, g.outcome, g.bet);
      hide PreparePayout, Consistent, Hold, Current;
      HoldConsistent(s, id, Payout(g.tx, g.outcome), PreparePayout(s.ledger, g.tx, g.outcome, g.bet));
    }
  }

  lemma CommitStep(s: System, id: nat)
    requires Consistent(s) && id in s.pending && s.pending[id].Ready?
    ensures Consistent(Next(s, CommitRow(id)))
    ensures !Stale(s, CommitRow(id)) ==>
              Next(s, CommitRow(id)).ledger == Apply(s.ledger, Served(s.pending[id].request))
  {
    var Ready(r, row) := s.pending[id];
    assert Current(s.ledger, s.pending[id]);
    hide Prepare;
    CommitValid(s.ledger, row);
    forall j | j in s.pending && j != id ensures Current(Commit(s.ledger, row), s.pending[j]) {
      CommitKeepsCurrent(s.ledger, row, s.pending[j]);
    }
    hide Valid, Commit;
  }

  lemma AtomicStep(s: System, e: Event)
    requires Consistent(s) && ValidEvent(e) && !e.Served? && (e.Replenish? ==> Idle(s, DEMO_PLAYER))
    ensures Consistent(s.(ledger := Apply(s.ledger, e)))
  {
    ApplyValid(s.ledger, e);
    forall j | j in s.pending ensures Current(Apply(s.ledger, e), s.pending[j]) {
      EventKeepsCurrent(s.ledger, e, s.pending[j]);
    }
    hide Current, Apply, Valid;
  }

  lemma ReplenishedStep(s: System, id: nat, cents: int, column: int)
    requires Consistent(s) && Alone(s, BeginReplenished(id, cents, column))
    ensures Consistent(Next(s, BeginReplenished(id, cents, column)))
  {
    hide Prepare, Consistent;
    if Written(s, BeginReplenished(id, cents, column)) != [] {
      var bet := Bet(DEMO_PLAYER, cents, column);
      var full := s.(ledger := Apply(s.ledger, Replenish));
      AtomicStep(s, Replenish);
      ConsistentValid(full);
      if Prepare(full.ledger, bet).Some? {
        PreparedIsCurrent(full.ledger, bet);
      }
      HoldConsistent(full, id, bet, Prepare(full.ledger, bet));
    }
  }

  lemma ConsistentValid(s: System)
    requires Consistent(s)
    ensures Valid(s.ledger)
  {
  }

  /** A step keeps what was read current, and writes what its event would write unless
      it commits a payout whose bet is settled. */
  lemma StepIsSerial(s: System, step: Step)
    requires Consistent(s) && Alone(s, step)
    ensures Consistent(Next(s, step))
    ensures ValidEvents(Written(s, step)) && |Written(s, step)| <= 1
    ensures !Stale(s, step) ==>
              Next(s, step).ledger ==
              if Written(s, step) == [] then s.ledger else Apply(s.ledger, Written(s, step)[0])
  {
    hide Prepare, Commit;
    match step
    case Begin(id, r) => BeginStep(s, id, r);
    case ReadBalance(id) => ReadStep(s, id);
    case CommitRow(id) =>
      if id in s.pending && s.pending[id].Ready? {
        CommitStep(s, id);
        assert Current(s.ledger, s.pending[id]);
      }
    case BeginReplenished(id, cents, column) => ReplenishedStep(s, id, cents, column);
    case Open(p, opening) => AtomicStep(s, OpenAccount(p, opening));
  }

  // ---- A request left alone ----

  lemma ThreeSteps(s: System, a: Step, b: Step, c: Step)
    ensures RunSteps(s, [a, b, c]) == Next(Next(Next(s, a), b), c)
  {
    hide Next;
    assert [a][..0] == [] && [a, b][..1] == [a] && [a, b, c][..2] == [a, b];
    assert RunSteps(s, [a]) == Next(s, a) && RunSteps(s, [a, b]) == Next(Next(s, a), b);
  }

  /** The steps of a request that nothing comes between serve it, whatever else is under
      way. */
  lemma AloneIsServed(s: System, id: nat, r: Request)
    requires id !in s.pending
    ensures RunSteps(s, [Begin(id, r), ReadBalance(id), CommitRow(id)]) == s.(ledger := Serve(s.ledger, r))
  {
    hide RunSteps;
    ThreeSteps(s, Begin(id, r), ReadBalance(id), CommitRow(id));
    BegunAndRead(s, id, r);
    hide Next, Prepare, Commit;
    HeldIsCommitted(s, id, r, Prepare(s.ledger, r));
  }

  lemma BegunAndRead(s: System, id: nat, r: Request)
    requires id !in s.pending
    ensures Next(Next(s, Begin(id, r)), ReadBalance(id)) == Hold(s, id, r, Prepare(s.ledger, r))
  {
    hide PreparePayout, PrepareDebit, PrepareCredit;
    assert s.pending - {id} == s.pending;
    if r.Payout? && r.tx in s.ledger.open {
      var g := Found(r.tx, r.outcome, s.ledger.open[r.tx]);
      var row := PreparePayout(s.ledger, g.tx, g.outcome, g.bet);
      assert s.pending[id := g] - {id} == s.pending;
      assert row.Some? ==> s.pending[id := g][id := Ready(r, row.value)] == s.pending[id := Ready(r, row.value)];
    }
  }

  lemma HeldIsCommitted(s: System, id: nat, r: Request, row: Option<Row>)
    requires id !in s.pending && row == Prepare(s.ledger, r)
    ensures Next(Hold(s, id, r, row), CommitRow(id)) == s.(ledger := Serve(s.ledger, r))
  {
    hide Prepare, Commit;
    assert s.pending - {id} == s.pending;
    if row.Some? {
      assert s.pending[id := Ready(r, row.value)] - {id} == s.pending;
    }
  }

  /** The demo player's bet that the balance does not cover resets it and is served then. */
  lemma ReplenishedIsServed(s: System, id: nat, cents: int, column: int)
    requires id !in s.pending && Short(s.ledger, DEMO_PLAYER, cents)
    ensures Next(Next(s, BeginReplenished(id, cents, column)), CommitRow(id))
         == s.(ledger := Serve(Apply(s.ledger, Replenish), Bet(DEMO_PLAYER, cents, column)))
  {
    var full := s.(ledger := Apply(s.ledger, Replenish));
    hide Prepare, Commit, Short;
    HeldIsCommitted(full, id, Bet(DEMO_PLAYER, cents, column),
                    Prepare(full.ledger, Bet(DEMO_PLAYER, cents, column)));
  }

  // ---- Interleavings that end as serial runs ----

  lemma {:induction false} ConsistentThroughout(s: System, steps: seq<Step>)
    requires Consistent(s) && Exclusive(s, steps)
    ensures Consistent(RunSteps(s, steps)) && ValidEvents(CommitOrder(s, steps))
  {
    hide Consistent, Next, Written, Alone;
    if steps != [] {
      var front, step := steps[..|steps| - 1], steps[|steps| - 1];
      ConsistentThroughout(s, front);
      StepIsSerial(RunSteps(s, front), step);
    }
  }

  /** Windows that do not overlap, and no payout of a settled bet: the tables end as the
      serial run in commit order leaves them, journal and identifiers included. */
  lemma {:induction false} Serializable(s: System, steps: seq<Step>)
    requires Consistent(s) && Exclusive(s, steps) && NoStaleCommit(s, steps)
    ensures RunSteps(s, steps).ledger == Run(s.ledger, CommitOrder(s, steps))
  {
    hide Consistent, Next, Written, Apply, Alone, Stale;
    if steps != [] {
      var front, step := steps[..|steps| - 1], steps[|steps| - 1];
      Serializable(s, front);
      ConsistentThroughout(s, front);
      var mid := RunSteps(s, front);
      StepIsSerial(mid, step);
      var order := CommitOrder(s, front);
      var w := Written(mid, step);
      assert CommitOrder(s, steps) == order + w;
      if w == [] {
        assert order + w == order;
      } else {
        assert (order + w)[..|order + w| - 1] == order;
      }
    }
  }

  /** Every bet known is open or settled since, and not both. */
  ghost predicate BetsTracked(l: Ledger, m: Ledger) {
    && l.rows <= m.rows && l.next <= m.next
    && var settled := Settled(NewRows(l, m));
    && (forall t :: t in l.open || l.next <= t < m.next <==> t in m.open || t in settled)
    && (forall t :: t in m.open ==> t !in settled)
  }

  /** And a payout under way is of a known bet. */
  ghost predicate Tracked(l: Ledger, s: System) {
    && BetsTracked(l, s.ledger)
    && forall id :: id in s.pending ==> Known(l, s.ledger, s.pending[id])
  }

  predicate Known(l: Ledger, m: Ledger, g: Progress) {
    match g
    case Found(tx, _, _) => tx in l.open || l.next <= tx < m.next
    case Ready(r, row) =>
      if r.Payout? then (r.tx in l.open || l.next <= r.tx < m.next) && row.ref == Some(r.tx) && row.kind != BetRow
      else row.ref.None?
  }

  lemma PreparedRef(l: Ledger, r: Request)
    requires Prepare(l, r).Some? && !r.Payout?
    ensures Prepare(l, r).value.ref.None?
  {
    RowOf(l, r);
    hide Prepare;
  }

  lemma PayoutRef(l: Ledger, tx: TxId, o: Outcome, bet: OpenBet)
    requires PreparePayout(l, tx, o, bet).Some?
    ensures var row := PreparePayout(l, tx, o, bet).value; row.ref == Some(tx) && row.kind != BetRow
  {
    hide Returned, Cobol.CreditOf;
  }

  lemma CommitSettles(l: Ledger, m: Ledger, row: Row)
    requires l.rows <= m.rows
    ensures var after := Commit(m, row);
            && l.rows <= after.rows
            && Settled(NewRows(l, after)) == Settled(NewRows(l, m)) + (if row.ref.Some? then {row.ref.value} else {})
            && (SettledOnce(NewRows(l, after)) <==>
                SettledOnce(NewRows(l, m)) && (row.ref.Some? ==> row.ref.value !in Settled(NewRows(l, m))))
  {
    assert NewRows(l, Commit(m, row)) == NewRows(l, m) + [row];
    SettledGrows(NewRows(l, m), row);
    hide NewRows, Settled, SettledOnce;
  }

  lemma CommitTracksBets(l: Ledger, m: Ledger, row: Row)
    requires BetsTracked(l, m) && forall t :: t in l.open ==> t < l.next
    requires row.ref.Some? ==>
               row.kind != BetRow && (row.ref.value in l.open || l.next <= row.ref.value < m.next)
    ensures BetsTracked(l, Commit(m, row))
    ensures SettledOnce(NewRows(l, Commit(m, row))) <==>
            SettledOnce(NewRows(l, m)) && (row.ref.Some? ==> row.ref.value in m.open)
  {
    hide NewRows, Settled, SettledOnce;
    CommitSettles(l, m, row);
  }

  lemma CommitKeepsKnown(l: Ledger, m: Ledger, row: Row, g: Progress)
    requires Known(l, m, g)
    ensures Known(l, Commit(m, row), g)
  {
  }

  lemma CommitTracked(l: Ledger, s: System, id: nat)
    requires Tracked(l, s) && (forall t :: t in l.open ==> t < l.next) && id in s.pending && s.pending[id].Ready?
    ensures var after := Next(s, CommitRow(id));
            && Tracked(l, after)
            && (SettledOnce(NewRows(l, after.ledger)) <==>
                SettledOnce(NewRows(l, s.ledger)) && !Stale(s, CommitRow(id)))
  {
    var row := s.pending[id].row;
    assert Known(l, s.ledger, s.pending[id]);
    CommitTracksBets(l, s.ledger, row);
    hide BetsTracked, SettledOnce, Known, Commit;
    forall j | j in s.pending ensures Known(l, Commit(s.ledger, row), s.pending[j]) {
      CommitKeepsKnown(l, s.ledger, row, s.pending[j]);
    }
  }

  lemma StepTracked(l: Ledger, s: System, step: Step)
    requires Tracked(l, s) && forall t :: t in l.open ==> t < l.next
    ensures var after := Next(s, step);
            && Tracked(l, after)
            && (SettledOnce(NewRows(l, after.ledger)) <==> SettledOnce(NewRows(l, s.ledger)) && !Stale(s, step))
  {
    hide Prepare, PreparePayout, SettledOnce, Settled;
    match step
    case Begin(id, r) =>
      if id !in s.pending && !r.Payout? && Prepare(s.ledger, r).Some? {
        PreparedRef(s.ledger, r);
      }
    case ReadBalance(id) =>
      if id in s.pending && s.pending[id].Found? {
        var g := s.pending[id];
        assert Known(l, s.ledger, g);
        if PreparePayout(s.ledger, g.tx, g.outcome, g.bet).Some? {
          PayoutRef(s.ledger, g.tx, g.outcome, g.bet);
        }
      }
    case CommitRow(id) =>
      if id in s.pending && s.pending[id].Ready? {
        CommitTracked(l, s, id);
      }
    case BeginReplenished(id, cents, column) =>
      var bet := Bet(DEMO_PLAYER, cents, column);
      var full := Apply(s.ledger, Replenish);
      if Prepare(full, bet).Some? {
        PreparedRef(full, bet);
      }
    case Open(p, opening) =>
  }

  /** In every interleaving whatever, bets are settled once each exactly when no payout
      is committed whose bet is no longer open. */
  lemma {:induction false} SettledOnceExactly(l: Ledger, steps: seq<Step>)
    requires Valid(l)
    ensures Tracked(l, RunSteps(System(l, map[]), steps))
    ensures SettledOnce(NewRows(l, RunSteps(System(l, map[]), steps).ledger))
            <==> NoStaleCommit(System(l, map[]), steps)
  {
    var s := System(l, map[]);
    if steps == [] {
      assert NewRows(l, l) == [];
    } else {
      hide Tracked, Next, Stale, SettledOnce;
      var front, step := steps[..|steps| - 1], steps[|steps| - 1];
      SettledOnceExactly(l, front);
      StepTracked(l, RunSteps(s, front), step);
      TrackedRows(l, RunSteps(s, steps));
    }
  }

  lemma TrackedRows(l: Ledger, s: System)
    requires Tracked(l, s)
    ensures l.rows <= s.ledger.rows
  {
  }

  /** Where no player's windows overlap, an interleaving ends as some serial run exactly
      when it commits no payout of a bet that is no longer open, and then as the one in
      commit order. */
  lemma SerialExactly(l: Ledger, steps: seq<Step>)
    requires Valid(l) && Exclusive(System(l, map[]), steps)
    ensures var s := System(l, map[]);
            && ValidEvents(CommitOrder(s, steps))
            && ((exists events :: ValidEvents(events) && RunSteps(s, steps).ledger == Run(l, events))
                <==> NoStaleCommit(s, steps))
            && (NoStaleCommit(s, steps) ==> RunSteps(s, steps).ledger == Run(l, CommitOrder(s, steps)))
  {
    var s := System(l, map[]);
    hide Exclusive, NoStaleCommit, RunSteps, CommitOrder, Tracked, SettledOnce, Settled;
    ConsistentThroughout(s, steps);
    SettledOnceExactly(l, steps);
    if NoStaleCommit(s, steps) {
      Serializable(s, steps);
    }
    if events :| ValidEvents(events) && RunSteps(s, steps).ledger == Run(l, events) {
      OpenBetsAreUnsettled(l, events);
    }
  }

  /** A bet does not change between open and settled within a window, so a committed
      payout's bet is no longer open exactly when it was settled between its lookup and
      its balance read. */
  lemma {:induction false} WindowKeepsBet(s: System, steps: seq<Step>, id: nat)
    requires Consistent(s) && Exclusive(s, steps) && CommitRow(id) !in steps
    requires id in s.pending && s.pending[id].Ready? && s.pending[id].request.Payout?
    ensures var after, tx := RunSteps(s, steps), s.pending[id].request.tx;
            && id in after.pending && after.pending[id] == s.pending[id]
            && (tx in after.ledger.open <==> tx in s.ledger.open)
  {
    hide Consistent, Next, Alone;
    if steps != [] {
      var front, step := steps[..|steps| - 1], steps[|steps| - 1];
      WindowKeepsBet(s, front, id);
      ConsistentThroughout(s, front);
      StepKeepsBet(RunSteps(s, front), step, id);
    }
  }

  lemma StepKeepsBet(s: System, step: Step, id: nat)
    requires Consistent(s) && step != CommitRow(id)
    requires id in s.pending && s.pending[id].Ready? && s.pending[id].request.Payout?
    ensures var after, tx := Next(s, step), s.pending[id].request.tx;
            && id in after.pending && after.pending[id] == s.pending[id]
            && (tx in after.ledger.open <==> tx in s.ledger.open)
  {
    var tx := s.pending[id].request.tx;
    assert Current(s.ledger, s.pending[id]);
    if step.CommitRow? && step.id in s.pending && s.pending[step.id].Ready? && tx in s.ledger.open {
      assert Current(s.ledger, s.pending[step.id]);
      RowOf(s.ledger, s.pending[id].request);
      if Prepare(s.ledger, s.pending[step.id].request) == Some(s.pending[step.id].row) {
        RowOf(s.ledger, s.pending[step.id].request);
      }
    }
    hide Prepare, Valid;
  }

  // ---- What every interleaving without overlap guarantees ----

  predicate Commits(s: System, step: Step) {
    step.CommitRow? && step.id in s.pending && s.pending[step.id].Ready?
  }

  lemma StepEffect(l: Ledger, s: System, step: Step, p: PlayerId)
    requires Consistent(s) && l.rows <= s.ledger.rows && p in s.ledger.accounts && p != DEMO_PLAYER
    ensures var after := Next(s, step).ledger;
            && l.rows <= after.rows && p in after.accounts
            && (if Commits(s, step) then
                  var row := s.pending[step.id].row;
                  && Fits(s.ledger, row) && NewRows(l, after) == NewRows(l, s.ledger) + [row]
                  && after.accounts[p] == if row.player == p then row.after else s.ledger.accounts[p]
                else NewRows(l, after) == NewRows(l, s.ledger) && after.accounts[p] == s.ledger.accounts[p])
  {
    if Commits(s, step) {
      assert Current(s.ledger, s.pending[step.id]);
    }
    hide Prepare, PreparePayout, Fits;
  }

  lemma {:induction false} InterleavedJournal(l: Ledger, steps: seq<Step>, p: PlayerId)
    requires Valid(l) && Exclusive(System(l, map[]), steps)
    requires p in l.accounts && p != DEMO_PLAYER && l.accounts[p] >= 0
    ensures var after := RunSteps(System(l, map[]), steps).ledger;
            && l.rows <= after.rows && p in after.accounts
            && Chained(NewRows(l, after), p, l.accounts[p]) && NeverNegative(NewRows(l, after), p)
            && after.accounts[p] == EndBalance(NewRows(l, after), p, l.accounts[p]) >= 0
  {
    var s := System(l, map[]);
    hide Next, Alone, Consistent;
    if steps == [] {
      assert NewRows(l, l) == [];
    } else {
      var front, step := steps[..|steps| - 1], steps[|steps| - 1];
      InterleavedJournal(l, front, p);
      StartConsistent(l);
      ConsistentThroughout(s, front);
      var mid := RunSteps(s, front);
      StepEffect(l, mid, step, p);
      if Commits(mid, step) {
        RowAppended(NewRows(l, mid.ledger), mid.pending[step.id].row, p, l.accounts[p]);
      }
      hide NewRows, Chained, EndBalance, NeverNegative;
    }
  }

  lemma StartConsistent(l: Ledger)
    requires Valid(l)
    ensures Consistent(System(l, map[]))
  {
  }

  /** Every interleaving without overlapping windows keeps the journal chained to the
      balance and the balance at zero or more; and it settles bets once each exactly when
      it ends as a serial run. */
  lemma InterleavedGuarantees(l: Ledger, steps: seq<Step>, p: PlayerId)
    requires Valid(l) && Exclusive(System(l, map[]), steps)
    requires p in l.accounts && p != DEMO_PLAYER && l.accounts[p] >= 0
    ensures var after := RunSteps(System(l, map[]), steps).ledger;
            && l.rows <= after.rows && p in after.accounts
            && Chained(NewRows(l, after), p, l.accounts[p]) && NeverNegative(NewRows(l, after), p)
            && after.accounts[p] == EndBalance(NewRows(l, after), p, l.accounts[p]) >= 0
            && (SettledOnce(NewRows(l, after))
                <==> exists events :: ValidEvents(events) && after == Run(l, events))
  {
    hide Exclusive, RunSteps, SettledOnce, NoStaleCommit, Tracked;
    InterleavedJournal(l, steps, p);
    SettledOnceExactly(l, steps);
    SerialExactly(l, steps);
  }

  // ---- Conservation ----

  /** The row credits an account what it journals, but for the carry out of the field. */
  predicate Credits(row: Row) {
    && row.kind != BetRow && row.kind != WithdrawalRow && 0 <= row.amount < Cobol.FIELD
    && Cobol.CreditOf(Decimal.ReadBack(row.before), row.amount) == Some(row.after)
  }

  predicate PayoutsCredit(s: System) {
    forall id :: id in s.pending && s.pending[id].Ready? && s.pending[id].request.Payout? ==> Credits(s.pending[id].row)
  }

  lemma PayoutCredits(l: Ledger, tx: TxId, o: Outcome, bet: OpenBet)
    requires PreparePayout(l, tx, o, bet).Some?
    ensures Credits(PreparePayout(l, tx, o, bet).value)
  {
    Cobol.FieldsHoldReturn(o, Cobol.Unsigned15(Decimal.ReadBack(bet.amount)));
    assert 0 <= Returned(bet, o) < Cobol.FIELD;
    hide Returned, Cobol.CreditOf, Decimal.ReadBack;
  }

  lemma StepCredits(s: System, step: Step)
    requires PayoutsCredit(s)
    ensures PayoutsCredit(Next(s, step))
  {
    if step.ReadBalance? && step.id in s.pending && s.pending[step.id].Found? {
      var g := s.pending[step.id];
      if PreparePayout(s.ledger, g.tx, g.outcome, g.bet).Some? {
        PayoutCredits(s.ledger, g.tx, g.outcome, g.bet);
      }
    }
    hide Prepare, PreparePayout, Credits, Commit, Apply;
  }

  lemma {:induction false} AlwaysCredits(l: Ledger, steps: seq<Step>)
    ensures PayoutsCredit(RunSteps(System(l, map[]), steps))
  {
    hide PayoutsCredit, Next;
    if steps == [] {
      NothingCredits(l);
    } else {
      var front := steps[..|steps| - 1];
      AlwaysCredits(l, front);
      StepCredits(RunSteps(System(l, map[]), front), steps[|steps| - 1]);
    }
  }

  lemma NothingCredits(l: Ledger)
    ensures PayoutsCredit(System(l, map[]))
  {
  }

  /** A commit for the player passes the request's check on the tables it finds. For a
      payout, whose bet may be settled by then, that is that the credited balance still
      has fifteen digits. */
  predicate ExactCommit(s: System, step: Step, p: PlayerId) {
    Commits(s, step) && s.pending[step.id].row.player == p ==>
      var Ready(r, row) := s.pending[step.id];
      if r.Payout? then row.before + row.amount < Cobol.FIELD else Exact(s.ledger, r)
  }

  predicate ExactCommits(s: System, steps: seq<Step>, p: PlayerId) {
    steps == [] ||
    (ExactCommits(s, steps[..|steps| - 1], p) && ExactCommit(RunSteps(s, steps[..|steps| - 1]), steps[|steps| - 1], p))
  }

  lemma CommittedChange(s: System, step: Step, p: PlayerId)
    requires Consistent(s) && PayoutsCredit(s) && Commits(s, step) && ExactCommit(s, step, p)
    requires p in s.ledger.accounts && s.ledger.accounts[p] >= 0 && s.pending[step.id].row.player == p
    ensures var row := s.pending[step.id].row; row.after == s.ledger.accounts[p] + Change(row)
  {
    var Ready(r, row) := s.pending[step.id];
    assert Current(s.ledger, s.pending[step.id]);
    if r.Payout? {
      Cobol.CreditAdds(row.before, row.amount);
    } else {
      ExactRow(s.ledger, r);
    }
    hide Prepare, Exact, Cobol.CreditOf;
  }

  /** In every interleaving without overlapping windows, payouts of settled bets included:
      balance = opening + deposits + payouts - bets - withdrawals, as journalled. */
  lemma {:induction false} InterleavedConservation(l: Ledger, steps: seq<Step>, p: PlayerId)
    requires Valid(l) && Exclusive(System(l, map[]), steps) && ExactCommits(System(l, map[]), steps, p)
    requires p in l.accounts && p != DEMO_PLAYER && l.accounts[p] >= 0
    ensures var after := RunSteps(System(l, map[]), steps).ledger;
            && l.rows <= after.rows && p in after.accounts
            && after.accounts[p] == Reckoning(NewRows(l, after), p, l.accounts[p])
  {
    var s := System(l, map[]);
    hide Next, Alone, Consistent, PayoutsCredit, ExactCommit;
    if steps == [] {
      assert NewRows(l, l) == [];
    } else {
      var front, step := steps[..|steps| - 1], steps[|steps| - 1];
      InterleavedConservation(l, front, p);
      InterleavedJournal(l, front, p);
      StartConsistent(l);
      ConsistentThroughout(s, front);
      AlwaysCredits(l, front);
      var mid := RunSteps(s, front);
      StepEffect(l, mid, step, p);
      if Commits(mid, step) {
        var row := mid.pending[step.id].row;
        RowAppended(NewRows(l, mid.ledger), row, p, l.accounts[p]);
        if row.player == p {
          CommittedChange(mid, step, p);
        }
      }
      hide NewRows, Chained, EndBalance, NeverNegative, Reckoning, Change;
    }
  }

  // ---- And with overlap ----

  /** Two requests of one player that both read before either commits end as they
      would one after the other exactly when the first one to commit leaves the
      balance as it was and they do not settle the same bet. */
  lemma OverlapLosesFirstChange(l: Ledger, first: Request, second: Request)
    requires Valid(l) && ValidRequest(first) && ValidRequest(second)
    requires Prepare(l, first).Some? && Prepare(l, second).Some?
    requires Prepare(l, first).value.player == Prepare(l, second).value.player
    ensures var row := Prepare(l, first).value;
            Commit(Commit(l, row), Prepare(l, second).value) == Serve(Serve(l, first), second)
            <==> row.after == row.before && !(first.Payout? && second.Payout? && first.tx == second.tx)
  {
    var row, row2 := Prepare(l, first).value, Prepare(l, second).value;
    PreparedRow(l, first);
    PreparedRow(l, second);
    var mid := Commit(l, row);
    var overlapped := Commit(mid, row2);
    assert overlapped.rows == l.rows + [row] + [row2];
    if Prepare(mid, second).Some? {
      var again := Prepare(mid, second).value;
      assert Serve(mid, second).rows == l.rows + [row] + [again];
      assert Serve(mid, second).rows[|l.rows| + 1] == again && overlapped.rows[|l.rows| + 1] == row2;
      AfterUnchangedBalance(l, first, second);
      ApplyValid(l, Served(first));
      PreparedRow(mid, second);
    } else {
      assert |Serve(mid, second).rows| < |overlapped.rows|;
      AfterUnchangedBalance(l, first, second);
    }
  }

  lemma AfterUnchangedBalance(l: Ledger, first: Request, second: Request)
    requires Valid(l) && ValidRequest(first) && ValidRequest(second)
    requires Prepare(l, first).Some? && Prepare(l, second).Some?
    requires Prepare(l, first).value.player == Prepare(l, second).value.player
    ensures var mid := Commit(l, Prepare(l, first).value);
            && (first.Payout? && second.Payout? && first.tx == second.tx ==> Prepare(mid, second).None?)
            && (!(first.Payout? && second.Payout? && first.tx == second.tx)
                && Prepare(l, first).value.after == Prepare(l, first).value.before ==>
                Prepare(mid, second) == Prepare(l, second))
  {
    hide Prepare;
    PreparedRow(l, first);
    PreparedRow(l, second);
    RowOf(l, first);
    RowOf(l, second);
    var mid := Commit(l, Prepare(l, first).value);
    if first.Payout? && second.Payout? && first.tx == second.tx {
      if Prepare(mid, second).Some? {
        RowOf(mid, second);
      }
    } else if Prepare(l, first).value.after == Prepare(l, first).value.before {
      PrepareFrame(l, mid, second);
    }
  }

  /** Two lookups of one bet, and then two payouts whose windows do not overlap. */
  function PaidTwice(tx: TxId, o: Outcome): seq<Step> {
    [Begin(0, Payout(tx, o)), Begin(1, Payout(tx, o)), ReadBalance(0), CommitRow(0), ReadBalance(1), CommitRow(1)]
  }

  /** The code does not look again whether the bet is open: the second payout is read and
      committed after the first settled the bet, and both are journalled. */
  lemma LateReadPaysTwice(l: Ledger, tx: TxId, o: Outcome)
    requires Valid(l) && Prepare(l, Payout(tx, o)).Some?
    ensures var s, steps := System(l, map[]), PaidTwice(tx, o);
            var after := RunSteps(s, steps).ledger;
            && Exclusive(s, steps) && !NoStaleCommit(s, steps)
            && |after.rows| == |l.rows| + 2
            && after.rows[|l.rows|].ref == after.rows[|l.rows| + 1].ref == Some(tx)
  {
    RowOf(l, Payout(tx, o));
    PayoutPrepared(l, tx, o);
    SecondPayoutPrepared(l, tx, o);
    var bet, row := l.open[tx], Prepare(l, Payout(tx, o)).value;
    hide PreparePayout, Prepare, Commit, Exclusive, NoStaleCommit, RunSteps, Next, PaidTwice;
    PaidTwiceRun(l, tx, o, bet, row, PreparePayout(Commit(l, row), tx, o, bet).value);
  }

  lemma PaidTwiceRun(l: Ledger, tx: TxId, o: Outcome, bet: OpenBet, row: Row, row2: Row)
    requires tx in l.open && l.open[tx] == bet && PreparePayout(l, tx, o, bet) == Some(row)
    requires PreparePayout(Commit(l, row), tx, o, bet) == Some(row2) && tx !in Commit(l, row).open
    ensures var s, steps := System(l, map[]), PaidTwice(tx, o);
            && Exclusive(s, steps) && !NoStaleCommit(s, steps)
            && RunSteps(s, steps) == System(Commit(Commit(l, row), row2), map[])
  {
    hide PreparePayout, Prepare, Commit, Next, RunSteps, Exclusive, NoStaleCommit;
    var s, steps, r, g := System(l, map[]), PaidTwice(tx, o), Payout(tx, o), Found(tx, o, bet);
    var paid := Commit(l, row);
    PaidTwiceStates(l, tx, o, bet, row, row2);
    assert steps[0] == Begin(0, r) && steps[1] == Begin(1, r) && steps[2] == ReadBalance(0);
    assert steps[3] == CommitRow(0) && steps[4] == ReadBalance(1) && steps[5] == CommitRow(1);
    assert |steps| == 6 && steps[..6] == steps;
    hide PaidTwice;
    NothingRun(s, steps);
    RunsOn(s, steps, 0, System(l, map[0 := g]));
    RunsOn(s, steps, 1, System(l, map[0 := g, 1 := g]));
    RunsOn(s, steps, 2, System(l, map[0 := Ready(r, row), 1 := g]));
    RunsOn(s, steps, 3, System(paid, map[1 := g]));
    RunsOn(s, steps, 4, System(paid, map[1 := Ready(r, row2)]));
    RunsOn(s, steps, 5, System(Commit(paid, row2), map[]));
  }

  lemma PaidTwiceStates(l: Ledger, tx: TxId, o: Outcome, bet: OpenBet, row: Row, row2: Row)
    requires tx in l.open && l.open[tx] == bet && PreparePayout(l, tx, o, bet) == Some(row)
    requires PreparePayout(Commit(l, row), tx, o, bet) == Some(row2)
    ensures var r, g, paid := Payout(tx, o), Found(tx, o, bet), Commit(l, row);
            && Next(System(l, map[]), Begin(0, r)) == System(l, map[0 := g])
            && Next(System(l, map[0 := g]), Begin(1, r)) == System(l, map[0 := g, 1 := g])
            && Next(System(l, map[0 := g, 1 := g]), ReadBalance(0)) == System(l, map[0 := Ready(r, row), 1 := g])
            && Next(System(l, map[0 := Ready(r, row), 1 := g]), CommitRow(0)) == System(paid, map[1 := g])
            && Next(System(paid, map[1 := g]), ReadBalance(1)) == System(paid, map[1 := Ready(r, row2)])
            && Next(System(paid, map[1 := Ready(r, row2)]), CommitRow(1)) == System(Commit(paid, row2), map[])
  {
    hide PreparePayout, Prepare, Commit;
    var r, g := Payout(tx, o), Found(tx, o, bet);
    assert map[0 := g][1 := g] == map[0 := g, 1 := g];
    assert map[0 := g, 1 := g][0 := Ready(r, row)] == map[0 := Ready(r, row), 1 := g];
    assert map[0 := Ready(r, row), 1 := g] - {0} == map[1 := g];
    assert map[1 := Ready(r, row2)] - {1} == map[];
  }

  lemma NothingRun(s: System, steps: seq<Step>)
    ensures RunSteps(s, steps[..0]) == s && Exclusive(s, steps[..0]) && NoStaleCommit(s, steps[..0])
  {
  }

  /** One more step of a run whose windows have not overlapped so far. */
  lemma RunsOn(s: System, steps: seq<Step>, k: nat, next: System)
    requires k < |steps| && Exclusive(s, steps[..k]) && ValidStep(steps[k]) && !steps[k].BeginReplenished?
    requires Next(RunSteps(s, steps[..k]), steps[k]) == next && Separate(next)
    ensures RunSteps(s, steps[..k + 1]) == next && Exclusive(s, steps[..k + 1])
    ensures NoStaleCommit(s, steps[..k + 1])
            <==> NoStaleCommit(s, steps[..k]) && !Stale(RunSteps(s, steps[..k]), steps[k])
  {
    hide Next;
    assert steps[..k + 1][..k] == steps[..k];
  }

  lemma PayoutPrepared(l: Ledger, tx: TxId, o: Outcome)
    requires tx in l.open
    ensures Prepare(l, Payout(tx, o)) == PreparePayout(l, tx, o, l.open[tx])
  {
  }

  lemma SecondPayoutPrepared(l: Ledger, tx: TxId, o: Outcome)
    requires Valid(l) && Prepare(l, Payout(tx, o)).Some?
    ensures var row := Prepare(l, Payout(tx, o)).value;
            var again := PreparePayout(Commit(l, row), tx, o, l.open[tx]);
            && again.Some? && again.value.ref == Some(tx) == row.ref && tx !in Commit(l, row).open
            && Commit(Commit(l, row), again.value).rows == l.rows + [row] + [again.value]
  {
    var bet := l.open[tx];
    PreparedRow(l, Payout(tx, o));
    var row := Prepare(l, Payout(tx, o)).value;
    Cobol.FieldsHoldReturn(o, Cobol.Unsigned15(Decimal.ReadBack(bet.amount)));
    hide Cobol.ReturnedCents, Cobol.Unsigned15;
    assert 0 <= Returned(bet, o) < Cobol.FIELD;
  }
}
