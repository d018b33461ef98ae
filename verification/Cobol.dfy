/** The three COBOL programs. A numeric field keeps the low-order fifteen digits
    of what is stored in it; none of the programs has a size-error clause. */
module Cobol {
  import opened Wrappers
  import opened BankTypes
  import Decimal
  import Strings

  /** As many digits as the columns have. */
  const FIELD: int := Decimal.COLUMN_LIMIT

  /** PIC S9(15). */
  function Signed15(x: int): int {
    if x < 0 then -((-x) % FIELD) else x % FIELD
  }

  /** PIC 9(15), which has no place for a sign. */
  function Unsigned15(x: int): (r: nat)
    ensures r < FIELD
  {
    (if x < 0 then -x else x) % FIELD
  }

  /** A field keeps the low-order fifteen digits, with the sign if it has one. */
  lemma FieldKeepsDigits(x: int)
    ensures -FIELD < Signed15(x) < FIELD && (x >= 0 ==> Signed15(x) >= 0) && (x <= 0 ==> Signed15(x) <= 0)
    ensures exists k: int :: x == Signed15(x) + k * FIELD
    ensures Unsigned15(x) == if x < 0 then -Signed15(x) else Signed15(x)
  {
    if x < 0 {
      assert x == Signed15(x) + (-((-x) / FIELD)) * FIELD;
    } else {
      assert x == Signed15(x) + x / FIELD * FIELD;
    }
  }

  lemma FieldHolds(x: int)
    requires -FIELD < x < FIELD
    ensures Signed15(x) == x
  {
  }

  // ---- VALIDATE-DEBIT ----

  datatype Debit = Sufficient(newBalance: int) | Insufficient

  function DebitOf(balance: int, debit: int): Option<Debit> {
    var b, d := Signed15(balance), Signed15(debit);
    if d <= 0 then None
    else if b < d then Some(Insufficient)
    else Some(Sufficient(Signed15(b - d)))
  }

  method ValidateDebit(balance: int, debit: int) returns (r: Option<Debit>)
    ensures r == DebitOf(balance, debit)
    ensures r.Some? && r.value.Sufficient? ==> -FIELD < r.value.newBalance < FIELD
    ensures -FIELD < balance < FIELD && 0 < debit < FIELD ==>
              r == if debit <= balance then Some(Sufficient(balance - debit)) else Some(Insufficient)
  {
    var wsBalance, wsDebit, wsNewBalance, wsStatus := Signed15(balance), Signed15(debit), 0, "";
    if wsDebit <= 0 {
      return None;
    }
    if wsBalance < wsDebit {
      wsStatus := "INSUFFICIENT";
      wsNewBalance := 0;
    } else {
      wsStatus := "OK";
      wsNewBalance := Signed15(wsBalance - wsDebit);
    }
    return Some(if wsStatus == "OK" then Sufficient(wsNewBalance) else Insufficient);
  }

  // ---- CALC-CREDIT ----

  /** A zero credit is answered by the caller without running the program. */
  function CreditOf(balance: int, credit: int): Option<int> {
    if credit == 0 then Some(balance)
    else if Signed15(credit) < 0 then None
    else Some(Signed15(Signed15(balance) + Signed15(credit)))
  }

  method CalcCredit(balance: int, credit: int) returns (r: Option<int>)
    ensures r == CreditOf(balance, credit)
  {
    if credit == 0 {
      return Some(balance);
    }
    var wsBalance, wsCredit, wsNewBalance := Signed15(balance), Signed15(credit), 0;
    if wsCredit < 0 {
      return None;
    }
    wsNewBalance := Signed15(wsBalance + wsCredit);
    return Some(wsNewBalance);
  }

  /** A credit adds exactly when the new balance still has fifteen digits. */
  lemma CreditAdds(balance: int, credit: int)
    requires 0 <= balance < FIELD && 0 <= credit < FIELD
    ensures CreditOf(balance, credit).Some?
    ensures CreditOf(balance, credit) == Some(balance + credit) <==> balance + credit < FIELD
    ensures 0 <= CreditOf(balance, credit).value < FIELD
  {
  }

  // ---- CALC-PAYOUT ----

  /** PIC X(n): cut off on the right, or padded with spaces. */
  function AlphaField(s: string, n: nat): string {
    if |s| >= n then s[..n] else s + seq(n - |s|, i => ' ')
  }

  function ToUpper(c: char): char {
    if 'a' <= c <= 'z' then (c as int - 'a' as int + 'A' as int) as char else c
  }

  function Upper(s: string): string {
    seq(|s|, i requires 0 <= i < |s| => ToUpper(s[i]))
  }

  /** The nine characters the program compares with the result names. */
  function ResultField(result: string): string {
    AlphaField(Upper(Strings.Trim(result, Decimal.GoSpace)), 9)
  }

  function OutcomeOf(result: string): Option<Outcome> {
    OutcomeOfField(AlphaField(Strings.TrimLeft(ResultField(result), c => c == ' '), 9))
  }

  function OutcomeOfField(field: string): Option<Outcome> {
    if field == "BLACKJACK" then Some(Blackjack)
    else if field == "WIN      " then Some(Win)
    else if field == "PUSH     " then Some(Push)
    else if field == "LOSS     " then Some(Loss)
    else None
  }

  function OutcomeName(o: Outcome): string {
    match o
    case Blackjack => "blackjack"
    case Win => "win"
    case Push => "push"
    case Loss => "loss"
  }

  /** What the game sends is understood as what it meant. */
  lemma OutcomeOfName(o: Outcome)
    ensures OutcomeOf(OutcomeName(o)) == Some(o)
  {
    var name := OutcomeName(o);
    Strings.TrimFixpoint(name, Decimal.GoSpace);
    var padded := match o
      case Blackjack => "BLACKJACK"
      case Win => "WIN      "
      case Push => "PUSH     "
      case Loss => "LOSS     ";
    assert ResultField(name) == padded;
    assert Strings.TrimLeft(padded, c => c == ' ') == padded;
    assert AlphaField(padded, 9) == padded;
  }

  function Cut(s: string, n: nat): string {
    if |s| > n then s[..n] else s
  }

  predicate Blank(c: char) { c == ' ' }

  /** A result stands for an outcome exactly when it is the outcome's name, white space
      and capitals aside, whatever follows the ninth character. */
  lemma OutcomeByName(result: string, o: Outcome)
    ensures OutcomeOf(result) == Some(o) <==>
            Strings.TrimRight(Cut(Upper(Strings.Trim(result, Decimal.GoSpace)), 9), Blank) == Upper(OutcomeName(o))
  {
    hide Strings.Trim, Upper, OutcomeName, OutcomeOf, OutcomeOfField;
    var s := Upper(Strings.Trim(result, Decimal.GoSpace));
    FieldStays(result);
    FieldNames(AlphaField(s, 9), o);
    NameIsShort(o);
    PaddedExactly(s, Upper(OutcomeName(o)));
    hide AlphaField, Cut, Strings.TrimRight;
  }

  /** A trimmed result has no leading blanks to remove. */
  lemma FieldStays(result: string)
    ensures OutcomeOf(result) == OutcomeOfField(AlphaField(Upper(Strings.Trim(result, Decimal.GoSpace)), 9))
  {
    hide OutcomeOfField;
    var trimmed := Strings.Trim(result, Decimal.GoSpace);
    var field := AlphaField(Upper(trimmed), 9);
    if trimmed != "" {
      Strings.TrimRightKeepsFirst(Strings.TrimLeft(result, Decimal.GoSpace), Decimal.GoSpace);
      assert field[0] == ToUpper(trimmed[0]) && field[0] != ' ';
      assert Strings.TrimLeft(field, c => c == ' ') == field;
    } else {
      assert field == "         ";
      assert Strings.TrimLeft("         ", c => c == ' ') == "";
      assert AlphaField("", 9) == "         ";
    }
    assert AlphaField(field, 9) == field;
  }

  lemma FieldNames(field: string, o: Outcome)
    ensures OutcomeOfField(field) == Some(o) <==> field == AlphaField(Upper(OutcomeName(o)), 9)
  {
    assert AlphaField("WIN", 9) == "WIN      " && AlphaField("PUSH", 9) == "PUSH     ";
    assert AlphaField("LOSS", 9) == "LOSS     " && AlphaField("BLACKJACK", 9) == "BLACKJACK";
    CapitalName(o);
    hide AlphaField, Upper;
  }

  lemma CapitalName(o: Outcome)
    ensures Upper(OutcomeName(o)) == match o
                                     case Blackjack => "BLACKJACK"
                                     case Win => "WIN"
                                     case Push => "PUSH"
                                     case Loss => "LOSS"
  {
  }

  lemma NameIsShort(o: Outcome)
    ensures var name := Upper(OutcomeName(o)); 0 < |name| <= 9 && name[|name| - 1] != ' '
  {
    CapitalName(o);
  }

  lemma PaddedExactly(s: string, name: string)
    requires 0 < |name| <= 9 && name[|name| - 1] != ' '
    ensures AlphaField(s, 9) == AlphaField(name, 9) <==> Strings.TrimRight(Cut(s, 9), Blank) == name
  {
    if Strings.TrimRight(Cut(s, 9), Blank) == name {
      TrimmedIsPadded(s, name);
    }
    if AlphaField(s, 9) == AlphaField(name, 9) {
      PaddedIsTrimmed(s, name);
    }
  }

  lemma TrimmedIsPadded(s: string, name: string)
    requires |name| <= 9 && Strings.TrimRight(Cut(s, 9), Blank) == name
    ensures AlphaField(s, 9) == AlphaField(name, 9)
  {
    BlanksTrimmed(Cut(s, 9));
    assert forall i :: |name| <= i < |Cut(s, 9)| ==> Cut(s, 9)[i] == ' ';
  }

  lemma PaddedIsTrimmed(s: string, name: string)
    requires 0 < |name| <= 9 && name[|name| - 1] != ' ' && AlphaField(s, 9) == AlphaField(name, 9)
    ensures Strings.TrimRight(Cut(s, 9), Blank) == name
  {
    var cut := Cut(s, 9);
    BlanksTrimmed(cut);
    assert forall i :: 0 <= i < |name| ==> AlphaField(name, 9)[i] == name[i];
    assert forall i :: |name| <= i < 9 ==> AlphaField(name, 9)[i] == ' ';
    assert forall i :: 0 <= i < 9 ==> AlphaField(s, 9)[i] == if i < |cut| then cut[i] else ' ';
    assert |cut| >= |name| && cut[|name| - 1] == name[|name| - 1];
    assert forall i :: |name| <= i < |cut| ==> cut[i] == ' ';
    assert cut[..|name|] == name;
  }

  lemma {:induction false} BlanksTrimmed(s: string)
    ensures var t := Strings.TrimRight(s, Blank);
            && |t| <= |s| && s[..|t|] == t && (forall i :: |t| <= i < |s| ==> s[i] == ' ')
  {
    if s != "" && s[|s| - 1] == ' ' {
      BlanksTrimmed(s[..|s| - 1]);
      assert s == s[..|s| - 1] + [' '];
    }
  }

  function PayoutType(o: Outcome): RowType {
    match o
    case Blackjack => PayoutWin
    case Win => PayoutWin
    case Push => PayoutPush
    case Loss => PayoutLoss
  }

  /** The documented return: the stake back with nothing, once, or three halves of
      it rounded down to a whole dollar. */
  function Documented(o: Outcome, bet: nat): nat {
    match o
    case Blackjack => bet + 100 * (3 * bet / 200)
    case Win => 2 * bet
    case Push => bet
    case Loss => 0
  }

  function ReturnedCents(o: Outcome, bet: nat): nat {
    match o
    case Blackjack => (bet + ((bet * 3 / 2) % FIELD) / 100 * 100) % FIELD
    case Win => bet * 2 % FIELD
    case Push => bet
    case Loss => 0
  }

  datatype PayoutResult = PayoutResult(returned: nat, kind: RowType)

  method CalcPayout(betCents: int, result: string) returns (r: Option<PayoutResult>)
    ensures r == match OutcomeOf(result)
                 case None => None
                 case Some(o) => Some(PayoutResult(ReturnedCents(o, Unsigned15(betCents)), PayoutType(o)))
  {
    var wsBet: nat, wsReturned: nat, wsPayoutType := Unsigned15(betCents), 0, PayoutLoss;
    var wsResult := ResultField(result);
    var wsResultTrimmed := AlphaField(Strings.TrimLeft(wsResult, c => c == ' '), 9);
    if wsResultTrimmed == "BLACKJACK" {
      wsReturned := (wsBet * 3) / 2 % FIELD;
      wsReturned := (wsReturned / 100) * 100;
      wsReturned := (wsBet + wsReturned) % FIELD;
      wsPayoutType := PayoutWin;
    } else if wsResultTrimmed == "WIN      " {
      wsReturned := wsBet * 2 % FIELD;
      wsPayoutType := PayoutWin;
    } else if wsResultTrimmed == "PUSH     " {
      wsReturned := wsBet;
      wsPayoutType := PayoutPush;
    } else if wsResultTrimmed == "LOSS     " {
      wsReturned := 0;
      wsPayoutType := PayoutLoss;
    } else {
      return None;
    }
    return Some(PayoutResult(wsReturned, wsPayoutType));
  }

  /** On stakes of sixty-seven cents or more a payout is journalled as won, pushed or lost
      exactly as more than the stake, just the stake, or less comes back. Below that a
      blackjack is journalled as won although only the stake comes back. */
  lemma TypeTellsReturn(o: Outcome, bet: nat)
    requires bet > 0
    ensures PayoutType(o) == PayoutLoss <==> Documented(o, bet) < bet
    ensures (PayoutType(o) == PayoutWin <==> Documented(o, bet) > bet)
            && (PayoutType(o) == PayoutPush <==> Documented(o, bet) == bet)
            <==> !(o == Blackjack && bet < 67)
    ensures PayoutType(o) in {PayoutWin, PayoutPush, PayoutLoss}
  {
    match o
    case Blackjack => assert 3 * bet / 200 > 0 <==> bet >= 67;
    case Win =>
    case Push =>
    case Loss =>
  }

  lemma ProfitInDollars(bet: nat)
    ensures bet * 3 / 2 / 100 == 3 * bet / 200
    ensures bet * 3 / 2 - 100 < 100 * (3 * bet / 200) <= bet * 3 / 2
  {
  }

  lemma StoredProfit(bet: nat)
    requires bet < FIELD
    ensures bet * 3 / 2 < FIELD ==> (bet * 3 / 2) % FIELD / 100 * 100 == 100 * (3 * bet / 200)
    ensures bet * 3 / 2 >= FIELD ==> bet + 100 * (3 * bet / 200) >= FIELD
  {
    ProfitInDollars(bet);
  }

  lemma StoredSum(a: nat, b: nat)
    requires a < FIELD && b < FIELD
    ensures (a + b) % FIELD == a + b <==> a + b < FIELD
  {
  }

  /** The fields keep the low-order fifteen digits of the documented return. */
  lemma ReturnedModulo(o: Outcome, bet: nat)
    requires bet < FIELD
    ensures ReturnedCents(o, bet) == Documented(o, bet) % FIELD
  {
    if o == Blackjack {
      ProfitInDollars(bet);
      var x := bet * 3 / 2;
      WholeDollarsModulo(x);
      assert 100 * (3 * bet / 200) == x / 100 * 100;
      AddModulo(bet, x / 100 * 100);
    }
  }

  lemma WholeDollarsModulo(x: nat)
    ensures x % FIELD / 100 * 100 == (x / 100 * 100) % FIELD
  {
    var q, r := x / FIELD, x % FIELD;
    assert x == FIELD * q + r && FIELD == 100 * 10_000_000_000_000;
    assert x / 100 == 10_000_000_000_000 * q + r / 100;
    assert x / 100 * 100 == FIELD * q + r / 100 * 100;
    ModuloIs(q, r / 100 * 100);
  }

  lemma ModuloIs(q: nat, r: nat)
    requires r < FIELD
    ensures (FIELD * q + r) % FIELD == r
  {
  }

  lemma AddModulo(a: nat, b: nat)
    ensures (a + b % FIELD) % FIELD == (a + b) % FIELD
  {
    var q, r := (a + b % FIELD) / FIELD, (a + b % FIELD) % FIELD;
    assert a + b == FIELD * (q + b / FIELD) + r;
    ModuloIs(q + b / FIELD, r);
  }

  /** The fields lose nothing of a return exactly when it has at most fifteen digits. */
  lemma FieldsHoldReturn(o: Outcome, bet: nat)
    requires bet < FIELD
    ensures ReturnedCents(o, bet) == Documented(o, bet) <==> Documented(o, bet) < FIELD
    ensures bet < 400_000_000_000_000 ==> Documented(o, bet) < FIELD
    ensures ReturnedCents(o, bet) < FIELD
  {
    match o
    case Blackjack =>
      StoredProfit(bet);
      ProfitInDollars(bet);
      var dollars := 100 * (3 * bet / 200);
      if bet * 3 / 2 < FIELD {
        StoredSum(bet, dollars);
      }
    case Win => StoredSum(bet, bet);
    case Push =>
    case Loss =>
  }

  /** The blackjack return is never more than five halves of the stake, less than a
      dollar short of it, and equal to it exactly on stakes of whole pairs of dollars. */
  lemma BlackjackReturn(bet: nat)
    ensures 5 * bet - 200 < 2 * Documented(Blackjack, bet) <= 5 * bet
    ensures 2 * Documented(Blackjack, bet) == 5 * bet <==> bet % 200 == 0
  {
    var pairs, rest := bet / 200, bet % 200;
    assert bet == 200 * pairs + rest;
    assert 3 * bet / 200 == 3 * pairs + 3 * rest / 200;
  }

  /** So the program returns the promised five halves exactly when the stake is in pairs
      of dollars and the return has fifteen digits. */
  lemma PromisedBlackjack(bet: nat)
    requires bet < FIELD
    ensures 2 * ReturnedCents(Blackjack, bet) == 5 * bet <==> bet % 200 == 0 && 5 * bet < 2 * FIELD
  {
    BlackjackReturn(bet);
    FieldsHoldReturn(Blackjack, bet);
    hide Documented, ReturnedCents;
  }

  /** A blackjack on one dollar returns two dollars, and on the fifteen that a table takes
      thirty-seven, where the contract promises fifty cents more. */
  lemma BlackjackFallsShort()
    ensures ReturnedCents(Blackjack, 100) == 200 && 5 * 100 / 2 == 250
    ensures ReturnedCents(Blackjack, 1500) == 3700 && 5 * 1500 / 2 == 3750
  {
  }

  /** Better outcomes return more on every stake of whole dollars. */
  lemma ReturnsAreOrdered(bet: nat)
    requires bet > 0 && bet % 100 == 0
    ensures Documented(Loss, bet) < Documented(Push, bet) < Documented(Win, bet) <= Documented(Blackjack, bet)
    ensures Documented(Win, bet) == Documented(Blackjack, bet) <==> bet == 100
    ensures forall o :: Documented(o, bet) % 100 == 0
  {
    var dollars := bet / 100;
    assert bet == 100 * dollars;
    var profit := WholeDollarProfit(dollars);
    hide Documented;
    SimpleReturns(bet);
    forall o ensures Documented(o, bet) % 100 == 0 {
      ReturnsDollars(o, dollars);
    }
  }

  lemma ReturnsDollars(o: Outcome, dollars: nat)
    ensures Documented(o, 100 * dollars) % 100 == 0
  {
    hide Documented;
    var profit := WholeDollarProfit(dollars);
    SimpleReturns(100 * dollars);
    match o
    case Blackjack => WholeDollars(dollars + profit);
    case Win => WholeDollars(2 * dollars);
    case Push => WholeDollars(dollars);
    case Loss => WholeDollars(0);
  }

  lemma WholeDollars(n: nat)
    ensures (100 * n) % 100 == 0
  {
  }

  lemma SimpleReturns(bet: nat)
    ensures Documented(Win, bet) == 2 * bet && Documented(Push, bet) == bet && Documented(Loss, bet) == 0
  {
  }

  lemma WholeDollarProfit(dollars: nat) returns (profit: nat)
    ensures Documented(Blackjack, 100 * dollars) == 100 * (dollars + profit)
    ensures profit >= dollars && (dollars > 0 ==> (profit == dollars <==> dollars == 1))
  {
    profit := 3 * dollars / 2;
    assert 3 * (100 * dollars) / 200 == profit;
  }
}
