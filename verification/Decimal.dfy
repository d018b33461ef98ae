/** The bank's money at its edges: decimal text and integer cents. */
module Decimal {
  import opened Wrappers
  import opened Strings

  const TWO63: int := 0x8000_0000_0000_0000
  /** The first number of hundredths that a NUMERIC(15,2) column does not hold. */
  const COLUMN_LIMIT: int := 1_000_000_000_000_000

  predicate Int64(x: int) { -TWO63 <= x < TWO63 }

  function Wrap64(x: int): (r: int)
    ensures Int64(r)
    ensures Int64(x) ==> r == x
    decreases if x < 0 then -2 * x - 1 else 2 * x + 1
  {
    if x >= TWO63 then Wrap64(x - 2 * TWO63)
    else if x < -TWO63 then Wrap64(x + 2 * TWO63)
    else x
  }

  /** Wrapping around keeps the low-order sixty-four bits. */
  lemma WrapsModulo(x: int)
    ensures exists k: int :: Wrap64(x) == x + k * (2 * TWO63)
    decreases if x < 0 then -2 * x - 1 else 2 * x + 1
  {
    if x >= TWO63 {
      WrapsModulo(x - 2 * TWO63);
      var k :| Wrap64(x - 2 * TWO63) == x - 2 * TWO63 + k * (2 * TWO63);
      assert Wrap64(x) == x + (k - 1) * (2 * TWO63);
    } else if x < -TWO63 {
      WrapsModulo(x + 2 * TWO63);
      var k :| Wrap64(x + 2 * TWO63) == x + 2 * TWO63 + k * (2 * TWO63);
      assert Wrap64(x) == x + (k + 1) * (2 * TWO63);
    } else {
      assert Wrap64(x) == x + 0 * (2 * TWO63);
    }
  }

  // ---- Digits ----

  predicate IsDigit(c: char) { '0' <= c <= '9' }

  predicate AllDigits(s: string) {
    forall i {:trigger IsDigit(s[i])} :: 0 <= i < |s| ==> IsDigit(s[i])
  }

  function DigitValue(c: char): (d: nat)
    requires IsDigit(c)
    ensures d < 10
  {
    c as int - '0' as int
  }

  function DigitChar(d: nat): (c: char)
    requires d < 10
    ensures IsDigit(c) && DigitValue(c) == d
  {
    ('0' as int + d) as char
  }

  function Value(s: string): nat
    requires AllDigits(s)
  {
    if s == "" then 0 else Value(s[..|s| - 1]) * 10 + DigitValue(s[|s| - 1])
  }

  function Digits(n: nat): (s: string)
    ensures AllDigits(s) && s != ""
    ensures |s| > 1 ==> s[0] != '0'
    ensures n > 0 ==> s[0] != '0'
    ensures Value(s) == n
  {
    if n < 10 then
      var s := [DigitChar(n)];
      assert s[..0] == "" && Value(s[..0]) == 0;
      s
    else
      var front := Digits(n / 10);
      var s := front + [DigitChar(n % 10)];
      assert s[..|s| - 1] == front;
      s
  }

  lemma {:induction false} LeadingDigitCounts(s: string)
    requires AllDigits(s) && s != "" && s[0] != '0'
    ensures Value(s) > 0
  {
    if |s| > 1 {
      LeadingDigitCounts(s[..|s| - 1]);
    }
  }

  /** A digit string without a superfluous zero is the one its value prints as. */
  lemma {:induction false} DigitsOfValue(s: string)
    requires AllDigits(s) && s != "" && (|s| > 1 ==> s[0] != '0')
    ensures Digits(Value(s)) == s
  {
    var n := |s| - 1;
    assert DigitChar(DigitValue(s[n])) == s[n];
    if n == 0 {
      assert Value(s[..n]) == 0;
      assert s == [DigitChar(DigitValue(s[0]))];
    } else {
      var front := s[..n];
      LeadingDigitCounts(front);
      DigitsOfValue(front);
      assert s == front + [s[n]];
      assert Value(s) == Value(front) * 10 + DigitValue(s[n]);
      OneDigitMore(Value(front), DigitValue(s[n]));
      hide Digits, Value;
    }
  }

  lemma OneDigitMore(n: nat, d: nat)
    requires n > 0 && d < 10
    ensures Digits(n * 10 + d) == Digits(n) + [DigitChar(d)]
  {
    assert (n * 10 + d) / 10 == n && (n * 10 + d) % 10 == d;
  }

  lemma TwoDigits(s: string)
    requires |s| == 2 && AllDigits(s)
    ensures Value(s) == 10 * DigitValue(s[0]) + DigitValue(s[1])
  {
    assert s[..1][..0] == "";
    assert Value(s[..1]) == DigitValue(s[0]);
  }

  // ---- Reading an amount ----

  /** White space as Go's strings.TrimSpace sees it. */
  predicate GoSpace(c: char) {
    || '\t' <= c <= '\r' || c == ' ' || c as int == 0x85 || c as int == 0xA0
    || c as int == 0x1680 || 0x2000 <= c as int <= 0x200A || c as int == 0x2028
    || c as int == 0x2029 || c as int == 0x202F || c as int == 0x205F || c as int == 0x3000
  }

  /** A base-ten integer of 64 bits with an optional sign. */
  function ParseInt(s: string): (r: Option<int>)
    ensures r.Some? ==> Int64(r.value)
  {
    var signed := s != "" && (s[0] == '-' || s[0] == '+');
    var body := if signed then s[1..] else s;
    if body == "" || !AllDigits(body) then None
    else
      var v: int := if s[0] == '-' then 0 - Value(body) else Value(body);
      if Int64(v) then Some(v) else None
  }

  /** The cents in the first two fraction digits, read as an integer of their own. */
  function FractionCents(frac: string): Option<int> {
    ParseInt(if |frac| == 1 then frac + "0" else if |frac| > 2 then frac[..2] else frac)
  }

  function ParseAmount(s: string): (r: Option<int>)
    ensures r.Some? ==> Int64(r.value)
  {
    var (front, back) := SplitFirst(s, '.');
    var whole := ParseInt(front);
    if s == "" || whole.None? then None
    else if back.None? then Some(Wrap64(whole.value * 100))
    else
      var f := FractionCents(back.value);
      if f.None? then None else Some(Wrap64(Wrap64(whole.value * 100) + f.value))
  }

  /** The cents an amount string stands for, or None when it is refused. */
  function AmountCents(raw: string): (r: Option<int>)
    ensures r.Some? ==> Int64(r.value)
  {
    ParseAmount(Trim(raw, GoSpace))
  }

  method DollarsToCents(raw: string) returns (r: Option<int>)
    ensures r == AmountCents(raw)
  {
    var s := Trim(raw, GoSpace);
    if s == "" {
      return None;
    }
    var (front, back) := SplitFirst(s, '.');
    var whole := ParseInt(front);
    if whole.None? {
      return None;
    }
    var cents := Wrap64(whole.value * 100);
    if back.Some? {
      var frac := back.value;
      if |frac| == 1 {
        frac := frac + "0";
      } else if |frac| > 2 {
        frac := frac[..2];
      }
      var f := ParseInt(frac);
      if f.None? {
        return None;
      }
      cents := Wrap64(cents + f.value);
    }
    return Some(cents);
  }

  // ---- Writing cents ----

  /** Two digits, zero padded. */
  function Pair(f: nat): string
    requires f < 100
  {
    [DigitChar(f / 10), DigitChar(f % 10)]
  }

  function NatDollars(cents: nat): string {
    Digits(cents / 100) + "." + Pair(cents % 100)
  }

  /** The smallest 64-bit integer has no positive counterpart: its absolute value
      is negative again, and both parts print a sign of their own. */
  function CentsToDollars(cents: int): string
    requires Int64(cents)
  {
    if cents >= 0 then NatDollars(cents)
    else if cents == -TWO63 then "--" + Digits(TWO63 / 100) + ".-" + Digits(TWO63 % 100)
    else "-" + NatDollars(-cents)
  }

  // ---- What a plain decimal means ----

  /** `whole.frac`, or `whole` alone when there is no fraction. */
  function Spell(whole: string, frac: string): string {
    if frac == "" then whole else whole + "." + frac
  }

  predicate Plain(whole: string, frac: string) {
    whole != "" && AllDigits(whole) && AllDigits(frac)
  }

  /** The first two fraction digits, zeros standing in for missing ones. */
  function Hundredths(frac: string): (h: nat)
    requires AllDigits(frac)
    ensures h < 100
  {
    (if |frac| > 0 then 10 * DigitValue(frac[0]) else 0) + (if |frac| > 1 then DigitValue(frac[1]) else 0)
  }

  lemma NoPoint(s: string)
    requires AllDigits(s)
    ensures forall i :: 0 <= i < |s| ==> s[i] != '.'
  {
    forall i | 0 <= i < |s| ensures s[i] != '.' {
      assert IsDigit(s[i]);
    }
  }

  lemma SpellParts(whole: string, frac: string)
    requires Plain(whole, frac)
    ensures var s := Spell(whole, frac);
            && s != "" && IsDigit(s[0]) && IsDigit(s[|s| - 1])
            && SplitFirst(s, '.') == (whole, if frac == "" then None else Some(frac))
  {
    NoPoint(whole);
    SplitJoined(whole, '.', frac);
    assert IsDigit(whole[0]) && IsDigit(whole[|whole| - 1]);
    if frac != "" {
      assert IsDigit(frac[|frac| - 1]);
    }
  }

  lemma ParseDigits(s: string)
    requires s != "" && AllDigits(s)
    ensures ParseInt(s) == if Int64(Value(s)) then Some(Value(s)) else None
    ensures ParseInt("-" + s) == if Int64(0 - Value(s)) then Some(0 - Value(s)) else None
  {
    assert IsDigit(s[0]);
    assert ("-" + s)[1..] == s;
  }

  lemma PlainFraction(frac: string)
    requires AllDigits(frac) && frac != ""
    ensures FractionCents(frac) == Some(Hundredths(frac))
  {
    var two := if |frac| == 1 then frac + "0" else if |frac| > 2 then frac[..2] else frac;
    TwoDigits(two);
    ParseDigits(two);
  }

  lemma TrimmedAmount(s: string)
    requires Trimmed(s, GoSpace)
    ensures AmountCents(s) == ParseAmount(s)
  {
    TrimFixpoint(s, GoSpace);
  }

  /** Reading drops every fraction digit after the second, and wraps around where the
      cents leave 64 bits. */
  lemma PlainAmount(whole: string, frac: string)
    requires Plain(whole, frac)
    ensures AmountCents(Spell(whole, frac)) ==
            if Int64(Value(whole)) then Some(Wrap64(Wrap64(Value(whole) * 100) + Hundredths(frac))) else None
    ensures Value(whole) * 100 + Hundredths(frac) < TWO63 ==>
              AmountCents(Spell(whole, frac)) == Some(Value(whole) * 100 + Hundredths(frac))
  {
    hide AmountCents, Wrap64, ParseAmount;
    var s := Spell(whole, frac);
    SpellParts(whole, frac);
    TrimmedAmount(s);
    ParseDigits(whole);
    ParsedPlain(whole, frac);
    hide Value, SplitFirst, AllDigits, Spell, Hundredths;
  }

  lemma ParsedPlain(whole: string, frac: string)
    requires Plain(whole, frac)
    requires SplitFirst(Spell(whole, frac), '.') == (whole, if frac == "" then None else Some(frac))
    ensures ParseAmount(Spell(whole, frac)) ==
            if Int64(Value(whole)) then Some(Wrap64(Wrap64(Value(whole) * 100) + Hundredths(frac))) else None
  {
    hide Wrap64, SplitFirst, ParseInt, FractionCents, Value;
    ParseDigits(whole);
    if frac != "" {
      PlainFraction(frac);
    }
  }

  // ---- Round trips ----

  /** What reading gives back for text the bank wrote: negative amounts come back
      with the sign of the whole part only. */
  function ReadBack(cents: int): int {
    if cents >= 0 then cents else -((-cents) / 100 * 100) + (-cents) % 100
  }

  lemma PairIsFraction(f: nat)
    requires f < 100
    ensures AllDigits(Pair(f)) && Hundredths(Pair(f)) == f
  {
  }

  /** Text for cents that are not negative is a plain decimal with two places. */
  lemma NatDollarsPlain(cents: nat) returns (whole: string, frac: string)
    ensures Plain(whole, frac) && |frac| == 2 && NatDollars(cents) == Spell(whole, frac)
    ensures Value(whole) == cents / 100 && Hundredths(frac) == cents % 100
  {
    whole, frac := Digits(cents / 100), Pair(cents % 100);
    PairIsFraction(cents % 100);
  }

  /** A minus sign reaches the whole part of an amount and not its fraction. */
  lemma SignedAmount(whole: string, frac: string)
    requires Plain(whole, frac) && frac != "" && Value(whole) * 100 <= TWO63
    ensures AmountCents("-" + Spell(whole, frac)) == Some(Hundredths(frac) - Value(whole) * 100)
  {
    hide AmountCents, FractionCents, AllDigits, SplitFirst;
    var s := "-" + Spell(whole, frac);
    SpellParts(whole, frac);
    TrimmedAmount(s);
    NoPoint(whole);
    SplitJoined("-" + whole, '.', frac);
    assert s == ("-" + whole) + "." + frac;
    ParseDigits(whole);
    PlainFraction(frac);
    hide ParseInt, Spell, Value, Hundredths;
  }

  lemma NatReadsBack(cents: nat)
    requires cents < TWO63
    ensures AmountCents(NatDollars(cents)) == Some(cents)
    ensures AmountCents("-" + NatDollars(cents)) == Some(ReadBack(0 - cents))
  {
    hide AmountCents, NatDollars;
    var whole, frac := NatDollarsPlain(cents);
    PlainAmount(whole, frac);
    SignedAmount(whole, frac);
  }

  lemma ReadsBack(cents: int)
    requires -TWO63 < cents < TWO63
    ensures AmountCents(CentsToDollars(cents)) == Some(ReadBack(cents))
  {
    hide AmountCents, NatDollars;
    NatReadsBack(if cents < 0 then -cents else cents);
  }

  /** Cents survive being written and read exactly when they are not negative or
      are whole dollars. */
  lemma CentsRoundTrip(cents: int)
    requires Int64(cents)
    ensures AmountCents(CentsToDollars(cents)) == Some(cents) <==> cents >= 0 || cents % 100 == 0
  {
    hide AmountCents, CentsToDollars;
    if cents == -TWO63 {
      SmallestIsRefused();
    } else {
      ReadsBack(cents);
    }
  }

  lemma SmallestIsRefused()
    ensures AmountCents(CentsToDollars(-TWO63)) == None
  {
    var digits, rest := Digits(TWO63 / 100), "-" + Digits(TWO63 % 100);
    var s := CentsToDollars(-TWO63);
    assert s == ("--" + digits) + "." + rest;
    assert IsDigit(rest[|rest| - 1]) && IsDigit(s[|s| - 1]);
    TrimFixpoint(s, GoSpace);
    NoPoint(digits);
    SplitJoined("--" + digits, '.', rest);
    assert ("--" + digits)[1..] == "-" + digits;
    assert !IsDigit(("-" + digits)[0]);
  }

  /** The one spelling the bank writes for an amount that is not negative. */
  predicate Normal(s: string) {
    && |s| >= 4 && s[|s| - 3] == '.'
    && AllDigits(s[..|s| - 3]) && AllDigits(s[|s| - 2..])
    && (|s| > 4 ==> s[0] != '0')
  }

  lemma WritesNormal(cents: int)
    requires 0 <= cents < TWO63
    ensures Normal(CentsToDollars(cents))
  {
    var s := CentsToDollars(cents);
    PairIsFraction(cents % 100);
    assert s[..|s| - 3] == Digits(cents / 100);
    assert s[|s| - 2..] == Pair(cents % 100);
  }

  /** Text in normal form is what the cents it stands for are written as, exactly when
      they fit in 64 bits. */
  lemma NormalRoundTrip(s: string)
    requires Normal(s)
    ensures AmountCents(s).Some? && CentsToDollars(AmountCents(s).value) == s
            <==> Value(s[..|s| - 3]) * 100 + Hundredths(s[|s| - 2..]) < TWO63
  {
    hide AmountCents, NatDollars;
    var whole, frac := s[..|s| - 3], s[|s| - 2..];
    assert s == Spell(whole, frac);
    PlainAmount(whole, frac);
    if Value(whole) * 100 + Hundredths(frac) < TWO63 {
      NormalParts(whole, frac);
    } else if AmountCents(s).Some? && CentsToDollars(AmountCents(s).value) == s {
      TextOfCents(AmountCents(s).value, whole, frac);
    }
  }

  /** A text that starts with a digit and was written for some cents stands for them. */
  lemma TextOfCents(cents: int, whole: string, frac: string)
    requires Int64(cents) && Plain(whole, frac) && |frac| == 2 && CentsToDollars(cents) == Spell(whole, frac)
    ensures Value(whole) * 100 + Hundredths(frac) == cents
  {
    var s := Spell(whole, frac);
    SpellParts(whole, frac);
    assert s[0] != '-';
    assert cents >= 0;
    var digits, pair := Digits(cents / 100), Pair(cents % 100);
    PairIsFraction(cents % 100);
    assert s[..|s| - 3] == whole && s[|s| - 2..] == frac;
    assert s[..|s| - 3] == digits && s[|s| - 2..] == pair;
    hide Value, Hundredths, Digits, Pair;
  }

  lemma NormalParts(whole: string, frac: string)
    requires Plain(whole, frac) && |frac| == 2 && (|whole| > 1 ==> whole[0] != '0')
    ensures NatDollars(Value(whole) * 100 + Hundredths(frac)) == Spell(whole, frac)
  {
    hide Digits, Value, Hundredths, Pair, AllDigits;
    var v, h := Value(whole), Hundredths(frac);
    assert (v * 100 + h) / 100 == v && (v * 100 + h) % 100 == h;
    DigitsOfValue(whole);
    PairOfHundredths(frac);
  }

  lemma PairOfHundredths(frac: string)
    requires |frac| == 2 && AllDigits(frac)
    ensures Pair(Hundredths(frac)) == frac
  {
    assert IsDigit(frac[0]) && IsDigit(frac[1]);
    assert DigitChar(DigitValue(frac[0])) == frac[0] && DigitChar(DigitValue(frac[1])) == frac[1];
    assert Hundredths(frac) / 10 == DigitValue(frac[0]) && Hundredths(frac) % 10 == DigitValue(frac[1]);
    hide Hundredths, DigitValue, DigitChar;
  }
}
