/** The NUMERIC(15,2) columns of the bank's PostgreSQL 16: what they make of the texts the
    handlers hand on, held as a number of hundredths, and how that compares with the cents
    the handlers charge for the same text. */
module Numeric {
  import opened Wrappers
  import opened Decimal
  import opened Sequences
  import opened Strings

  predicate AsciiSpace(c: char) { '\t' <= c <= '\r' || c == ' ' }

  // ---- Literals ----

  /** Digits with single underscores between them. */
  predicate Grouped(s: string) {
    && s != "" && IsDigit(s[0])
    && forall i {:trigger s[i]} :: 0 <= i < |s| ==>
         IsDigit(s[i]) || (s[i] == '_' && i + 1 < |s| && IsDigit(s[i + 1]))
  }

  function Ungrouped(s: string): string {
    if s == "" then ""
    else Ungrouped(s[..|s| - 1]) + if s[|s| - 1] == '_' then "" else [s[|s| - 1]]
  }

  predicate IsMark(c: char) { c == 'e' || c == 'E' }

  /** The text before the exponent mark, and the text after it when there is one. */
  function SplitAtMark(s: string): (string, Option<string>) {
    if s == "" then ("", None)
    else if IsMark(s[0]) then ("", Some(s[1..]))
    else
      var (front, back) := SplitAtMark(s[1..]);
      ([s[0]] + front, back)
  }

  /** Half of the largest 32-bit integer. */
  const EXPONENT_LIMIT := 0x3FFF_FFFF

  predicate Signed(s: string) {
    s != "" && (s[0] == '-' || s[0] == '+')
  }

  function Body(s: string): string {
    if Signed(s) then s[1..] else s
  }

  function Exponent(text: Option<string>): Option<int> {
    if text.None? then Some(0)
    else if !Grouped(Body(text.value)) then None
    else
      GroupedDigits(Body(text.value));
      var e: int := Value(Ungrouped(Body(text.value)));
      if e > EXPONENT_LIMIT then None else Some(if text.value[0] == '-' then -e else e)
  }

  /** whole.frac * 10^exponent, with the digits ungrouped. */
  datatype Literal = Literal(whole: string, frac: string, exponent: int)

  function ParseLiteral(s: string): (r: Option<Literal>)
    ensures r.Some? ==> AllDigits(r.value.whole) && AllDigits(r.value.frac)
  {
    var (mantissa, mark) := SplitAtMark(s);
    var (whole, back) := SplitFirst(mantissa, '.');
    var frac := if back.Some? then back.value else "";
    var e := Exponent(mark);
    if (whole == "" && frac == "") || !(whole == "" || Grouped(whole)) || !(frac == "" || Grouped(frac)) || e.None? then
      None
    else
      GroupedDigits(whole);
      GroupedDigits(frac);
      Some(Literal(Ungrouped(whole), Ungrouped(frac), e.value))
  }

  lemma {:induction false} GroupedDigits(s: string)
    requires s == "" || forall i :: 0 <= i < |s| ==> IsDigit(s[i]) || s[i] == '_'
    ensures AllDigits(Ungrouped(s))
  {
    if s != "" {
      GroupedDigits(s[..|s| - 1]);
    }
  }

  // ---- Values ----

  function Pow10(n: nat): (p: nat)
    ensures p > 0
  {
    if n == 0 then 1 else 10 * Pow10(n - 1)
  }

  /** d * 10^shift, rounded half up. */
  function Rounded(d: nat, shift: int): nat {
    if shift >= 0 then d * Pow10(shift) else (d + Pow10(-shift) / 2) / Pow10(-shift)
  }

  /** The most fraction digits a numeric value can have before it is rounded. */
  const SCALE_LIMIT := 16383

  /** The hundredths a literal comes to in a column, or None where it does not fit. */
  function Stored(lit: Literal): (r: Option<nat>)
    requires AllDigits(lit.whole) && AllDigits(lit.frac)
    ensures r.Some? ==> r.value < COLUMN_LIMIT
  {
    if |lit.frac| - lit.exponent > SCALE_LIMIT then None
    else
      var h := Rounded(Value(lit.whole + lit.frac), lit.exponent - |lit.frac| + 2);
      if h < COLUMN_LIMIT then Some(h) else None
  }

  // ---- Hexadecimal, octal and binary integers ----

  function Base(s: string): nat {
    if |s| < 2 || s[0] != '0' then 10
    else if s[1] == 'x' || s[1] == 'X' then 16
    else if s[1] == 'o' || s[1] == 'O' then 8
    else if s[1] == 'b' || s[1] == 'B' then 2
    else 10
  }

  function RadixDigit(c: char): nat {
    if '0' <= c <= '9' then c as int - '0' as int
    else if 'a' <= c <= 'f' then c as int - 'a' as int + 10
    else if 'A' <= c <= 'F' then c as int - 'A' as int + 10
    else 16
  }

  predicate RadixGrouped(s: string, base: nat) {
    && s != ""
    && forall i {:trigger s[i]} :: 0 <= i < |s| ==>
         RadixDigit(s[i]) < base || (s[i] == '_' && i + 1 < |s| && RadixDigit(s[i + 1]) < base)
  }

  function RadixValue(s: string, base: nat): nat {
    if s == "" then 0
    else if s[|s| - 1] == '_' then RadixValue(s[..|s| - 1], base)
    else RadixValue(s[..|s| - 1], base) * base + RadixDigit(s[|s| - 1])
  }

  // ---- Column input ----

  function UnsignedNumeric(s: string): (r: Option<nat>)
    ensures r.Some? ==> r.value < COLUMN_LIMIT
  {
    if Base(s) != 10 then
      if !RadixGrouped(s[2..], Base(s)) then None
      else
        var h := 100 * RadixValue(s[2..], Base(s));
        if h < COLUMN_LIMIT then Some(h) else None
    else
      var lit := ParseLiteral(s);
      if lit.None? then None else Stored(lit.value)
  }

  /** What a NUMERIC(15,2) column stores for a text: its value rounded half away from
      zero to hundredths, refused when it does not fit. */
  function NumericInput(raw: string): (r: Option<int>)
    ensures r.Some? ==> -COLUMN_LIMIT < r.value < COLUMN_LIMIT
  {
    var s := Trim(raw, AsciiSpace);
    var h := UnsignedNumeric(Body(s));
    if h.None? then None else Some(if s != "" && s[0] == '-' then 0 - h.value else h.value)
  }

  // ---- Parts of a text ----

  lemma {:induction false} UngroupedConcat(a: string, b: string)
    ensures Ungrouped(a + b) == Ungrouped(a) + Ungrouped(b)
  {
    if b == "" {
      assert a + b == a;
    } else {
      UngroupedConcat(a, b[..|b| - 1]);
      assert (a + b)[..|a + b| - 1] == a + b[..|b| - 1];
    }
  }

  lemma {:induction false} DigitsUngrouped(s: string)
    requires AllDigits(s)
    ensures Ungrouped(s) == s && (s != "" ==> Grouped(s))
  {
    if s != "" {
      assert forall i :: 0 <= i < |s| ==> IsDigit(s[i]);
      assert s == s[..|s| - 1] + [s[|s| - 1]];
      DigitsUngrouped(s[..|s| - 1]);
    }
  }

  lemma {:induction false} MarkAfter(a: string, b: string)
    requires forall i :: 0 <= i < |a| ==> !IsMark(a[i])
    ensures SplitAtMark(a + b) == (a + SplitAtMark(b).0, SplitAtMark(b).1)
  {
    if a == "" {
      assert a + b == b && a + SplitAtMark(b).0 == SplitAtMark(b).0;
    } else {
      MarkAfter(a[1..], b);
      assert (a + b)[1..] == a[1..] + b && (a + b)[0] == a[0];
      assert a == [a[0]] + a[1..];
      Associative([a[0]], a[1..], SplitAtMark(b).0);
    }
  }

  lemma {:induction false} MarkRejoins(s: string)
    ensures var (front, back) := SplitAtMark(s);
            && |front| <= |s| && s[..|front|] == front
            && (back.None? ==> s == front)
            && (back.Some? ==> |front| < |s| && IsMark(s[|front|]) && s[|front| + 1..] == back.value)
  {
    if s != "" && !IsMark(s[0]) {
      MarkRejoins(s[1..]);
      assert s == [s[0]] + s[1..];
    }
  }

  lemma DigitsHaveNoMark(s: string)
    requires AllDigits(s)
    ensures forall i :: 0 <= i < |s| ==> !IsMark(s[i])
  {
    forall i | 0 <= i < |s| ensures !IsMark(s[i]) {
      assert IsDigit(s[i]);
    }
  }

  lemma SpelledWithoutMark(whole: string, frac: string)
    requires Plain(whole, frac)
    ensures var s := Spell(whole, frac); forall i :: 0 <= i < |s| ==> !IsMark(s[i])
  {
    DigitsHaveNoMark(whole);
    DigitsHaveNoMark(frac);
  }

  lemma DecimalBase(s: string, whole: string, back: Option<string>)
    requires whole != "" && AllDigits(whole) && s == whole + if back.Some? then "." + back.value else ""
    ensures Base(s) == 10
  {
    if |whole| > 1 {
      assert IsDigit(whole[1]);
    }
  }

  /** A plain decimal is the literal it spells. */
  lemma PlainLiteral(whole: string, frac: string)
    requires Plain(whole, frac)
    ensures ParseLiteral(Spell(whole, frac)) == Some(Literal(whole, frac, 0)) && Base(Spell(whole, frac)) == 10
  {
    hide SplitAtMark, Grouped, Ungrouped, Base;
    var s := Spell(whole, frac);
    PlainMark(whole, frac);
    SpellParts(whole, frac);
    DigitsUngrouped(whole);
    DigitsUngrouped(frac);
    NothingAdded(whole);
    Associative(whole, ".", frac);
    DecimalBase(s, whole, if frac == "" then None else Some(frac));
    hide Spell, AllDigits, SplitFirst;
  }

  lemma PlainMark(whole: string, frac: string)
    requires Plain(whole, frac)
    ensures SplitAtMark(Spell(whole, frac)) == (Spell(whole, frac), None)
  {
    SpelledWithoutMark(whole, frac);
    MarkAfter(Spell(whole, frac), "");
    NothingAdded(Spell(whole, frac));
  }

  // ---- Rounding ----

  lemma {:induction false} Powers(a: nat, b: nat)
    ensures Pow10(a + b) == Pow10(a) * Pow10(b)
  {
    if a > 0 {
      Powers(a - 1, b);
    }
  }

  lemma DigitsConcat(a: string, b: string)
    ensures AllDigits(a + b) <==> AllDigits(a) && AllDigits(b)
  {
    if AllDigits(a + b) {
      forall i | 0 <= i < |a| ensures IsDigit(a[i]) {
        assert IsDigit((a + b)[i]);
      }
      forall i | 0 <= i < |b| ensures IsDigit(b[i]) {
        assert IsDigit((a + b)[|a| + i]);
      }
    } else if AllDigits(a) && AllDigits(b) {
      forall i | 0 <= i < |a + b| ensures IsDigit((a + b)[i]) {
        assert if i < |a| then IsDigit(a[i]) else IsDigit(b[i - |a|]);
      }
    }
  }

  lemma OneDigitOn(a: nat, p: nat, b: nat, d: nat)
    ensures (a * p + b) * 10 + d == a * (10 * p) + (b * 10 + d)
  {
  }

  lemma {:induction false} ValueConcat(a: string, b: string)
    requires AllDigits(a) && AllDigits(b)
    ensures AllDigits(a + b) && Value(a + b) == Value(a) * Pow10(|b|) + Value(b) && Value(b) < Pow10(|b|)
  {
    DigitsConcat(a, b);
    if b == "" {
      assert a + b == a;
    } else {
      var front, c := b[..|b| - 1], b[|b| - 1];
      ValueConcat(a, front);
      assert (a + b)[..|a + b| - 1] == a + front && (a + b)[|a + b| - 1] == c;
      assert Value(a + b) == Value(a + front) * 10 + DigitValue(c) && Value(b) == Value(front) * 10 + DigitValue(c);
      assert Pow10(|b|) == 10 * Pow10(|front|);
      OneDigitOn(Value(a), Pow10(|front|), Value(front), DigitValue(c));
      hide Value, Pow10, AllDigits, DigitValue;
    }
  }

  /** The whole hundredths of a literal before its exponent. */
  function Truncated(lit: Literal): nat
    requires AllDigits(lit.whole) && AllDigits(lit.frac)
  {
    Value(lit.whole) * 100 + Hundredths(lit.frac)
  }

  predicate Carries(frac: string) {
    |frac| > 2 && frac[2] >= '5'
  }

  /** The digits are the hundredths and a rest, which carries when it is half of one or
      more. */
  lemma HundredthsAndRest(lit: Literal)
    requires AllDigits(lit.whole) && AllDigits(lit.frac) && |lit.frac| >= 2
    ensures AllDigits(lit.whole + lit.frac)
    ensures var p, rest := Pow10(|lit.frac| - 2), Value(lit.frac[2..]);
            && Value(lit.whole + lit.frac) == Truncated(lit) * p + rest && rest < p
            && (Carries(lit.frac) <==> 2 * rest >= p)
  {
    var two, tail := lit.frac[..2], lit.frac[2..];
    assert lit.frac == two + tail;
    DigitsConcat(two, tail);
    assert lit.whole + lit.frac == lit.whole + two + tail;
    ValueConcat(lit.whole, two);
    TwoDigits(two);
    ValueConcat(lit.whole + two, tail);
    assert Pow10(2) == 100;
    HalfByFirstDigit(tail);
    hide Value, Pow10, AllDigits;
  }

  lemma HalfByFirstDigit(tail: string)
    requires AllDigits(tail)
    ensures 2 * Value(tail) >= Pow10(|tail|) <==> tail != "" && tail[0] >= '5'
  {
    if tail != "" {
      var first, rest := [tail[0]], tail[1..];
      assert IsDigit(tail[0]);
      assert tail == first + rest;
      DigitsConcat(first, rest);
      ValueConcat(first, rest);
      assert first[..0] == "" && Value(first) == DigitValue(tail[0]);
      hide Value, AllDigits;
      Halves(Pow10(|rest|), DigitValue(tail[0]), Value(rest));
    }
  }

  lemma Halves(p: nat, d: nat, r: nat)
    requires r < p && d < 10
    ensures 2 * (d * p + r) >= 10 * p <==> d >= 5
  {
    if d >= 5 {
      assert d * p >= 5 * p;
    } else {
      assert d * p <= 4 * p;
    }
  }

  lemma TimesAtLeast(a: nat, b: nat, p: nat)
    requires a >= b
    ensures a * p >= b * p && p * a >= p * b
  {
    assert a * p == b * p + (a - b) * p;
  }

  lemma LessByProduct(a: nat, b: nat, p: nat)
    requires a * p < b * p
    ensures a < b
  {
    if a >= b {
      TimesAtLeast(a, b, p);
    }
  }

  lemma QuotientIs(x: nat, p: nat, q: nat)
    requires p > 0 && q * p <= x < q * p + p
    ensures x / p == q
  {
    var k := x / p;
    assert k * p <= x < k * p + p;
    assert (q + 1) * p == q * p + p && (k + 1) * p == k * p + p;
    LessByProduct(k, q + 1, p);
    LessByProduct(q, k + 1, p);
  }

  lemma AtLeast(x: nat, p: nat, q: nat)
    requires p > 0 && x >= q * p
    ensures x / p >= q
  {
    var k := x / p;
    assert x < k * p + p;
    assert (k + 1) * p == k * p + p;
    LessByProduct(q, k + 1, p);
  }

  lemma LessThan(x: nat, p: nat, q: nat)
    requires p > 0 && x < q * p
    ensures x / p < q
  {
    var k := x / p;
    assert k * p <= x;
    LessByProduct(k, q, p);
  }

  /** Without an exponent the digits after the hundredths round up or not. */
  lemma RoundedInPlace(t: nat, rest: nat, n: nat)
    requires rest < Pow10(n)
    ensures Rounded(t * Pow10(n) + rest, 0 - n) == t + if 2 * rest >= Pow10(n) then 1 else 0
  {
    if n > 0 {
      var p := Pow10(n);
      assert p == 10 * Pow10(n - 1);
      hide Pow10;
      var up := if 2 * rest >= p then 1 else 0;
      HalfOrMore(p, Pow10(n - 1), rest);
      assert (t + up) * p == t * p + if up == 1 then p else 0;
      QuotientIs(t * p + rest + p / 2, p, t + up);
    }
  }

  lemma HalfOrMore(p: nat, tenth: nat, rest: nat)
    requires p == 10 * tenth && rest < p
    ensures if 2 * rest >= p then p <= rest + p / 2 < p + p else rest + p / 2 < p
  {
  }

  lemma TenTimes(e: nat)
    requires e > 0
    ensures Pow10(e) >= 10
  {
    assert Pow10(e) == 10 * Pow10(e - 1);
  }

  /** A positive exponent gives at least ten times as much. */
  lemma RoundedUp(t: nat, d: nat, n: nat, e: nat)
    requires e > 0 && d >= t * Pow10(n)
    ensures Rounded(d, e - n) >= 10 * t
  {
    TenTimes(e);
    TimesAtLeast(Pow10(e), 10, t);
    if e >= n {
      Powers(n, e - n);
      ScaledUp(t, d, n, e);
    } else {
      Powers(e, n - e);
      ScaledDown(t, d, n, e);
    }
  }

  lemma ScaledUp(t: nat, d: nat, n: nat, e: nat)
    requires n <= e && d >= t * Pow10(n) && Pow10(e) == Pow10(n) * Pow10(e - n)
    ensures d * Pow10(e - n) >= t * Pow10(e)
  {
    hide Pow10;
    TimesAtLeast(d, t * Pow10(n), Pow10(e - n));
    Reassociate(t, Pow10(n), Pow10(e - n));
  }

  lemma ScaledDown(t: nat, d: nat, n: nat, e: nat)
    requires e < n && d >= t * Pow10(n) && Pow10(n) == Pow10(e) * Pow10(n - e)
    ensures (d + Pow10(n - e) / 2) / Pow10(n - e) >= t * Pow10(e)
  {
    hide Pow10;
    Reassociate(t, Pow10(e), Pow10(n - e));
    AtLeast(d + Pow10(n - e) / 2, Pow10(n - e), t * Pow10(e));
  }

  lemma Reassociate(a: nat, b: nat, c: nat)
    ensures a * b * c == a * (b * c)
  {
  }

  /** A negative exponent gives less. */
  lemma RoundedDown(t: nat, d: nat, n: nat, e: nat)
    requires e > 0 && t > 0 && d < t * Pow10(n) + Pow10(n)
    ensures Rounded(d, 0 - n - e) < t
  {
    TenTimes(e);
    Powers(n, e);
    var p, q := Pow10(n), Pow10(n + e);
    TimesAtLeast(Pow10(e), 10, p);
    hide Pow10;
    TimesAtLeast(q, 10 * p, t);
    TimesAtLeast(t, 1, p);
    TimesAtLeast(t, 1, q);
    Reassociate(t, 10, p);
    Reassociate(10, t, p);
    LessThan(d + q / 2, q, t);
  }

  /** A literal comes to its whole hundredths, if there are any, exactly when it has no
      exponent and the third fraction digit is below five. */
  lemma TruncatedExactly(lit: Literal)
    requires AllDigits(lit.whole) && AllDigits(lit.frac)
    requires |lit.frac| >= 2 || lit.exponent == 0
    ensures AllDigits(lit.whole + lit.frac)
    ensures var h := Rounded(Value(lit.whole + lit.frac), lit.exponent - |lit.frac| + 2);
            && (Truncated(lit) > 0 ==> (h == Truncated(lit) <==> lit.exponent == 0 && !Carries(lit.frac)))
            && (lit.exponent == 0 ==> h == Truncated(lit) + if Carries(lit.frac) then 1 else 0)
            && (lit.exponent > 0 ==> h >= 10 * Truncated(lit))
  {
    if |lit.frac| >= 2 {
      HundredthsAndRest(lit);
      var n, t, rest := |lit.frac| - 2, Truncated(lit), Value(lit.frac[2..]);
      hide Value, Pow10, AllDigits, Rounded, Truncated;
      var d := t * Pow10(n) + rest;
      if lit.exponent == 0 {
        RoundedInPlace(t, rest, n);
      } else if lit.exponent > 0 {
        RoundedUp(t, d, n, lit.exponent);
      } else if t > 0 {
        RoundedDown(t, d, n, -lit.exponent);
      }
    } else {
      ShortFraction(lit);
    }
  }

  lemma ShortFraction(lit: Literal)
    requires AllDigits(lit.whole) && AllDigits(lit.frac) && |lit.frac| < 2
    ensures AllDigits(lit.whole + lit.frac)
    ensures Rounded(Value(lit.whole + lit.frac), 2 - |lit.frac|) == Truncated(lit)
  {
    ValueConcat(lit.whole, lit.frac);
    assert Pow10(2) == 100 && Pow10(1) == 10;
    if lit.frac != "" {
      assert lit.frac[..0] == "" && Value(lit.frac) == DigitValue(lit.frac[0]);
    }
  }

  // ---- Plain decimals in a column ----

  lemma PlainNumeric(whole: string, frac: string)
    requires Plain(whole, frac)
    ensures var s, h := Spell(whole, frac), Truncated(Literal(whole, frac, 0)) + if Carries(frac) then 1 else 0;
            && UnsignedNumeric(s) == (if h < COLUMN_LIMIT && |frac| <= SCALE_LIMIT then Some(h) else None)
            && NumericInput(s) == UnsignedNumeric(s) && Trimmed(s, AsciiSpace)
  {
    hide UnsignedNumeric, Stored, Truncated, Carries, Value, NumericInput;
    PlainLiteral(whole, frac);
    StoredAsIs(whole, frac);
    LiteralInput(Spell(whole, frac), Literal(whole, frac, 0));
    UnsignedInput(whole, frac);
  }

  lemma StoredAsIs(whole: string, frac: string)
    requires AllDigits(whole) && AllDigits(frac)
    ensures var lit := Literal(whole, frac, 0);
            var h := Truncated(lit) + if Carries(frac) then 1 else 0;
            Stored(lit) == if h < COLUMN_LIMIT && |frac| <= SCALE_LIMIT then Some(h) else None
  {
    hide Value, Rounded, Truncated, Carries, AllDigits;
    TruncatedExactly(Literal(whole, frac, 0));
  }

  lemma LiteralInput(s: string, lit: Literal)
    requires Base(s) == 10 && ParseLiteral(s) == Some(lit)
    ensures UnsignedNumeric(s) == Stored(lit)
  {
    hide ParseLiteral, Stored;
  }

  lemma UnsignedInput(whole: string, frac: string)
    requires Plain(whole, frac)
    ensures var s := Spell(whole, frac); NumericInput(s) == UnsignedNumeric(s) && Trimmed(s, AsciiSpace)
  {
    hide UnsignedNumeric, Trim;
    SpellParts(whole, frac);
    TrimFixpoint(Spell(whole, frac), AsciiSpace);
    hide SplitFirst, Spell, AllDigits;
  }

  lemma SignedNumeric(whole: string, frac: string)
    requires Plain(whole, frac) && UnsignedNumeric(Spell(whole, frac)).Some?
    ensures NumericInput("-" + Spell(whole, frac)) == Some(0 - UnsignedNumeric(Spell(whole, frac)).value)
  {
    hide UnsignedNumeric;
    var s := "-" + Spell(whole, frac);
    SpellParts(whole, frac);
    TrimFixpoint(s, AsciiSpace);
    assert s[1..] == Spell(whole, frac);
  }

  /** Every balance text the bank writes is stored as the cents it was made from. */
  lemma StoresWritten(cents: int)
    requires -COLUMN_LIMIT < cents < COLUMN_LIMIT
    ensures NumericInput(CentsToDollars(cents)) == Some(cents)
  {
    hide NumericInput, UnsignedNumeric, NatDollars;
    var whole, frac := NatDollarsPlain(if cents < 0 then -cents else cents);
    PlainNumeric(whole, frac);
    if cents < 0 {
      SignedNumeric(whole, frac);
    }
  }

  /** On plain decimals of any size: in the column's range charge and record agree exactly
      when the third fraction digit is below five, and beyond it only where both refuse. */
  lemma PlainMatchesRecord(whole: string, frac: string)
    requires Plain(whole, frac)
    ensures NumericInput(Spell(whole, frac)) == AmountCents(Spell(whole, frac))
            <==> if Value(whole) * 100 < COLUMN_LIMIT && |frac| <= SCALE_LIMIT then !Carries(frac)
                 else !Int64(Value(whole))
  {
    hide AmountCents, NumericInput, UnsignedNumeric, Value;
    PlainNumeric(whole, frac);
    PlainAmount(whole, frac);
  }

  /** A point without digits after it is refused by the handlers, although their comment
      reads such text as whole dollars, and so do the columns. */
  lemma TrailingPoint(whole: string)
    requires whole != "" && AllDigits(whole) && Value(whole) * 100 < COLUMN_LIMIT
    ensures AmountCents(whole + ".") == None
    ensures NumericInput(whole + ".") == Some(Value(whole) * 100)
  {
    hide Value, AllDigits, SplitFirst, Trim, SplitAtMark, Rounded, Grouped, Ungrouped, AmountCents;
    PointParts(whole);
    TrimmedAmount(whole + ".");
    TrimFixpoint(whole + ".", AsciiSpace);
    NoFraction();
    DigitsUngrouped(whole);
    DigitsUngrouped("");
    NoDigits();
    TruncatedExactly(Literal(whole, "", 0));
  }

  lemma NoDigits()
    ensures AllDigits("") && Hundredths("") == 0
  {
  }

  lemma PointParts(whole: string)
    requires whole != "" && AllDigits(whole)
    ensures var s := whole + ".";
            && SplitFirst(s, '.') == (whole, Some("")) && s[0] == whole[0] && IsDigit(s[0])
            && Trimmed(s, GoSpace) && Trimmed(s, AsciiSpace)
            && SplitAtMark(s) == (s, None) && Base(s) == 10
  {
    NoPoint(whole);
    SplitJoined(whole, '.', "");
    assert whole + "." == whole + "." + "";
    assert IsDigit(whole[0]);
    assert |whole| > 1 ==> IsDigit(whole[1]);
    DigitsHaveNoMark(whole);
    MarkAfter(whole + ".", "");
    NothingAdded(whole + ".");
  }

  lemma NoFraction()
    ensures FractionCents("") == None
  {
  }

  // ---- Amount texts that pass both readings ----

  /** An amount text a handler charges and the database then stores. */
  predicate Chargeable(amount: string) {
    AmountCents(amount).Some? && AmountCents(amount).value > 0 && NumericInput(amount).Some?
  }

  /** The decimal literal in a text, without its sign. */
  function Read(amount: string): (r: Option<Literal>)
    ensures r.Some? ==> AllDigits(r.value.whole) && AllDigits(r.value.frac)
  {
    ParseLiteral(Body(Trim(amount, AsciiSpace)))
  }

  predicate Minus(amount: string) {
    var s := Trim(amount, AsciiSpace);
    s != "" && s[0] == '-'
  }

  // White space

  predicate Inked(s: string) {
    forall i {:trigger s[i]} :: 0 <= i < |s| ==> !GoSpace(s[i])
  }

  lemma NumericInked(s: string)
    requires UnsignedNumeric(s).Some?
    ensures s != "" && Inked(s)
  {
    if Base(s) != 10 {
      RadixInked(s);
    } else {
      LiteralInked(s);
    }
  }

  lemma RadixInked(s: string)
    requires Base(s) != 10 && RadixGrouped(s[2..], Base(s))
    ensures Inked(s)
  {
    forall i | 0 <= i < |s| ensures !GoSpace(s[i]) {
      if i >= 2 {
        assert s[i] == s[2..][i - 2];
      }
    }
  }

  lemma LiteralInked(s: string)
    requires ParseLiteral(s).Some?
    ensures s != "" && Inked(s)
  {
    hide SplitAtMark, SplitFirst, Grouped, Ungrouped;
    var (mantissa, mark) := SplitAtMark(s);
    MarkRejoins(s);
    MantissaInked(mantissa);
    if mark.Some? {
      InkedBody(mark.value);
      MarkInked(s, mantissa, mark.value);
    }
  }

  lemma MarkInked(s: string, front: string, back: string)
    requires |front| < |s| && s[..|front|] == front && IsMark(s[|front|]) && s[|front| + 1..] == back
    requires Inked(front) && Inked(back)
    ensures Inked(s)
  {
    var c := s[|front|];
    assert s == front + [c] + back;
    InkedConcat(front, [c]);
    InkedConcat(front + [c], back);
  }

  lemma MantissaInked(mantissa: string)
    requires var (whole, back) := SplitFirst(mantissa, '.');
             && (whole == "" || Grouped(whole))
             && (back.Some? && back.value != "" ==> Grouped(back.value))
             && !(whole == "" && (back.None? || back.value == ""))
    ensures mantissa != "" && Inked(mantissa)
  {
    var (whole, back) := SplitFirst(mantissa, '.');
    SplitRejoins(mantissa, '.');
    GroupedInked(whole);
    if back.Some? {
      GroupedInked(back.value);
      hide SplitFirst, Grouped;
      assert Inked(".");
      InkedConcat(".", back.value);
      InkedConcat(whole, "." + back.value);
    }
  }

  lemma InkedBody(s: string)
    requires Grouped(Body(s))
    ensures Inked(s)
  {
    GroupedInked(Body(s));
    hide Grouped;
    if Signed(s) {
      assert Inked([s[0]]) && s == [s[0]] + s[1..];
      InkedConcat([s[0]], s[1..]);
    }
  }

  lemma InkedConcat(a: string, b: string)
    requires Inked(a) && Inked(b)
    ensures Inked(a + b)
  {
  }

  lemma GroupedInked(s: string)
    requires s == "" || Grouped(s)
    ensures Inked(s)
  {
  }

  lemma {:induction false} TrimLeftGo(s: string)
    requires TrimLeft(s, AsciiSpace) == "" || !GoSpace(TrimLeft(s, AsciiSpace)[0])
    ensures TrimLeft(s, GoSpace) == TrimLeft(s, AsciiSpace)
  {
    if s != "" && AsciiSpace(s[0]) {
      TrimLeftGo(s[1..]);
    }
  }

  lemma {:induction false} TrimRightGo(s: string)
    requires TrimRight(s, AsciiSpace) == "" || !GoSpace(TrimRight(s, AsciiSpace)[|TrimRight(s, AsciiSpace)| - 1])
    ensures TrimRight(s, GoSpace) == TrimRight(s, AsciiSpace)
  {
    if s != "" && AsciiSpace(s[|s| - 1]) {
      TrimRightGo(s[..|s| - 1]);
    }
  }

  lemma TrimGo(s: string)
    requires Trim(s, AsciiSpace) != "" && Trimmed(Trim(s, AsciiSpace), GoSpace)
    ensures Trim(s, GoSpace) == Trim(s, AsciiSpace)
  {
    var left := TrimLeft(s, AsciiSpace);
    TrimRightKeepsFirst(left, AsciiSpace);
    TrimLeftGo(s);
    TrimRightGo(left);
  }

  /** The handlers and the columns trim such a text alike. */
  lemma SameTrim(amount: string)
    requires NumericInput(amount).Some?
    ensures var s := Trim(amount, AsciiSpace); s != "" && AmountCents(amount) == ParseAmount(s)
  {
    var s := Trim(amount, AsciiSpace);
    NumericInked(Body(s));
    hide UnsignedNumeric, ParseAmount;
    TrimGo(amount);
  }

  // Whole part and fraction

  lemma SplitSigned(s: string)
    requires Signed(s)
    ensures SplitFirst(s, '.') == ([s[0]] + SplitFirst(s[1..], '.').0, SplitFirst(s[1..], '.').1)
  {
  }

  lemma FrontStarts(s: string)
    ensures SplitFirst(s, '.').0 != "" ==> s != "" && SplitFirst(s, '.').0[0] == s[0]
  {
  }

  lemma WholeParsed(s: string)
    requires ParseAmount(s).Some?
    ensures s != "" && ParseInt(SplitFirst(s, '.').0).Some?
  {
  }

  lemma ParsedDigits(sign: string, whole: string)
    requires sign == "" || sign == "-" || sign == "+"
    requires ParseInt(sign + whole).Some? && !(sign == "" && Signed(whole))
    ensures whole != "" && AllDigits(whole)
    ensures ParseInt(sign + whole) == Some(if sign == "-" then 0 - Value(whole) else Value(whole))
  {
    hide Value;
    assert sign != "" ==> (sign + whole)[1..] == whole;
    assert sign == "" ==> sign + whole == whole;
  }

  /** What the handlers parse as the whole part are digits, with the sign. */
  lemma SignedWhole(s: string)
    requires ParseAmount(s).Some?
    ensures var whole := SplitFirst(Body(s), '.').0;
            && s != "" && whole != "" && AllDigits(whole) && SplitFirst(Body(s), '.').1 == SplitFirst(s, '.').1
            && ParseInt(SplitFirst(s, '.').0) == Some(if s[0] == '-' then 0 - Value(whole) else Value(whole))
  {
    hide SplitFirst, ParseAmount, ParseInt, AllDigits, Value;
    WholeParsed(s);
    var whole := SplitFirst(Body(s), '.').0;
    if Signed(s) {
      SplitSigned(s);
      ParsedDigits([s[0]], whole);
    } else {
      FrontStarts(s);
      assert "" + whole == whole;
      ParsedDigits("", whole);
    }
  }

  /** What they parse as cents are the first two digits of what the column reads as the
      fraction, and without two digits there is no exponent. */
  lemma FractionRead(back: string)
    requires FractionCents(back).Some?
    requires var (frac, mark) := SplitAtMark(back); (frac == "" || Grouped(frac)) && Exponent(mark).Some?
    ensures var (frac, mark) := SplitAtMark(back);
            && frac != "" && AllDigits(Ungrouped(frac))
            && FractionCents(back) == Some(Hundredths(Ungrouped(frac)))
            && (|Ungrouped(frac)| < 2 ==> mark.None?)
  {
    hide SplitAtMark, Ungrouped, Grouped, FractionCents, Exponent;
    var (frac, mark) := SplitAtMark(back);
    MarkRejoins(back);
    NoFraction();
    FractionStarts(back);
    var k := if |back| == 1 then 1 else 2;
    UngroupedStarts(frac, k);
    PlainFraction(frac[..k]);
    SameHundredths(frac[..k], Ungrouped(frac));
  }

  lemma UngroupedStarts(s: string, k: nat)
    requires k <= |s| && AllDigits(s[..k]) && Grouped(s)
    ensures AllDigits(Ungrouped(s)) && |Ungrouped(s)| >= k && Ungrouped(s)[..k] == s[..k]
    ensures k == |s| ==> Ungrouped(s) == s
  {
    GroupedDigits(s);
    assert s == s[..k] + s[k..];
    hide AllDigits, Ungrouped, Grouped;
    UngroupedConcat(s[..k], s[k..]);
    DigitsUngrouped(s[..k]);
  }

  lemma SameHundredths(head: string, s: string)
    requires 0 < |head| <= 2 && |head| <= |s| && s[..|head|] == head && (|head| == 1 ==> s == head)
    requires AllDigits(head) && AllDigits(s)
    ensures Hundredths(head) == Hundredths(s)
  {
  }

  lemma FractionStarts(back: string)
    requires FractionCents(back).Some? && back != ""
    requires SplitAtMark(back).0 == "" || Grouped(SplitAtMark(back).0)
    ensures var frac, k := SplitAtMark(back).0, if |back| == 1 then 1 else 2;
            && |frac| >= k && AllDigits(frac[..k]) && FractionCents(back) == FractionCents(frac[..k])
  {
    MarkRejoins(back);
    var frac, two := SplitAtMark(back).0, if |back| == 1 then back + "0" else back[..2];
    assert |back| == 2 ==> two == back;
    assert FractionCents(back) == ParseInt(two);
    assert ParseInt(two).Some? && two[0] == back[0];
    assert Signed(two) || (AllDigits(two) && IsDigit(two[0]));
    hide SplitAtMark;
    if frac != "" {
      assert two[0] == frac[0] && IsDigit(two[0]);
      assert AllDigits(two) && IsDigit(two[1]);
      if |back| >= 2 {
        assert back[1] == two[1] && !IsMark(back[1]);
        assert |frac| >= 2 && frac[..2] == two;
      } else {
        assert frac[..1] == back;
      }
    }
  }

  /** What a chargeable text is charged and stored as, on the parts of its literal. */
  lemma ChargeReadsLiteral(amount: string)
    requires Chargeable(amount)
    ensures Read(amount).Some?
    ensures var lit := Read(amount).value;
            && (|lit.frac| < 2 ==> lit.exponent == 0) && Stored(lit).Some?
            && NumericInput(amount) == Some(if Minus(amount) then 0 - Stored(lit).value else Stored(lit).value)
            && (var dollars: int := if Minus(amount) then 0 - Value(lit.whole) else Value(lit.whole);
                && Int64(dollars)
                && AmountCents(amount) == Some(Wrap64(Wrap64(dollars * 100) + Hundredths(lit.frac))))
  {
    hide NumericInput, AmountCents, Wrap64, Stored, Value, Hundredths, ParseAmount, ParseLiteral, Trim, AllDigits;
    var s := Trim(amount, AsciiSpace);
    SameTrim(amount);
    WholeIsDecimal(s);
    ColumnReads(amount);
    ParsedLiteral(s);
  }

  lemma WholeIsDecimal(s: string)
    requires ParseAmount(s).Some?
    ensures Base(Body(s)) == 10
  {
    hide ParseAmount, ParseInt, Value, Base, AllDigits, SplitFirst;
    SignedWhole(s);
    var (whole, back) := SplitFirst(Body(s), '.');
    SplitRejoins(Body(s), '.');
    DecimalBase(Body(s), whole, back);
  }

  lemma ParsedLiteral(s: string)
    requires ParseAmount(s).Some? && ParseLiteral(Body(s)).Some?
    ensures var lit := ParseLiteral(Body(s)).value;
            var dollars: int := if s != "" && s[0] == '-' then 0 - Value(lit.whole) else Value(lit.whole);
            && (|lit.frac| < 2 ==> lit.exponent == 0)
            && Int64(dollars)
            && ParseAmount(s) == Some(Wrap64(Wrap64(dollars * 100) + Hundredths(lit.frac)))
  {
    hide ParseAmount, ParseLiteral, ParseInt, Wrap64, Value, Hundredths, FractionCents, AllDigits;
    SignedWhole(s);
    var (whole, back) := SplitFirst(Body(s), '.');
    SplitRejoins(Body(s), '.');
    LiteralParts(Body(s), whole, back);
    AmountParts(s);
    assert ParseInt(SplitFirst(s, '.').0) == Some(if s[0] == '-' then 0 - Value(whole) else Value(whole));
    hide SplitFirst;
    if back.Some? {
      FractionRead(back.value);
    } else {
      NoDigits();
    }
  }

  lemma ColumnReads(amount: string)
    requires NumericInput(amount).Some? && Base(Body(Trim(amount, AsciiSpace))) == 10
    ensures Read(amount).Some? && Stored(Read(amount).value).Some?
    ensures NumericInput(amount) ==
            Some(if Minus(amount) then 0 - Stored(Read(amount).value).value else Stored(Read(amount).value).value)
  {
    hide Trim, ParseLiteral, Stored;
  }

  lemma AmountParts(s: string)
    requires ParseAmount(s).Some?
    ensures var (front, back) := SplitFirst(s, '.');
            && ParseInt(front).Some? && (back.Some? ==> FractionCents(back.value).Some?)
            && ParseAmount(s) == Some(Wrap64(Wrap64(ParseInt(front).value * 100)
                                             + if back.Some? then FractionCents(back.value).value else 0))
  {
    var x := ParseInt(SplitFirst(s, '.').0).value * 100;
    assert Wrap64(Wrap64(x) + 0) == Wrap64(x);
    hide Wrap64, ParseInt, FractionCents, SplitFirst;
  }

  /** The parts the column finds in a text that starts with digits. */
  lemma LiteralParts(s: string, whole: string, back: Option<string>)
    requires ParseLiteral(s).Some? && SplitFirst(s, '.') == (whole, back)
    requires whole != "" && AllDigits(whole) && s == whole + if back.Some? then "." + back.value else ""
    ensures var lit, (frac, mark) := ParseLiteral(s).value, SplitAtMark(if back.Some? then back.value else "");
            && lit.whole == whole && (frac == "" || Grouped(frac)) && lit.frac == Ungrouped(frac)
            && Exponent(mark) == Some(lit.exponent)
  {
    DigitsUngrouped(whole);
    DigitsHaveNoMark(whole);
    NoPoint(whole);
    hide Grouped, Ungrouped, Exponent, AllDigits;
    if back.Some? {
      var (frac, mark) := SplitAtMark(back.value);
      MarkAfter(whole + ".", back.value);
      Associative(whole, ".", back.value);
      SplitJoined(whole, '.', frac);
    } else {
      MarkAfter(whole, "");
      NothingAdded(whole);
    }
    hide SplitAtMark, SplitFirst;
  }

  // ---- Charge and record ----

  /** What a caller can check on an amount text: no minus sign, no exponent, and a third
      fraction digit, if there is one, below five. */
  predicate Faithful(amount: string) {
    var lit := Read(amount);
    lit.Some? && !Minus(amount) && lit.value.exponent == 0 && !Carries(lit.value.frac)
  }

  /** The handlers charge the truncated amount but hand the text on to a rounding column.
      For every text they charge and the column stores, white space, sign, digit groups
      and exponent included, the two agree exactly when that check holds, as long as the
      digits before the exponent come to cents of 64 bits. Only a negative exponent lets
      a text with more digits than the column's into it. */
  lemma ChargeMatchesRecord(amount: string)
    requires Chargeable(amount)
    ensures Read(amount).Some?
    ensures Truncated(Read(amount).value) < TWO63 ==>
              (NumericInput(amount) == AmountCents(amount) <==> Faithful(amount))
    ensures Faithful(amount) ==> NumericInput(amount) == AmountCents(amount)
    ensures Truncated(Read(amount).value) >= COLUMN_LIMIT ==> Read(amount).value.exponent < 0
    ensures NumericInput(amount) == AmountCents(amount) ==> !Minus(amount)
  {
    hide NumericInput, AmountCents, Read, Minus, Value, Hundredths, Rounded, Carries, Wrap64, AllDigits;
    ChargeReadsLiteral(amount);
    var lit := Read(amount).value;
    TruncatedExactly(lit);
    if Truncated(lit) < TWO63 {
      ChargeInRange(Value(lit.whole), Hundredths(lit.frac), Minus(amount));
    }
  }

  lemma ChargeInRange(w: nat, h: nat, minus: bool)
    requires w * 100 + h < TWO63
    ensures Wrap64(Wrap64((if minus then 0 - w else w) * 100) + h) == (if minus then h - w * 100 else w * 100 + h)
  {
    hide Wrap64;
  }

  /** Digits with an exponent are charged as if it were not there. */
  lemma WithExponent(whole: string, frac: string, x: string, e: int)
    requires Plain(whole, frac) && |frac| >= 2 && Exponent(Some(x)) == Some(e)
    ensures var s := Spell(whole, frac) + "e" + x;
            && AmountCents(s) == AmountCents(Spell(whole, frac))
            && NumericInput(s) == Stored(Literal(whole, frac, e))
            && Read(s) == Some(Literal(whole, frac, e)) && !Minus(s)
  {
    hide AllDigits, ParseLiteral, Stored, Exponent, ParseAmount, AmountCents;
    var plain := Spell(whole, frac);
    var s := plain + "e" + x;
    SpellParts(whole, frac);
    ExponentEnds(plain, x);
    TrimFixpoint(s, AsciiSpace);
    TrimmedAmount(s);
    TrimmedAmount(plain);
    ExponentParts(whole, frac, x, e);
    hide Trim, Spell, SplitFirst;
  }

  lemma ExponentEnds(plain: string, x: string)
    requires plain != "" && IsDigit(plain[0]) && Exponent(Some(x)).Some?
    ensures var s := plain + "e" + x; Trimmed(s, AsciiSpace) && Trimmed(s, GoSpace) && s[0] == plain[0]
  {
    var last := Body(x)[|Body(x)| - 1];
    assert IsDigit(last) && last == x[|x| - 1];
  }

  lemma ExponentParts(whole: string, frac: string, x: string, e: int)
    requires Plain(whole, frac) && |frac| >= 2 && Exponent(Some(x)) == Some(e)
    ensures var plain := Spell(whole, frac);
            var s := plain + "e" + x;
            && ParseAmount(s) == ParseAmount(plain)
            && Base(s) == 10 && ParseLiteral(s) == Some(Literal(whole, frac, e))
  {
    SameCharge(whole, frac, "e" + x);
    Associative(Spell(whole, frac), "e", x);
    MarkedLiteral(whole, frac, 'e', x);
  }

  /** The handlers look at two fraction digits only. */
  lemma SameCharge(whole: string, frac: string, rest: string)
    requires Plain(whole, frac) && |frac| >= 2
    ensures ParseAmount(Spell(whole, frac) + rest) == ParseAmount(Spell(whole, frac))
  {
    hide ParseInt, Wrap64, AllDigits;
    SpellParts(whole, frac);
    NoPoint(whole);
    SplitJoined(whole, '.', frac + rest);
    Associative(whole + ".", frac, rest);
    assert FractionCents(frac + rest) == FractionCents(frac) by {
      assert (frac + rest)[..2] == frac[..2];
      assert |frac| == 2 ==> frac[..2] == frac;
      assert |frac + rest| == 2 ==> frac + rest == frac;
    }
    hide FractionCents, SplitFirst;
  }

  lemma MarkedLiteral(whole: string, frac: string, m: char, x: string)
    requires Plain(whole, frac) && |frac| >= 2 && (m == 'e' || m == 'E')
    ensures var s := Spell(whole, frac) + ([m] + x);
            && Base(s) == 10
            && ParseLiteral(s) == match Exponent(Some(x))
                                  case None => None
                                  case Some(e) => Some(Literal(whole, frac, e))
  {
    var plain := Spell(whole, frac);
    SpellParts(whole, frac);
    Associative(whole + ".", frac, [m] + x);
    Associative(whole, ".", frac + ([m] + x));
    DecimalBase(plain + ([m] + x), whole, Some(frac + ([m] + x)));
    DigitsUngrouped(whole);
    DigitsUngrouped(frac);
    SpelledWithoutMark(whole, frac);
    MarkAfter(plain, [m] + x);
    assert ([m] + x)[1..] == x;
    NothingAdded(plain);
    hide SplitFirst, Exponent, AllDigits, Grouped, Ungrouped, Base;
  }

  /** A zero with an exponent is stored as zero up to the largest exponent, and down to
      the last fraction digit a numeric value can have. */
  lemma ZeroWithExponent(x: string)
    requires x != "" && AllDigits(x)
    ensures NumericInput("0.00e" + x) == NumericInput("0.00E" + x) == if Value(x) <= 0x3FFF_FFFF then Some(0) else None
    ensures NumericInput("0.00e-" + x) == if Value(x) + 2 <= 16383 then Some(0) else None
  {
    hide NumericInput, UnsignedNumeric, ParseLiteral, Stored, Value, AllDigits, Exponent;
    ZeroDigits();
    LastIsDigit(x);
    ZeroSpelled(x);
    ExponentOf(x);
    ExponentInput("0", "00", 'e', x);
    ExponentInput("0", "00", 'E', x);
    ExponentInput("0", "00", 'e', "-" + x);
    if Value(x) <= 0x3FFF_FFFF {
      ZeroStored(Value(x));
      ZeroStored(0 - Value(x));
    }
  }

  lemma ZeroSpelled(x: string)
    ensures Spell("0", "00") + ['e'] + x == "0.00e" + x && Spell("0", "00") + ['E'] + x == "0.00E" + x
    ensures Spell("0", "00") + ['e'] + ("-" + x) == "0.00e-" + x
  {
  }

  lemma LastIsDigit(x: string)
    requires x != "" && AllDigits(x)
    ensures IsDigit(x[|x| - 1]) && IsDigit(("-" + x)[|x|])
  {
  }

  lemma ZeroDigits()
    ensures Plain("0", "00") && AllDigits("0" + "00") && Value("0" + "00") == 0
  {
    assert "0" + "00" == "000" && "000"[..2] == "00" && "00"[..1] == "0" && "0"[..0] == "";
  }

  lemma ExponentOf(x: string)
    requires x != "" && AllDigits(x)
    ensures Exponent(Some(x)) == if Value(x) <= 0x3FFF_FFFF then Some(Value(x)) else None
    ensures Exponent(Some("-" + x)) == if Value(x) <= 0x3FFF_FFFF then Some(0 - Value(x)) else None
  {
    hide Exponent, Value, Ungrouped, Grouped, Body;
    assert IsDigit(x[0]);
    DigitsUngrouped(x);
    BodyAfterSign(x);
    ExponentIs(x, x);
    ExponentIs("-" + x, x);
  }

  lemma ExponentIs(text: string, x: string)
    requires text != "" && Body(text) == x && Grouped(x) && Ungrouped(x) == x && AllDigits(x)
    ensures Exponent(Some(text)) ==
            if Value(x) > 0x3FFF_FFFF then None else Some(if text[0] == '-' then 0 - Value(x) else Value(x))
  {
    hide Value, Ungrouped, Grouped, Body, AllDigits;
  }

  lemma BodyAfterSign(x: string)
    requires x != "" && IsDigit(x[0])
    ensures Body(x) == x && Body("-" + x) == x && ("-" + x)[0] == '-'
  {
    assert ("-" + x)[1..] == x;
  }

  /** The column's reading of digits with an exponent, which may be too large. */
  lemma ExponentInput(whole: string, frac: string, m: char, x: string)
    requires Plain(whole, frac) && (m == 'e' || m == 'E') && |frac| >= 2 && x != "" && IsDigit(x[|x| - 1])
    ensures var s := Spell(whole, frac) + [m] + x;
            NumericInput(s) == match Exponent(Some(x))
                               case None => None
                               case Some(e) => Stored(Literal(whole, frac, e))
  {
    var s := Spell(whole, frac) + [m] + x;
    SpelledEnds(whole, frac, m, x);
    MarkedLiteral(whole, frac, m, x);
    Associative(Spell(whole, frac), [m], x);
    hide Trim, ParseLiteral, Stored, Exponent, Spell, AllDigits, SplitFirst, Base;
  }

  lemma SpelledEnds(whole: string, frac: string, m: char, x: string)
    requires Plain(whole, frac) && (m == 'e' || m == 'E') && x != "" && IsDigit(x[|x| - 1])
    ensures var s := Spell(whole, frac) + [m] + x; Trim(s, AsciiSpace) == s && !Signed(s) && s != "" && s[0] != '-'
  {
    var s := Spell(whole, frac) + [m] + x;
    SpellParts(whole, frac);
    assert s[0] == Spell(whole, frac)[0] && s[|s| - 1] == x[|x| - 1];
    TrimFixpoint(s, AsciiSpace);
    hide Trim, Spell, AllDigits, SplitFirst;
  }

  lemma ZeroStored(e: int)
    requires AllDigits("0" + "00") && Value("0" + "00") == 0 && AllDigits("0") && AllDigits("00")
    ensures Stored(Literal("0", "00", e)) == if 2 - e <= SCALE_LIMIT then Some(0) else None
  {
    hide Value, AllDigits;
    if e < 0 {
      QuotientIs(Pow10(0 - e) / 2, Pow10(0 - e), 0);
    }
  }

  /** What Go counts as white space, and what the column does. */
  const GO_WHITE_SPACE: set<int> := {
    0x09, 0x0A, 0x0B, 0x0C, 0x0D, 0x20, 0x85, 0xA0, 0x1680, 0x2000, 0x2001, 0x2002, 0x2003, 0x2004, 0x2005, 0x2006,
    0x2007, 0x2008, 0x2009, 0x200A, 0x2028, 0x2029, 0x202F, 0x205F, 0x3000}
  const COLUMN_WHITE_SPACE: set<int> := {0x09, 0x0A, 0x0B, 0x0C, 0x0D, 0x20}

  /** One such character before an amount does not matter, and any other is refused. */
  lemma BlankBeforeAmount(c: char)
    requires !IsDigit(c) && c != '+' && c != '-' && c != '.'
    ensures AmountCents([c] + "5") == if c as int in GO_WHITE_SPACE then Some(500) else None
    ensures NumericInput([c] + "5") == if c as int in COLUMN_WHITE_SPACE then Some(500) else None
  {
    WhiteSpaces(c);
    hide AmountCents, NumericInput, Trim, GoSpace, AsciiSpace, GO_WHITE_SPACE, COLUMN_WHITE_SPACE, Wrap64;
    TrimmedParse([c] + "5");
    BlankTrimmed(c, GoSpace);
    BlankTrimmed(c, AsciiSpace);
    FiveDollars();
    NoAmount(c);
    TrimmedInput([c] + "5");
  }

  lemma TrimmedInput(raw: string)
    requires !Signed(Trim(raw, AsciiSpace))
    ensures NumericInput(raw) == UnsignedNumeric(Trim(raw, AsciiSpace))
  {
    hide Trim, UnsignedNumeric;
  }

  lemma WhiteSpaces(c: char)
    ensures GoSpace(c) <==> c as int in GO_WHITE_SPACE
    ensures AsciiSpace(c) <==> c as int in COLUMN_WHITE_SPACE
    ensures !GoSpace('5') && !AsciiSpace('5')
  {
  }

  lemma BlankTrimmed(c: char, space: char -> bool)
    requires !space('5')
    ensures Trim([c] + "5", space) == if space(c) then "5" else [c] + "5"
  {
    var s := [c] + "5";
    assert s[1..] == "5" && s[0] == c;
    TrimFixpoint("5", space);
    TrimFixpoint(s, space);
    if space(c) {
      assert TrimLeft("5", space) == "5";
      assert TrimLeft(s, space) == "5";
    }
  }

  lemma FiveDollars()
    ensures ParseAmount("5") == Some(500) && UnsignedNumeric("5") == Some(500) && !Signed("5")
  {
    hide AmountCents, UnsignedNumeric, Wrap64, ParseAmount;
    assert "5"[..0] == "" && Value("5") == 5 && Spell("5", "") == "5";
    PlainAmount("5", "");
    TrimmedAmount("5");
    PlainNumeric("5", "");
  }

  lemma NoAmount(c: char)
    requires !IsDigit(c) && c != '+' && c != '-' && c != '.'
    ensures var s := [c] + "5"; ParseAmount(s) == None && UnsignedNumeric(s) == None && !Signed(s)
  {
    var s := [c] + "5";
    SplitJoined(s, '.', "");
    assert !IsDigit(s[0]);
    assert ParseInt(s) == None;
    assert s[0] != '0' && Base(s) == 10;
    MarkRejoins(s);
    var (mantissa, mark) := SplitAtMark(s);
    NoPointIn(mantissa, s);
    assert mantissa != "" ==> !Grouped(mantissa);
    hide SplitAtMark, SplitFirst, Grouped, Ungrouped, Exponent, Wrap64;
  }

  lemma NoPointIn(front: string, s: string)
    requires |front| <= |s| && s[..|front|] == front && forall i :: 0 <= i < |s| ==> s[i] != '.'
    ensures SplitFirst(front, '.') == (front, None)
  {
    assert forall i :: 0 <= i < |front| ==> front[i] == s[i];
    SplitJoined(front, '.', "");
  }

  /** Integers in other bases, with their digit groups. */
  lemma OtherBases()
    ensures NumericInput("0x1_fF") == Some(51100) && NumericInput("0o17") == Some(1500)
    ensures NumericInput("0b101") == Some(500) && NumericInput("0xg") == None
  {
    HexInput();
    OctalInput();
    BinaryInput();
    NoHexInput();
  }

  /** Prefixes may be capitals. */
  lemma CapitalPrefixes(s: string)
    ensures Base("0x" + s) == Base("0X" + s) == 16 && Base("0o" + s) == Base("0O" + s) == 8
    ensures Base("0b" + s) == Base("0B" + s) == 2
  {
  }

  lemma HexInput()
    ensures NumericInput("0x1_fF") == Some(51100)
  {
    HexDigits();
    assert "0x1_fF"[2..] == "1_fF";
    RadixInput("0x1_fF");
    hide RadixValue, NumericInput, RadixGrouped;
  }

  lemma OctalInput()
    ensures NumericInput("0o17") == Some(1500)
  {
    OtherDigits();
    assert "0o17"[2..] == "17";
    RadixInput("0o17");
    hide RadixValue, NumericInput, RadixGrouped;
  }

  lemma BinaryInput()
    ensures NumericInput("0b101") == Some(500)
  {
    OtherDigits();
    assert "0b101"[2..] == "101";
    RadixInput("0b101");
    hide RadixValue, NumericInput, RadixGrouped;
  }

  lemma NoHexInput()
    ensures NumericInput("0xg") == None
  {
    assert "0xg"[2..] == "g" && RadixDigit("g"[0]) == 16;
    RadixInput("0xg");
    hide RadixValue, NumericInput;
  }

  lemma RadixInput(s: string)
    requires Base(s) != 10 && Trimmed(s, AsciiSpace)
    ensures var value := 100 * RadixValue(s[2..], Base(s));
            NumericInput(s) == if RadixGrouped(s[2..], Base(s)) && value < COLUMN_LIMIT then Some(value) else None
  {
    TrimFixpoint(s, AsciiSpace);
    hide Trim, RadixValue, RadixGrouped;
  }

  lemma HexDigits()
    ensures RadixGrouped("1_fF", 16) && RadixValue("1_fF", 16) == 511
  {
    assert "1_fF"[..3] == "1_f" && "1_f"[..2] == "1_" && "1_"[..1] == "1" && "1"[..0] == "";
    assert RadixValue("1", 16) == 1 && RadixValue("1_", 16) == 1 && RadixValue("1_f", 16) == 31;
  }

  lemma OtherDigits()
    ensures RadixGrouped("17", 8) && RadixValue("17", 8) == 15
    ensures RadixGrouped("101", 2) && RadixValue("101", 2) == 5
  {
    assert "17"[..1] == "1" && "1"[..0] == "" && RadixValue("1", 8) == 1;
    assert "101"[..2] == "10" && "10"[..1] == "1" && RadixValue("1", 2) == 1 && RadixValue("10", 2) == 2;
  }

  lemma RoundingDiffers()
    ensures AmountCents("1.005") == Some(100) && NumericInput("1.005") == Some(101)
  {
    hide AmountCents, NumericInput, UnsignedNumeric, Wrap64;
    assert "1.005" == Spell("1", "005");
    assert "1"[..0] == "" && Value("1") == 1;
    PlainAmount("1", "005");
    PlainNumeric("1", "005");
  }

  /** A dollar fifty is charged, fifteen hundred dollars are recorded. */
  lemma ExponentDiffers()
    ensures AmountCents("1.50e3") == Some(150) && NumericInput("1.50e3") == Some(150_000)
    ensures Chargeable("1.50e3") && !Faithful("1.50e3")
  {
    hide AmountCents, NumericInput, Wrap64, Read;
    assert "1"[..0] == "" && Value("1") == 1 && Value("3"[..0]) == 0 && Value("3") == 3;
    DigitsUngrouped("3");
    assert Exponent(Some("3")) == Some(3);
    WithExponent("1", "50", "3", 3);
    PlainAmount("1", "50");
    assert Spell("1", "50") + "e" + "3" == "1.50e3";
    StoredAt150();
  }

  lemma StoredAt150()
    ensures AllDigits("1") && AllDigits("50") && Stored(Literal("1", "50", 3)) == Some(150_000)
  {
    assert "150"[..2] == "15" && "15"[..1] == "1" && "1"[..0] == "";
    assert Value("1") == 1 && Value("15") == 15 && Value("150") == 150;
    assert Pow10(1) == 10 && Pow10(2) == 100 && Pow10(3) == 1000;
    assert "1" + "50" == "150";
  }

  /** Fifty cents are charged, minus fifty are recorded. */
  lemma SignDiffers()
    ensures AmountCents("-0.50") == Some(50) && NumericInput("-0.50") == Some(-50)
    ensures Chargeable("-0.50") && !Faithful("-0.50")
  {
    hide AmountCents, NumericInput, UnsignedNumeric;
    assert Spell("0", "50") == "0.50" && "-" + "0.50" == "-0.50";
    assert "0"[..0] == "" && Value("0") == 0;
    SignedAmount("0", "50");
    PlainNumeric("0", "50");
    SignedNumeric("0", "50");
    TrimFixpoint("-0.50", AsciiSpace);
  }

  /** White space and a plus sign do not matter, the third digit does. */
  lemma SpaceDiffers()
    ensures AmountCents(" +1.005 ") == Some(100) && NumericInput(" +1.005 ") == Some(101)
  {
    hide AmountCents, NumericInput, UnsignedNumeric, Wrap64, ParseAmount, Trim;
    RoundingDiffers();
    assert Spell("1", "005") == "1.005";
    TrimmedAmount("1.005");
    TrimFixpoint("1.005", AsciiSpace);
    TrimmedPlus("1.005", AsciiSpace);
    TrimmedPlus("1.005", GoSpace);
    assert " " + ("+" + "1.005") + " " == " +1.005 ";
    PlusIsPlain("1", "005");
    PlusInput(" +1.005 ", "1.005");
    assert AmountCents(" +1.005 ") == ParseAmount("+" + "1.005") by {
      assert AmountCents(" +1.005 ") == ParseAmount(Trim(" +1.005 ", GoSpace)) by {
        TrimmedParse(" +1.005 ");
      }
    }
  }

  lemma TrimmedParse(raw: string)
    ensures AmountCents(raw) == ParseAmount(Trim(raw, GoSpace))
  {
    hide ParseAmount, Trim;
  }

  lemma TrimmedPlus(s: string, space: char -> bool)
    requires space(' ') && !space('+') && s != "" && !space(s[|s| - 1])
    ensures Trim(" " + ("+" + s) + " ", space) == "+" + s
  {
    var plus := "+" + s;
    var right := plus + " ";
    var raw := " " + plus + " ";
    assert raw[0] == ' ' && raw[1..] == right && right[0] == '+';
    assert TrimLeft(right, space) == right;
    assert TrimLeft(raw, space) == right;
    assert right[|right| - 1] == ' ' && right[..|right| - 1] == plus;
    assert plus[|plus| - 1] == s[|s| - 1];
    assert TrimRight(plus, space) == plus;
  }

  lemma PlusIsPlain(whole: string, frac: string)
    requires Plain(whole, frac)
    ensures ParseAmount("+" + Spell(whole, frac)) == ParseAmount(Spell(whole, frac))
  {
    hide Wrap64, FractionCents, Value;
    var plain := Spell(whole, frac);
    SpellParts(whole, frac);
    SplitSigned("+" + plain);
    assert ("+" + plain)[1..] == plain;
    SpellParts(whole, "");
    assert ("+" + whole)[1..] == whole && IsDigit(whole[0]);
  }

  lemma PlusInput(raw: string, s: string)
    requires Trim(raw, AsciiSpace) == "+" + s && Trim(s, AsciiSpace) == s && !Signed(s)
    ensures NumericInput(raw) == NumericInput(s)
  {
    hide Trim, UnsignedNumeric;
    assert ("+" + s)[1..] == s;
  }

  /** Digit groups: the handlers stop at the second fraction digit, the column goes on. */
  lemma GroupsDiffer()
    ensures AmountCents("1.50_9") == Some(150) && NumericInput("1.50_9") == Some(151)
    ensures Chargeable("1.50_9") && !Faithful("1.50_9")
  {
    GroupsCharged();
    GroupsRead();
    StoredAt1509();
    assert Carries("509");
    hide AmountCents, NumericInput, Read, Carries, Stored;
  }

  lemma GroupsCharged()
    ensures AmountCents("1.50_9") == Some(150)
  {
    hide AmountCents, Wrap64, ParseAmount;
    assert "1"[..0] == "" && Value("1") == 1;
    TrimmedAmount("1.50_9");
    TrimmedAmount("1.50");
    SameCharge("1", "50", "_9");
    assert Spell("1", "50") + "_9" == "1.50_9" && Spell("1", "50") == "1.50";
    PlainAmount("1", "50");
  }

  lemma GroupsRead()
    ensures Read("1.50_9") == Some(Literal("1", "509", 0))
    ensures AllDigits("1") && AllDigits("509") && NumericInput("1.50_9") == Stored(Literal("1", "509", 0))
  {
    hide ParseLiteral, Stored, Trim;
    TrimFixpoint("1.50_9", AsciiSpace);
    GroupedLiteral();
    assert Base("1.50_9") == 10 && !Signed("1.50_9");
  }

  lemma StoredAt1509()
    ensures AllDigits("1") && AllDigits("509") && Stored(Literal("1", "509", 0)) == Some(151)
  {
    var lit := Literal("1", "509", 0);
    assert "1"[..0] == "" && Value("1") == 1;
    hide Rounded, Value;
    TruncatedExactly(lit);
    assert Truncated(lit) == 150;
  }

  lemma GroupedLiteral()
    ensures ParseLiteral("1.50_9") == Some(Literal("1", "509", 0))
  {
    hide SplitAtMark, SplitFirst, Ungrouped, Grouped;
    GroupedText();
    GroupedFraction();
  }

  lemma GroupedText()
    ensures SplitAtMark("1.50_9") == ("1.50_9", None) && SplitFirst("1.50_9", '.') == ("1", Some("50_9"))
    ensures Grouped("1") && Ungrouped("1") == "1"
  {
    DigitsUngrouped("1");
    NoPoint("1");
    MarkAfter("1.50_9", "");
    NothingAdded("1.50_9");
    SplitJoined("1", '.', "50_9");
    hide SplitFirst, Ungrouped, Grouped;
    assert "1" + "." + "50_9" == "1.50_9";
  }

  lemma GroupedFraction()
    ensures Grouped("50_9") && Ungrouped("50_9") == "509"
  {
    DigitsUngrouped("50");
    assert "50_"[..2] == "50" && "50_9"[..3] == "50_" && "50" + "9" == "509";
    assert Ungrouped("50_") == "50";
  }

  /** Out of the range of 64 bits the wrapped cents can happen to be what the column
      rounds to, so there the check is sufficient and not necessary. */
  lemma WrapCoincides(whole: string)
    requires whole != "" && AllDigits(whole) && Value(whole) == 184_467_440_738_940_190
    ensures var text := whole + ".57e-11";
            Chargeable(text) && AmountCents(text) == NumericInput(text) == Some(184_467_441) && !Faithful(text)
  {
    hide AmountCents, NumericInput, Read, Stored, Value, Exponent, AllDigits, Wrap64;
    ElevenPlacesDown();
    WithExponent(whole, "57", "-11", -11);
    SpelledWithExponent(whole);
    WrapCharged(whole);
    WrapStored(whole);
  }

  lemma SpelledWithExponent(whole: string)
    ensures Spell(whole, "57") + "e" + "-11" == whole + ".57e-11"
  {
    assert ".57e-11" == "." + "57" + "e" + "-11";
  }

  lemma ElevenPlacesDown()
    ensures AllDigits("57") && Exponent(Some("-11")) == Some(-11)
  {
    TwoDigits("11");
    DigitsUngrouped("11");
    hide Value, Ungrouped, Grouped, AllDigits;
    assert "-11"[1..] == "11";
  }

  lemma WrapCharged(whole: string)
    requires whole != "" && AllDigits(whole) && Value(whole) == 184_467_440_738_940_190
    ensures AllDigits("57") && AmountCents(Spell(whole, "57")) == Some(184_467_441)
  {
    hide AmountCents, Value, Wrap64;
    PlainAmount(whole, "57");
    WrappedCents();
  }

  lemma WrappedCents()
    ensures Wrap64(Wrap64(18_446_744_073_894_019_000) + 57) == 184_467_441
  {
  }

  lemma WrapStored(whole: string)
    requires AllDigits(whole) && Value(whole) == 184_467_440_738_940_190
    ensures AllDigits("57") && Stored(Literal(whole, "57", -11)) == Some(184_467_441)
  {
    ValueConcat(whole, "57");
    TwoDigits("57");
    assert Pow10(2) == 100 && Pow10(3) == 1000;
    Powers(3, 2);
    Powers(3, 3);
    Powers(6, 5);
    assert Pow10(11) == 100_000_000_000;
    hide Value, Pow10;
  }
}
