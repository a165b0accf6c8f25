/** Numbers as text: the C conversions `atoi` and `strtoul`, and the decimal printer they invert.
    Sections 7.22.1.2 and 7.22.1.4 of ISO/IEC 9899:2011. */
module Numerals {

  const ULONG_MAX: nat := 0xFFFF_FFFF_FFFF_FFFF
  const INT_MAX: int := 0x7FFF_FFFF

  /** `atoi` is undefined outside the range of a 32-bit `int`. */
  predicate IsInt(n: int) {
    -INT_MAX - 1 <= n <= INT_MAX
  }

  predicate IsSpace(c: char) {
    c in " \t\n\r" || c as int == 11 || c as int == 12
  }

  /** The value of a digit in any base up to 16, or 16 if it is none. */
  function DigitValue(c: char): (d: nat)
    ensures d <= 16
  {
    if '0' <= c <= '9' then c as int - '0' as int
    else if 'a' <= c <= 'f' then c as int - 'a' as int + 10
    else if 'A' <= c <= 'F' then c as int - 'A' as int + 10
    else 16
  }

  /** Continues reading digits below `b` onto `acc`, stopping at the first other character. */
  function Accumulate(s: string, b: nat, acc: nat): nat
    requires b <= 16
  {
    if s == "" || DigitValue(s[0]) >= b then acc
    else Accumulate(s[1..], b, acc * b + DigitValue(s[0]))
  }

  function SkipSpace(s: string): string {
    if s != "" && IsSpace(s[0]) then SkipSpace(s[1..]) else s
  }

  /** Splits off an optional sign. */
  function Unsigned(s: string): string {
    if s != "" && (s[0] == '-' || s[0] == '+') then s[1..] else s
  }

  function Atoi(s: string): int {
    var t := SkipSpace(s);
    var magnitude: int := Accumulate(Unsigned(t), 10, 0);
    if t != "" && t[0] == '-' then -magnitude else magnitude
  }

  /** The digits of `strtoul` with base 0: the text itself selects base 16, 8 or 10. */
  function AnyBase(s: string): nat {
    if |s| >= 3 && s[0] == '0' && (s[1] == 'x' || s[1] == 'X') && DigitValue(s[2]) < 16
    then Accumulate(s[2..], 16, 0)
    else if s != "" && s[0] == '0' then Accumulate(s, 8, 0)
    else Accumulate(s, 10, 0)
  }

  /** `strtoul(s, NULL, 0)`: saturates on overflow, negates modulo the word size. */
  function StrToUl(s: string): nat {
    var t := SkipSpace(s);
    var magnitude: int := AnyBase(Unsigned(t));
    if magnitude > ULONG_MAX then ULONG_MAX
    else if t != "" && t[0] == '-' then (-magnitude) % (ULONG_MAX + 1)
    else magnitude
  }

  // -------------------------------------------------------------------- printing

  predicate IsDigit(c: char) {
    '0' <= c <= '9'
  }

  predicate AllDigits(s: string) {
    forall i :: 0 <= i < |s| ==> IsDigit(s[i])
  }

  function Digit(d: nat): (c: char)
    requires d < 10
    ensures IsDigit(c) && DigitValue(c) == d
  {
    ('0' as int + d) as char
  }

  /** Decimal without leading zeros. */
  function PrintNat(n: nat): (s: string)
    ensures s != "" && AllDigits(s)
    ensures s[0] == '0' <==> n == 0
    ensures n < 10 <==> |s| == 1
  {
    if n < 10 then [Digit(n)] else PrintNat(n / 10) + [Digit(n % 10)]
  }

  function PrintInt(n: int): (s: string)
    ensures s != ""
  {
    if n < 0 then "-" + PrintNat(-n) else PrintNat(n)
  }

  lemma {:induction false} AccumulateConcat(s: string, t: string, b: nat, acc: nat)
    requires b <= 16 && forall i :: 0 <= i < |s| ==> DigitValue(s[i]) < b
    ensures Accumulate(s + t, b, acc) == Accumulate(t, b, Accumulate(s, b, acc))
  {
    if s == "" {
      assert s + t == t;
    } else {
      assert (s + t)[1..] == s[1..] + t;
      AccumulateConcat(s[1..], t, b, acc * b + DigitValue(s[0]));
    }
  }

  lemma {:induction false} AccumulateInvertsPrint(n: nat)
    ensures Accumulate(PrintNat(n), 10, 0) == n
  {
    if n < 10 {
      assert [Digit(n)][1..] == "";
    } else {
      AccumulateInvertsPrint(n / 10);
      var last := [Digit(n % 10)];
      assert last[1..] == "";
      AccumulateConcat(PrintNat(n / 10), last, 10, 0);
    }
  }

  lemma AtoiInvertsPrint(n: int)
    ensures Atoi(PrintInt(n)) == n
  {
    if n < 0 {
      assert PrintInt(n)[1..] == PrintNat(-n);
      AccumulateInvertsPrint(-n);
    } else {
      assert IsDigit(PrintNat(n)[0]);
      AccumulateInvertsPrint(n);
    }
  }

  lemma StrToUlInvertsPrint(n: nat)
    requires n <= ULONG_MAX
    ensures StrToUl(PrintNat(n)) == n
  {
    var s := PrintNat(n);
    assert IsDigit(s[0]);
    AccumulateInvertsPrint(n);
    assert SkipSpace(s) == s && Unsigned(s) == s;
    if n == 0 {
      assert s == "0" && "0"[1..] == "";
      assert Accumulate("0", 8, 0) == Accumulate("", 8, 0);
    }
  }

  /** A minus sign is accepted and negates modulo the word size. */
  lemma StrToUlOfNegative(n: nat)
    requires 0 < n <= ULONG_MAX
    ensures StrToUl("-" + PrintNat(n)) == ULONG_MAX + 1 - n
  {
    hide Accumulate, PrintNat;
    var s := "-" + PrintNat(n);
    assert s[1..] == PrintNat(n) && IsDigit(PrintNat(n)[0]);
    assert SkipSpace(s) == s && Unsigned(s) == PrintNat(n);
    AccumulateInvertsPrint(n);
    assert AnyBase(PrintNat(n)) == n;
    Negated(n);
  }

  lemma Negated(n: int)
    requires 0 < n <= ULONG_MAX
    ensures (-n) % (ULONG_MAX + 1) == ULONG_MAX + 1 - n
  {
  }

  // ------------------------------------------ other bases, and text around numbers

  function DigitIn(d: nat): (c: char)
    requires d < 16
    ensures DigitValue(c) == d && !IsSpace(c) && c != '-' && c != '+'
  {
    if d < 10 then ('0' as int + d) as char else ('a' as int + (d - 10)) as char
  }

  /** The bases that `strtoul` chooses from. */
  predicate Base(b: nat) {
    b == 8 || b == 10 || b == 16
  }

  lemma QuotientIsLess(n: nat, b: nat)
    requires Base(b)
    ensures n % b < b && (n >= b ==> n / b < n)
  {
  }

  /** A number in base `b`, without leading zeros. */
  function PrintIn(n: nat, b: nat): (s: string)
    requires Base(b)
    ensures s != "" && forall i :: 0 <= i < |s| ==> DigitValue(s[i]) < b
    ensures s[0] != 'x' && s[0] != 'X'
  {
    QuotientIsLess(n, b);
    if n < b then [DigitIn(n)] else PrintIn(n / b, b) + [DigitIn(n % b)]
  }

  /** Nothing in `s` continues a number in base `b`. */
  predicate Ends(s: string, b: nat) {
    s == "" || DigitValue(s[0]) >= b
  }

  lemma LastDigit(n: nat, b: nat, junk: string)
    requires Base(b) && Ends(junk, b)
    ensures Accumulate([DigitIn(n % b)] + junk, b, n / b) == n
  {
    var s := [DigitIn(n % b)] + junk;
    assert s[1..] == junk;
    assert Accumulate(s, b, n / b) == n / b * b + n % b;
  }

  /** Digits of any base are read up to the first character that is none. */
  lemma {:induction false} AccumulateInvertsPrintIn(n: nat, b: nat, junk: string)
    requires Base(b) && Ends(junk, b)
    ensures Accumulate(PrintIn(n, b) + junk, b, 0) == n
  {
    LastDigit(n, b, junk);
    if n < b {
      assert n / b == 0 && n % b == n;
    } else {
      hide Accumulate;
      var high, last := PrintIn(n / b, b), [DigitIn(n % b)] + junk;
      AccumulateInvertsPrintIn(n / b, b, "");
      assert high + "" == high;
      assert PrintIn(n, b) + junk == high + last;
      AccumulateConcat(high, last, b, 0);
    }
  }

  function Saturated(n: nat): nat {
    if n > ULONG_MAX then ULONG_MAX else n
  }

  /** With base 0, `0x` selects base 16 and any other leading zero base 8; values beyond the word
      size saturate, and text behind the digits is ignored. */
  lemma StrToUlSelectsBase(n: nat, junk: string)
    ensures Ends(junk, 16) ==> StrToUl("0x" + PrintIn(n, 16) + junk) == Saturated(n)
    ensures Ends(junk, 8) ==> StrToUl("0" + PrintIn(n, 8) + junk) == Saturated(n)
    ensures Ends(junk, 10) && n > 0 ==> StrToUl(PrintNat(n) + junk) == Saturated(n)
  {
    if Ends(junk, 16) {
      ReadsHex(n, junk);
    }
    if Ends(junk, 8) {
      ReadsOctal(n, junk);
    }
    if Ends(junk, 10) && n > 0 {
      ReadsDecimal(n, junk);
    }
  }

  lemma ReadsHex(n: nat, junk: string)
    requires Ends(junk, 16)
    ensures StrToUl("0x" + PrintIn(n, 16) + junk) == Saturated(n)
  {
    hide Accumulate, PrintIn;
    var s := "0x" + PrintIn(n, 16) + junk;
    AccumulateInvertsPrintIn(n, 16, junk);
    assert SkipSpace(s) == s && Unsigned(s) == s && s[2..] == PrintIn(n, 16) + junk;
    assert s[2] == PrintIn(n, 16)[0];
  }

  lemma LeadingZero(t: string)
    ensures Accumulate("0" + t, 8, 0) == Accumulate(t, 8, 0)
  {
    assert ("0" + t)[1..] == t;
  }

  lemma ReadsOctal(n: nat, junk: string)
    requires Ends(junk, 8)
    ensures StrToUl("0" + PrintIn(n, 8) + junk) == Saturated(n)
  {
    hide Accumulate, PrintIn;
    var t := PrintIn(n, 8) + junk;
    var s := "0" + t;
    AccumulateInvertsPrintIn(n, 8, junk);
    LeadingZero(t);
    assert "0" + PrintIn(n, 8) + junk == s;
    assert s[1] == PrintIn(n, 8)[0];
    assert SkipSpace(s) == s && Unsigned(s) == s;
  }

  lemma {:induction false} PrintNatIsDecimal(n: nat)
    ensures PrintNat(n) == PrintIn(n, 10)
  {
    if n >= 10 {
      PrintNatIsDecimal(n / 10);
    }
  }

  lemma ReadsDecimal(n: nat, junk: string)
    requires Ends(junk, 10) && n > 0
    ensures StrToUl(PrintNat(n) + junk) == Saturated(n)
  {
    hide Accumulate, PrintIn, PrintNat;
    var s := PrintNat(n) + junk;
    PrintNatIsDecimal(n);
    AccumulateInvertsPrintIn(n, 10, junk);
    assert s[0] == PrintNat(n)[0] && IsDigit(s[0]);
    assert SkipSpace(s) == s && Unsigned(s) == s;
  }

  /** `atoi` reads an optional sign and the digits, and ignores the text behind them. */
  lemma AtoiIgnoresTail(n: int, junk: string)
    requires Ends(junk, 10)
    ensures Atoi(PrintInt(n) + junk) == n
  {
    hide Accumulate, PrintIn, PrintNat;
    var s := PrintInt(n) + junk;
    var m: nat := if n < 0 then -n else n;
    PrintNatIsDecimal(m);
    AccumulateInvertsPrintIn(m, 10, junk);
    assert IsDigit(PrintNat(m)[0]);
    if n < 0 {
      assert s[1..] == PrintNat(m) + junk;
    } else {
      assert s[0] == PrintNat(m)[0];
    }
    assert SkipSpace(s) == s;
  }

  /** Both conversions skip white space in front. */
  lemma {:induction false} SpaceInFront(space: string, s: string)
    requires forall i :: 0 <= i < |space| ==> IsSpace(space[i])
    ensures SkipSpace(space + s) == SkipSpace(s)
    ensures Atoi(space + s) == Atoi(s) && StrToUl(space + s) == StrToUl(s)
  {
    if space == "" {
      assert space + s == s;
    } else {
      assert (space + s)[1..] == space[1..] + s;
      SpaceInFront(space[1..], s);
    }
  }

  // -------------------------------------------------- leading zeros mean octal

  lemma {:induction false} OctalBelowDecimal(s: string, x: nat, y: nat)
    requires AllDigits(s) && x <= y
    ensures Accumulate(s, 8, x) <= Accumulate(s, 10, y)
    ensures y > 0 && s != "" ==> Accumulate(s, 8, x) < Accumulate(s, 10, y)
  {
    if s != "" {
      var d := DigitValue(s[0]);
      if d < 8 {
        OctalBelowDecimal(s[1..], x * 8 + d, y * 10 + d);
        if s[1..] == "" {
          assert Accumulate(s[1..], 8, x * 8 + d) == x * 8 + d;
        }
      } else {
        GrowsDecimal(s[1..], y * 10 + d);
      }
    }
  }

  lemma {:induction false} GrowsDecimal(s: string, y: nat)
    requires AllDigits(s)
    ensures Accumulate(s, 10, y) >= y
  {
    if s != "" {
      GrowsDecimal(s[1..], y * 10 + DigitValue(s[0]));
    }
  }

  lemma {:induction false} OctalOfSmall(s: string)
    requires AllDigits(s)
    ensures Accumulate(s, 8, 0) == Accumulate(s, 10, 0) <==> Accumulate(s, 10, 0) < 8
  {
    if s != "" {
      var d := DigitValue(s[0]);
      if d == 0 {
        OctalOfSmall(s[1..]);
      } else {
        GrowsDecimal(s[1..], d);
        if d < 8 {
          OctalBelowDecimal(s[1..], d, d);
          if s[1..] != "" {
            GrowsDecimal(s[1..][1..], d * 10 + DigitValue(s[1]));
          }
        }
      }
    }
  }

  /** On a string of decimal digits `strtoul` with base 0 returns the decimal value
      exactly when the string has no leading zero or its value is a single octal digit. */
  lemma DecimalIffNoLeadingZero(s: string)
    requires s != "" && AllDigits(s) && Accumulate(s, 10, 0) <= ULONG_MAX
    ensures StrToUl(s) == Accumulate(s, 10, 0) <==> s[0] != '0' || Accumulate(s, 10, 0) < 8
  {
    assert IsDigit(s[0]);
    if s[0] == '0' {
      assert |s| >= 2 ==> IsDigit(s[1]);
      OctalOfSmall(s);
      OctalBelowDecimal(s, 0, 0);
    }
  }

  // --------------------------------------------------------- eight-digit lengths

  function Zeros(k: nat): string {
    if k == 0 then "" else "0" + Zeros(k - 1)
  }

  lemma {:induction false} ZerosAreDigits(k: nat)
    ensures |Zeros(k)| == k && AllDigits(Zeros(k))
    ensures Accumulate(Zeros(k), 10, 0) == 0
  {
    if k > 0 {
      ZerosAreDigits(k - 1);
      assert Zeros(k)[1..] == Zeros(k - 1);
    }
  }

  function Pow10(k: nat): nat {
    if k == 0 then 1 else 10 * Pow10(k - 1)
  }

  lemma {:induction false} PrintLength(n: nat, k: nat)
    requires k > 0 && n < Pow10(k)
    ensures |PrintNat(n)| <= k
  {
    if n >= 10 {
      PrintLength(n / 10, k - 1);
    }
  }

  /** A length field: eight digits, zero-padded on the left. */
  const MAX_FRAME: nat := 100_000_000

  function Pad8(n: nat): string {
    if |PrintNat(n)| <= 8 then Zeros(8 - |PrintNat(n)|) + PrintNat(n) else PrintNat(n)
  }

  lemma PadLength(n: nat)
    requires n < MAX_FRAME
    ensures |PrintNat(n)| <= 8 && |Pad8(n)| == 8 && AllDigits(Pad8(n))
  {
    assert Pow10(2) == 100 && Pow10(4) == 10_000 && Pow10(6) == 1_000_000 && Pow10(8) == MAX_FRAME;
    PrintLength(n, 8);
    ZerosAreDigits(8 - |PrintNat(n)|);
  }

  lemma AtoiInvertsPad(n: nat)
    requires n < MAX_FRAME
    ensures Atoi(Pad8(n)) == n
  {
    PadLength(n);
    var zeros := Zeros(8 - |PrintNat(n)|);
    ZerosAreDigits(|zeros|);
    AccumulateConcat(zeros, PrintNat(n), 10, 0);
    AccumulateInvertsPrint(n);
    assert IsDigit(Pad8(n)[0]);
  }
}
