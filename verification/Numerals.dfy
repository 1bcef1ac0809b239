/** Positional numerals: the fixed-width and shortest forms Go's formatting produces, and reading them back. */
module Numerals {
  import opened Basics

  /** Decimal and hexadecimal numerals share one definition. */
  type Base = n: nat | 2 <= n <= 16 witness 10

  function Pow(b: Base, n: nat): (p: nat)
    ensures p > 0
  {
    if n == 0 then 1 else b * Pow(b, n - 1)
  }

  function DigitChar(d: nat): char
    requires d < 16
  {
    if d < 10 then '0' + d as char else 'a' + (d - 10) as char
  }

  /** Hex digits are read in either case. */
  function DigitValue(c: char): (r: Option<nat>)
    ensures r.Some? ==> r.value < 16
  {
    if '0' <= c <= '9' then Some(c as int - '0' as int)
    else if 'a' <= c <= 'f' then Some(c as int - 'a' as int + 10)
    else if 'A' <= c <= 'F' then Some(c as int - 'A' as int + 10)
    else None
  }

  predicate IsDigit(c: char) { '0' <= c <= '9' }

  predicate AllDigits(s: string) { forall c <- s :: IsDigit(c) }

  /** n written in exactly width digits, leading zeros included. */
  function Fixed(n: nat, width: nat, b: Base): (s: string)
    ensures |s| == width
  {
    if width == 0 then "" else Fixed(n / b, width - 1, b) + [DigitChar(n % b)]
  }

  /** n in its shortest decimal form (Go's %d). */
  function Decimal(n: nat): (s: string)
    ensures |s| >= 1
  {
    if n < 10 then [DigitChar(n)] else Decimal(n / 10) + [DigitChar(n % 10)]
  }

  /** The number a digit string denotes in base b; None when a character is not a digit of that base. */
  function Parse(s: string, b: Base): Option<nat> {
    if s == "" then Some(0)
    else
      match (Parse(s[..|s| - 1], b), DigitValue(s[|s| - 1]))
      case (Some(high), Some(d)) => if d < b then Some(high * b + d) else None
      case _ => None
  }

  lemma {:induction false} ParseFixed(n: nat, width: nat, b: Base)
    requires n < Pow(b, width)
    ensures Parse(Fixed(n, width, b), b) == Some(n)
    decreases width
  {
    hide Pow, Parse, Fixed, DigitChar, DigitValue;
    if width > 0 {
      OneDigitLess(n, width, b);
      ParseFixed(n / b, width - 1, b);
      OneDigitMore(n, Fixed(n / b, width - 1, b), b);
    } else {
      NoDigits(n, b);
    }
  }

  lemma OneDigitLess(n: nat, width: nat, b: Base)
    requires width > 0 && n < Pow(b, width)
    ensures n / b < Pow(b, width - 1)
    ensures Fixed(n, width, b) == Fixed(n / b, width - 1, b) + [DigitChar(n % b)]
  {
    DivBelow(n, b, Pow(b, width - 1));
  }

  lemma OneDigitMore(n: nat, high: string, b: Base)
    requires Parse(high, b) == Some(n / b)
    ensures Parse(high + [DigitChar(n % b)], b) == Some(n)
  {
    hide Parse, DigitChar, DigitValue;
    Recompose(n, b);
    ReadDigit(n % b, b);
    ParseSnoc(high, DigitChar(n % b), b, n / b, n % b);
  }

  lemma NoDigits(n: nat, b: Base)
    requires n < Pow(b, 0)
    ensures Parse(Fixed(n, 0, b), b) == Some(n)
  {
  }

  /** A fixed-width numeral consists of digits, and holds none of the separators used around numerals. */
  lemma {:induction false} FixedIsDigits(n: nat, width: nat, b: Base)
    ensures b == 10 ==> AllDigits(Fixed(n, width, b))
    ensures forall c <- Fixed(n, width, b) :: c !in "-|$:"
    decreases width
  {
    hide DigitChar, IsDigit;
    if width > 0 {
      FixedIsDigits(n / b, width - 1, b);
      Recompose(n, b);
      ReadDigit(n % b, b);
    }
  }

  lemma DivBelow(n: nat, b: Base, p: nat)
    requires n < b * p
    ensures n / b < p
  {
  }

  lemma Recompose(n: nat, b: Base)
    ensures n / b * b + n % b == n && n % b < b
  {
  }

  lemma ReadDigit(d: nat, b: Base)
    requires d < b
    ensures DigitValue(DigitChar(d)) == Some(d)
    ensures DigitChar(d) !in "-|$:"
    ensures b == 10 ==> IsDigit(DigitChar(d))
  {
  }

  lemma ParseSnoc(s: string, c: char, b: Base, high: nat, d: nat)
    requires Parse(s, b) == Some(high) && DigitValue(c) == Some(d) && d < b
    ensures Parse(s + [c], b) == Some(high * b + d)
  {
    var t := s + [c];
    assert t[..|t| - 1] == s;
  }

  lemma {:induction false} ParseDecimal(n: nat)
    ensures Parse(Decimal(n), 10) == Some(n)
    ensures AllDigits(Decimal(n))
  {
    if n >= 10 {
      ParseDecimal(n / 10);
      ReadDigit(n % 10, 10);
      ParseSnoc(Decimal(n / 10), DigitChar(n % 10), 10, n / 10, n % 10);
    } else {
      var s := Decimal(n);
      assert s[..|s| - 1] == "";
    }
  }

  /** Trailing zeros removed, as RFC 3339 fractions are printed. */
  function TrimZeros(s: string): string {
    if s != "" && s[|s| - 1] == '0' then TrimZeros(s[..|s| - 1]) else s
  }

  function Zeros(n: nat): (s: string)
    ensures |s| == n
  {
    if n == 0 then "" else Zeros(n - 1) + "0"
  }

  lemma {:induction false} TrimThenPad(s: string)
    ensures |TrimZeros(s)| <= |s|
    ensures TrimZeros(s) + Zeros(|s| - |TrimZeros(s)|) == s
  {
    if s != "" && s[|s| - 1] == '0' {
      var t := s[..|s| - 1];
      TrimThenPad(t);
      assert Zeros(|s| - |TrimZeros(s)|) == Zeros(|t| - |TrimZeros(t)|) + "0";
      assert s == t + "0";
    }
  }
}
