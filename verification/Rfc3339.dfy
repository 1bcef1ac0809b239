/**
 Instants and their RFC 3339 text, as Go's time.RFC3339Nano layout prints and reads them in UTC.
 An instant counts nanoseconds from the start of year 0 of the proleptic Gregorian calendar.
 */
module Rfc3339 {
  import opened Basics
  import opened Numerals

  type Instant = int

  const DAY: int := 86_400 * SECOND

  datatype Civil = Civil(year: nat, month: nat, day: nat, hour: nat, minute: nat, second: nat, nano: nat)

  predicate Leap(y: nat) { y % 4 == 0 && (y % 100 != 0 || y % 400 == 0) }

  /** Days from the start of year 0 to the start of year y. */
  function DaysBeforeYear(y: nat): nat {
    365 * y + (y + 3) / 4 - (y + 99) / 100 + (y + 399) / 400
  }

  function DaysBeforeMonth(leap: bool, m: nat): nat
    requires 1 <= m <= 13
  {
    var common := [0, 0, 31, 59, 90, 120, 151, 181, 212, 243, 273, 304, 334, 365];
    common[m] + if leap && m > 2 then 1 else 0
  }

  function DaysInMonth(leap: bool, m: nat): nat
    requires 1 <= m <= 12
  {
    DaysBeforeMonth(leap, m + 1) - DaysBeforeMonth(leap, m)
  }

  lemma CeilStep4(y: nat)
    ensures (y + 4) / 4 - (y + 3) / 4 == if y % 4 == 0 then 1 else 0
  {
  }

  lemma CeilStep100(y: nat)
    ensures (y + 100) / 100 - (y + 99) / 100 == if y % 100 == 0 then 1 else 0
  {
  }

  lemma CeilStep400(y: nat)
    ensures (y + 400) / 400 - (y + 399) / 400 == if y % 400 == 0 then 1 else 0
  {
  }

  lemma MultiplesNest(y: nat)
    ensures y % 400 == 0 ==> y % 100 == 0
    ensures y % 100 == 0 ==> y % 4 == 0
  {
    if y % 400 == 0 {
      assert y == 100 * (4 * (y / 400));
    }
    if y % 100 == 0 {
      assert y == 4 * (25 * (y / 100));
    }
  }

  lemma YearLength(y: nat)
    ensures DaysBeforeYear(y + 1) == DaysBeforeYear(y) + 365 + if Leap(y) then 1 else 0
  {
    CeilStep4(y);
    CeilStep100(y);
    CeilStep400(y);
    MultiplesNest(y);
  }

  /** Thirty days has September. */
  lemma MonthLength(y: nat, m: nat)
    requires 1 <= m <= 12
    ensures DaysInMonth(Leap(y), m)
            == if m == 4 || m == 6 || m == 9 || m == 11 then 30
               else if m != 2 then 31
               else if y % 400 == 0 || (y % 4 == 0 && y % 100 != 0) then 29 else 28
    ensures DaysBeforeMonth(Leap(y), 1) == 0 && DaysBeforeYear(0) == 0
  {
    MultiplesNest(y);
  }

  predicate FourDigitYear(t: Instant) { 0 <= t < DaysBeforeYear(10000) * DAY }

  predicate ValidCivil(c: Civil) {
    && c.year < 10000
    && 1 <= c.month <= 12
    && 1 <= c.day <= DaysInMonth(Leap(c.year), c.month)
    && c.hour < 24 && c.minute < 60 && c.second < 60 && c.nano < SECOND
  }

  function FromCivil(c: Civil): Instant
    requires ValidCivil(c)
  {
    (DaysBeforeYear(c.year) + DaysBeforeMonth(Leap(c.year), c.month) + c.day - 1) * DAY
    + (c.hour * 3600 + c.minute * 60 + c.second) * SECOND + c.nano
  }

  /** The year holding a day, searching down from hi. */
  function YearOf(days: nat, hi: nat): (y: nat)
    requires days < DaysBeforeYear(hi)
    ensures y < hi && DaysBeforeYear(y) <= days < DaysBeforeYear(y + 1)
  {
    if DaysBeforeYear(hi - 1) <= days then hi - 1 else YearOf(days, hi - 1)
  }

  function MonthOf(leap: bool, days: nat, hi: nat): (m: nat)
    requires 1 < hi <= 13 && days < DaysBeforeMonth(leap, hi)
    ensures 1 <= m < hi && DaysBeforeMonth(leap, m) <= days < DaysBeforeMonth(leap, m + 1)
  {
    if DaysBeforeMonth(leap, hi - 1) <= days then hi - 1 else MonthOf(leap, days, hi - 1)
  }

  lemma ClockParts(t: Instant)
    requires 0 <= t
    ensures var days, rest := t / DAY, t % DAY; var seconds := rest / SECOND;
            && t == days * DAY + (seconds / 3600 * 3600 + seconds / 60 % 60 * 60 + seconds % 60) * SECOND
                    + rest % SECOND
            && seconds / 3600 < 24
            && (t < DaysBeforeYear(10000) * DAY ==> days < DaysBeforeYear(10000))
  {
    var seconds := t % DAY / SECOND;
    assert seconds == seconds / 3600 * 3600 + seconds / 60 % 60 * 60 + seconds % 60 by {
      assert seconds / 60 / 60 == seconds / 3600;
    }
  }

  function ToCivil(t: Instant): (c: Civil)
    requires FourDigitYear(t)
    ensures ValidCivil(c) && FromCivil(c) == t
  {
    var days, rest := t / DAY, t % DAY;
    ClockParts(t);
    var y := YearOf(days, 10000);
    YearLength(y);
    var leap := Leap(y);
    var ofYear := days - DaysBeforeYear(y);
    var m := MonthOf(leap, ofYear, 13);
    var seconds := rest / SECOND;
    Civil(y, m, ofYear - DaysBeforeMonth(leap, m) + 1,
          seconds / 3600, seconds / 60 % 60, seconds % 60, rest % SECOND)
  }

  /** The fraction is printed without trailing zeros, and not at all when it is zero. */
  function Fraction(nano: nat): string
    requires nano < SECOND
  {
    if nano == 0 then "" else "." + TrimZeros(Fixed(nano, 9, 10))
  }

  function Layout(y: string, mo: string, d: string, h: string, mi: string, se: string): string {
    y + "-" + mo + "-" + d + "T" + h + ":" + mi + ":" + se
  }

  /** The date and time to the second: the first nineteen characters. */
  function DateTime(c: Civil): string {
    Layout(Fixed(c.year, 4, 10), Fixed(c.month, 2, 10), Fixed(c.day, 2, 10),
           Fixed(c.hour, 2, 10), Fixed(c.minute, 2, 10), Fixed(c.second, 2, 10))
  }

  function Format(t: Instant): string
    requires FourDigitYear(t)
  {
    var c := ToCivil(t);
    DateTime(c) + Fraction(c.nano) + "Z"
  }

  /** How many characters at the front of s are digits. */
  function DigitRun(s: string): (n: nat)
    ensures n <= |s| && AllDigits(s[..n]) && (n < |s| ==> !IsDigit(s[n]))
  {
    if s == "" || !IsDigit(s[0]) then 0
    else
      var n := DigitRun(s[1..]);
      assert s[..n + 1] == [s[0]] + s[1..][..n];
      n + 1
  }

  /** Digits after the ninth are read and dropped; missing ones count as zero. */
  function ReadNano(digits: string): Option<nat> {
    if |digits| <= 9 then Parse(digits + Zeros(9 - |digits|), 10) else Parse(digits[..9], 10)
  }

  /** The seconds a zone suffix is ahead of UTC. */
  function ReadZone(s: string): Option<int> {
    if s == "Z" then Some(0)
    else if |s| == 6 && s[0] in "+-" && s[3] == ':' then
      match (Parse(s[1..3], 10), Parse(s[4..6], 10))
      case (Some(h), Some(m)) =>
        var ahead: int := h * 3600 + m * 60;
        if h < 24 && m < 60 then Some(if s[0] == '-' then -ahead else ahead) else None
      case _ => None
    else None
  }

  function ReadCivil(s: string): (r: Option<Civil>)
    requires |s| == 19
    ensures r.Some? ==> ValidCivil(r.value) && r.value.nano == 0
  {
    if s[4] == '-' && s[7] == '-' && s[10] == 'T' && s[13] == ':' && s[16] == ':' then
      match (Parse(s[..4], 10), Parse(s[5..7], 10), Parse(s[8..10], 10),
             Parse(s[11..13], 10), Parse(s[14..16], 10), Parse(s[17..19], 10))
      case (Some(y), Some(mo), Some(d), Some(h), Some(mi), Some(se)) =>
        var c := Civil(y, mo, d, h, mi, se, 0);
        if ValidCivil(c) then Some(c) else None
      case _ => None
    else None
  }

  /** The nanoseconds and zone offset after the seconds. */
  function ReadTail(rest: string): Option<(nat, int)> {
    var n := if |rest| >= 2 && rest[0] == '.' then DigitRun(rest[1..]) else 0;
    var nano := if n == 0 then Some(0) else ReadNano(rest[1..n + 1]);
    match (nano, ReadZone(if n == 0 then rest else rest[n + 1..]))
    case (Some(ns), Some(offset)) => Some((ns, offset))
    case _ => None
  }

  function ParseInstant(s: string): Option<Instant> {
    if |s| < 19 then None
    else
      match (ReadCivil(s[..19]), ReadTail(s[19..]))
      case (Some(c), Some(tail)) => Some(FromCivil(c) + tail.0 - tail.1 * SECOND)
      case _ => None
  }

  lemma TrimmedDigits(s: string)
    requires AllDigits(s)
    ensures AllDigits(TrimZeros(s))
  {
    TrimThenPad(s);
    var t := TrimZeros(s);
    forall c | c in t ensures c in s {
      assert c in t + Zeros(|s| - |t|);
    }
  }

  lemma {:induction false} DigitRunOf(digits: string, rest: string)
    requires AllDigits(digits) && (rest == "" || !IsDigit(rest[0]))
    ensures DigitRun(digits + rest) == |digits|
  {
    if digits != "" {
      var s := digits + rest;
      assert s[1..] == digits[1..] + rest;
      DigitRunOf(digits[1..], rest);
    } else {
      assert digits + rest == rest;
    }
  }

  lemma {:induction false} AllZeros(s: string)
    requires TrimZeros(s) == ""
    ensures Parse(s, 10) == Some(0)
  {
    if s != "" {
      AllZeros(s[..|s| - 1]);
    }
  }

  lemma PowersOfTen()
    ensures Pow(10, 2) == 100 && Pow(10, 4) == 10000 && Pow(10, 9) == SECOND
  {
    assert Pow(10, 4) == 10 * Pow(10, 3) == 100 * Pow(10, 2);
    assert Pow(10, 9) == 10 * Pow(10, 8) == 100 * Pow(10, 7);
    assert Pow(10, 7) == 10 * Pow(10, 6) == 100 * Pow(10, 5);
  }

  /** A printed fraction reads back as the same nanoseconds, whatever zeros were trimmed. */
  lemma FractionRoundTrip(nano: nat)
    requires 0 < nano < SECOND
    ensures var f := TrimZeros(Fixed(nano, 9, 10));
            f != "" && AllDigits(f) && ReadNano(f) == Some(nano)
  {
    hide Pow, Parse, Fixed, TrimZeros, Zeros;
    PowersOfTen();
    ParseFixed(nano, 9, 10);
    FixedIsDigits(nano, 9, 10);
    var s := Fixed(nano, 9, 10);
    var f := TrimZeros(s);
    TrimThenPad(s);
    TrimmedDigits(s);
    if f == "" {
      AllZeros(s);
    }
  }

  lemma LayoutParts(y: string, mo: string, d: string, h: string, mi: string, se: string)
    requires |y| == 4 && |mo| == |d| == |h| == |mi| == |se| == 2
    ensures var s := Layout(y, mo, d, h, mi, se);
            && |s| == 19
            && s[4] == '-' && s[7] == '-' && s[10] == 'T' && s[13] == ':' && s[16] == ':'
            && s[..4] == y && s[5..7] == mo && s[8..10] == d
            && s[11..13] == h && s[14..16] == mi && s[17..19] == se
  {
    var date, time := y + "-" + mo + "-" + d, h + ":" + mi + ":" + se;
    var s := Layout(y, mo, d, h, mi, se);
    assert s == date + ("T" + time) && |date| == 10;
    assert date[..4] == y && date[5..7] == mo && date[8..10] == d;
    assert time[..2] == h && time[3..5] == mi && time[6..8] == se;
    assert s[..10] == date && s[11..19] == time;
    assert s[14..16] == time[3..5] && s[17..19] == time[6..8];
  }

  lemma ReadLayout(c: Civil, y: string, mo: string, d: string, h: string, mi: string, se: string)
    requires ValidCivil(c)
    requires |y| == 4 && |mo| == |d| == |h| == |mi| == |se| == 2
    requires Parse(y, 10) == Some(c.year) && Parse(mo, 10) == Some(c.month) && Parse(d, 10) == Some(c.day)
    requires Parse(h, 10) == Some(c.hour) && Parse(mi, 10) == Some(c.minute) && Parse(se, 10) == Some(c.second)
    ensures |Layout(y, mo, d, h, mi, se)| == 19
    ensures ReadCivil(Layout(y, mo, d, h, mi, se)) == Some(c.(nano := 0))
  {
    LayoutParts(y, mo, d, h, mi, se);
  }

  lemma TwoDigits(n: nat)
    requires n < 100
    ensures |Fixed(n, 2, 10)| == 2 && Parse(Fixed(n, 2, 10), 10) == Some(n) && '|' !in Fixed(n, 2, 10)
  {
    hide Pow, Parse, Fixed;
    PowersOfTen();
    ParseFixed(n, 2, 10);
    FixedIsDigits(n, 2, 10);
  }

  lemma FourDigits(n: nat)
    requires n < 10000
    ensures |Fixed(n, 4, 10)| == 4 && Parse(Fixed(n, 4, 10), 10) == Some(n) && '|' !in Fixed(n, 4, 10)
  {
    hide Pow, Parse, Fixed;
    PowersOfTen();
    ParseFixed(n, 4, 10);
    FixedIsDigits(n, 4, 10);
  }

  lemma CivilRoundTrip(c: Civil)
    requires ValidCivil(c)
    ensures |DateTime(c)| == 19 && '|' !in DateTime(c)
    ensures ReadCivil(DateTime(c)) == Some(c.(nano := 0))
  {
    hide Parse, Fixed, ReadCivil;
    FourDigits(c.year);
    TwoDigits(c.month);
    TwoDigits(c.day);
    TwoDigits(c.hour);
    TwoDigits(c.minute);
    TwoDigits(c.second);
    ReadLayout(c, Fixed(c.year, 4, 10), Fixed(c.month, 2, 10), Fixed(c.day, 2, 10),
               Fixed(c.hour, 2, 10), Fixed(c.minute, 2, 10), Fixed(c.second, 2, 10));
  }

  lemma ReadFraction(f: string, nano: nat)
    requires f != "" && AllDigits(f) && ReadNano(f) == Some(nano)
    ensures ReadTail("." + f + "Z") == Some((nano, 0))
  {
    var rest := "." + f + "Z";
    assert rest[1..] == f + "Z";
    DigitRunOf(f, "Z");
    assert rest[1..|f| + 1] == f && rest[|f| + 1..] == "Z";
  }

  lemma ReadBoth(c: Civil, text: string, rest: string, nano: nat)
    requires ValidCivil(c) && |text| == 19 && ReadCivil(text) == Some(c)
    requires ReadTail(rest) == Some((nano, 0))
    ensures ParseInstant(text + rest) == Some(FromCivil(c) + nano)
  {
    var s := text + rest;
    assert s[..19] == text && s[19..] == rest;
  }

  lemma AddNano(c: Civil)
    requires ValidCivil(c)
    ensures FromCivil(c) == FromCivil(c.(nano := 0)) + c.nano
  {
  }

  lemma TailRoundTrip(nano: nat)
    requires nano < SECOND
    ensures ReadTail(Fraction(nano) + "Z") == Some((nano, 0))
    ensures '|' !in Fraction(nano)
  {
    if nano == 0 {
      assert Fraction(nano) + "Z" == "Z";
    } else {
      FractionRoundTrip(nano);
      ReadFraction(TrimZeros(Fixed(nano, 9, 10)), nano);
    }
  }

  lemma PrintedCivil(c: Civil)
    requires ValidCivil(c)
    ensures ParseInstant(DateTime(c) + (Fraction(c.nano) + "Z")) == Some(FromCivil(c))
    ensures '|' !in DateTime(c) + (Fraction(c.nano) + "Z")
  {
    hide ParseInstant, ReadCivil, ReadTail, DateTime, Fraction, FromCivil;
    CivilRoundTrip(c);
    TailRoundTrip(c.nano);
    ReadBoth(c.(nano := 0), DateTime(c), Fraction(c.nano) + "Z", c.nano);
    AddNano(c);
  }

  /** Section 5.6 of RFC 3339: every four-digit-year instant reads back exactly as printed. */
  lemma {:induction false} RoundTrip(t: Instant)
    requires FourDigitYear(t)
    ensures ParseInstant(Format(t)) == Some(t)
    ensures '|' !in Format(t)
  {
    var c := ToCivil(t);
    PrintedCivil(c);
    assert Format(t) == DateTime(c) + (Fraction(c.nano) + "Z");
  }
}
