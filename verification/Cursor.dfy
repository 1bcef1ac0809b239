/**
 Keyset cursors and the opaque tokens that carry them: backend/internal/codes/service.go, encodeCursor and
 decodeCursor.
 */
module Cursor {
  import opened Basics
  import opened Numerals
  import opened Rfc3339
  import Base64

  /** A UUID as the number its sixteen bytes spell, so that Postgres's byte order is the order of numbers. */
  type Uuid = n: nat | n < 0x1_0000_0000_0000_0000_0000_0000_0000_0000

  /** A position in the (created_at, id) order of a list. */
  datatype Key = Key(createdAt: Instant, id: Uuid)

  /** Postgres's row comparison (created_at, id) < ($2, $3). */
  predicate Before(a: Key, b: Key) {
    a.createdAt < b.createdAt || (a.createdAt == b.createdAt && a.id < b.id)
  }

  function UuidText(u: Uuid): string {
    var hex := Fixed(u, 32, 16);
    hex[..8] + "-" + hex[8..12] + "-" + hex[12..16] + "-" + hex[16..20] + "-" + hex[20..]
  }

  /** uuid.Parse also takes a urn prefix (in any case), one character around each end, and no dashes at all. */
  function UuidDigits(s: string): Option<string> {
    if |s| == 32 then Some(s)
    else if |s| == 38 then Dashed(s[1..37])
    else if |s| == 45 && UrnPrefix(s[..9]) then Dashed(s[9..])
    else if |s| == 36 then Dashed(s)
    else None
  }

  predicate UrnPrefix(s: string)
    requires |s| == 9
  {
    forall k :: 0 <= k < 9 ==> s[k] == "urn:uuid:"[k] || s[k] == "URN:UUID:"[k]
  }

  function Dashed(s: string): Option<string>
    requires |s| == 36
  {
    if s[8] == '-' && s[13] == '-' && s[18] == '-' && s[23] == '-'
    then Some(s[..8] + s[9..13] + s[14..18] + s[19..23] + s[24..])
    else None
  }

  function ParseUuid(s: string): Option<Uuid> {
    match UuidDigits(s)
    case None => None
    case Some(hex) =>
      match Parse(hex, 16)
      case Some(n) => if n < 0x1_0000_0000_0000_0000_0000_0000_0000_0000 then Some(n) else None
      case None => None
  }

  /** A Go string's bytes; the text of a cursor is plain ASCII. */
  function ByteOf(c: char): Byte
    requires c as int < 256
  {
    c as int
  }

  function ToBytes(s: string): seq<Byte>
    requires forall c <- s :: c as int < 256
  {
    seq(|s|, k requires 0 <= k < |s| => assert s[k] in s; ByteOf(s[k]))
  }

  function FromBytes(b: seq<Byte>): string {
    seq(|b|, k requires 0 <= k < |b| => b[k] as char)
  }

  predicate Encodable(c: Key) { FourDigitYear(c.createdAt) }

  function Text(c: Key): string
    requires Encodable(c)
  {
    Format(c.createdAt) + "|" + UuidText(c.id)
  }

  function Encode(c: Key): string
    requires Encodable(c)
  {
    TextIsAscii(c);
    Base64.Encode(Base64.UrlSafe, ToBytes(Text(c)))
  }

  function Decode(token: string): Option<Key> {
    match Base64.Decode(Base64.UrlSafe, token)
    case None => None
    case Some(b) =>
      match SplitFirst(FromBytes(b), '|')
      case None => None
      case Some(parts) =>
        match (ParseInstant(parts.0), ParseUuid(parts.1))
        case (Some(t), Some(id)) => Some(Key(t, id))
        case _ => None
  }

  lemma {:induction false} PowAdd(b: Base, m: nat, n: nat)
    ensures Pow(b, m + n) == Pow(b, m) * Pow(b, n)
  {
    if m > 0 {
      PowAdd(b, m - 1, n);
      MulAssoc(b, Pow(b, m - 1), Pow(b, n));
      assert Pow(b, m + n) == b * Pow(b, m - 1 + n);
    }
  }

  lemma MulAssoc(a: nat, b: nat, c: nat)
    ensures a * (b * c) == a * b * c
  {
  }

  lemma UuidWidth()
    ensures Pow(16, 32) == 0x1_0000_0000_0000_0000_0000_0000_0000_0000
  {
    assert Pow(16, 4) == 16 * Pow(16, 3) == 256 * Pow(16, 2);
    PowAdd(16, 4, 4);
    PowAdd(16, 8, 8);
    PowAdd(16, 16, 16);
  }

  lemma DashedParts(hex: string)
    requires |hex| == 32
    ensures var s := hex[..8] + "-" + hex[8..12] + "-" + hex[12..16] + "-" + hex[16..20] + "-" + hex[20..];
            |s| == 36 && UuidDigits(s) == Some(hex)
  {
    var s := hex[..8] + "-" + hex[8..12] + "-" + hex[12..16] + "-" + hex[16..20] + "-" + hex[20..];
    assert s[..8] == hex[..8] && s[9..13] == hex[8..12] && s[14..18] == hex[12..16];
    assert s[19..23] == hex[16..20] && s[24..] == hex[20..];
    assert hex == hex[..8] + hex[8..12] + hex[12..16] + hex[16..20] + hex[20..];
  }

  lemma UuidRoundTrip(u: Uuid)
    ensures ParseUuid(UuidText(u)) == Some(u)
  {
    UuidWidth();
    ParseFixed(u, 32, 16);
    DashedParts(Fixed(u, 32, 16));
  }

  lemma {:induction false} FixedIsLower(n: nat, width: nat)
    ensures forall c <- Fixed(n, width, 16) :: c in "0123456789abcdef"
  {
    if width > 0 {
      FixedIsLower(n / 16, width - 1);
      assert DigitChar(n % 16) == "0123456789abcdef"[n % 16];
    }
  }

  /** Thirty-two lower-case hex digits in groups of 8, 4, 4, 4 and 12. */
  lemma UuidTextIs(u: Uuid)
    ensures var s := UuidText(u);
            && |s| == 36 && s[8] == '-' && s[13] == '-' && s[18] == '-' && s[23] == '-'
            && (forall i :: 0 <= i < 36 && i !in {8, 13, 18, 23} ==> s[i] in "0123456789abcdef")
            && Parse(s[..8] + s[9..13] + s[14..18] + s[19..23] + s[24..], 16) == Some(u)
  {
    hide Parse;
    var hex, s := Fixed(u, 32, 16), UuidText(u);
    DashedParts(hex);
    UuidWidth();
    ParseFixed(u, 32, 16);
    FixedIsLower(u, 32);
    assert s[..8] == hex[..8] && s[9..13] == hex[8..12] && s[14..18] == hex[12..16];
    assert s[19..23] == hex[16..20] && s[24..] == hex[20..];
    assert hex == hex[..8] + hex[8..12] + hex[12..16] + hex[16..20] + hex[20..];
    forall i | 0 <= i < 36 && i !in {8, 13, 18, 23} ensures s[i] in hex {
      assert s[i] == hex[i - if i < 8 then 0 else if i < 13 then 1 else if i < 18 then 2 else if i < 23 then 3 else 4];
    }
  }

  lemma {:induction false} FixedIsAscii(n: nat, width: nat, b: Base)
    ensures forall c <- Fixed(n, width, b) :: c as int < 128
  {
    if width > 0 {
      FixedIsAscii(n / b, width - 1, b);
    }
  }

  lemma {:induction false} TrimIsShorter(s: string)
    ensures forall c <- TrimZeros(s) :: c in s
  {
    if s != "" && s[|s| - 1] == '0' {
      TrimIsShorter(s[..|s| - 1]);
    }
  }

  lemma UuidIsAscii(u: Uuid)
    ensures forall x <- UuidText(u) :: x as int < 128
  {
    var hex := Fixed(u, 32, 16);
    FixedIsAscii(u, 32, 16);
    forall x | x in UuidText(u) ensures x == '-' || x in hex {
      assert x in hex[..8] || x in hex[8..12] || x in hex[12..16] || x in hex[16..20] || x in hex[20..] || x == '-';
    }
  }

  lemma TextIsAscii(c: Key)
    requires Encodable(c)
    ensures forall x <- Text(c) :: x as int < 256
  {
    var t := ToCivil(c.createdAt);
    DateTimeIsAscii(t);
    FixedIsAscii(t.nano, 9, 10);
    TrimIsShorter(Fixed(t.nano, 9, 10));
    UuidIsAscii(c.id);
    var when, fraction, id := DateTime(t), Fraction(t.nano), UuidText(c.id);
    assert forall x <- fraction :: x as int < 128;
    assert Text(c) == when + fraction + "Z" + "|" + id;
  }

  lemma DateTimeIsAscii(t: Civil)
    ensures forall x <- DateTime(t) :: x as int < 128
  {
    FixedIsAscii(t.year, 4, 10);
    FixedIsAscii(t.month, 2, 10);
    FixedIsAscii(t.day, 2, 10);
    FixedIsAscii(t.hour, 2, 10);
    FixedIsAscii(t.minute, 2, 10);
    FixedIsAscii(t.second, 2, 10);
  }

  /** Tokens carry their cursor exactly, and are never the empty string that means "first page". */
  lemma {:induction false} RoundTrip(c: Key)
    requires Encodable(c)
    ensures Decode(Encode(c)) == Some(c)
    ensures Encode(c) != ""
  {
    TextIsAscii(c);
    var text := Text(c);
    var b := ToBytes(text);
    Base64.RoundTrip(Base64.UrlSafe, b);
    assert FromBytes(b) == text;
    Rfc3339.RoundTrip(c.createdAt);
    SplitFirstOf(Format(c.createdAt), '|', UuidText(c.id));
    UuidRoundTrip(c.id);
  }

  /** Different cursors never share a token. */
  lemma EncodeInjective(a: Key, b: Key)
    requires Encodable(a) && Encodable(b) && Encode(a) == Encode(b)
    ensures a == b
  {
    RoundTrip(a);
    RoundTrip(b);
  }
}
