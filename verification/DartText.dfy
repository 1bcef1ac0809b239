/** Dart's String.trim, and UTF-8 with percent-encoding as Uri.encodeComponent does it. */
module DartText {
  import opened Basics
  import opened Numerals

  /** The Unicode White_Space characters and the byte order mark. */
  predicate IsSpace(c: char) {
    var n := c as int;
    || 0x9 <= n <= 0xD || n == 0x20 || n == 0x85 || n == 0xA0 || n == 0x1680 || 0x2000 <= n <= 0x200A
    || n == 0x2028 || n == 0x2029 || n == 0x202F || n == 0x205F || n == 0x3000 || n == 0xFEFF
  }

  function TrimLeft(s: string): string {
    if s != "" && IsSpace(s[0]) then TrimLeft(s[1..]) else s
  }

  function TrimRight(s: string): string {
    if s != "" && IsSpace(s[|s| - 1]) then TrimRight(s[..|s| - 1]) else s
  }

  function Trim(s: string): string { TrimRight(TrimLeft(s)) }

  /** Nothing to trim. */
  predicate Tidy(s: string) {
    s == "" || (!IsSpace(s[0]) && !IsSpace(s[|s| - 1]))
  }

  predicate Blank(s: string) { Trim(s) == "" }

  lemma {:induction false} TrimRightKeepsHead(s: string)
    requires s != "" && !IsSpace(s[0])
    ensures TrimRight(s) != "" && TrimRight(s)[0] == s[0]
    ensures !IsSpace(TrimRight(s)[|TrimRight(s)| - 1])
  {
    if IsSpace(s[|s| - 1]) {
      assert |s| > 1;
      TrimRightKeepsHead(s[..|s| - 1]);
    }
  }

  lemma {:induction false} TrimLeftHead(s: string)
    ensures TrimLeft(s) == "" || !IsSpace(TrimLeft(s)[0])
  {
    if s != "" && IsSpace(s[0]) {
      TrimLeftHead(s[1..]);
    }
  }

  /** Trimming leaves nothing to trim, and changes only what had something. */
  lemma TrimIsTidy(s: string)
    ensures Tidy(Trim(s))
    ensures Tidy(s) ==> Trim(s) == s
    ensures Trim(s) == s ==> Tidy(s)
  {
    TrimLeftHead(s);
    if TrimLeft(s) != "" {
      TrimRightKeepsHead(TrimLeft(s));
    }
  }

  lemma {:induction false} TrimLeftSplits(s: string) returns (left: string)
    ensures s == left + TrimLeft(s) && forall c <- left :: IsSpace(c)
  {
    if s != "" && IsSpace(s[0]) {
      left := TrimLeftSplits(s[1..]);
      assert s == [s[0]] + s[1..];
      left := [s[0]] + left;
    } else {
      left := "";
    }
  }

  lemma {:induction false} TrimRightSplits(s: string) returns (right: string)
    ensures s == TrimRight(s) + right && forall c <- right :: IsSpace(c)
  {
    if s != "" && IsSpace(s[|s| - 1]) {
      right := TrimRightSplits(s[..|s| - 1]);
      assert s == s[..|s| - 1] + [s[|s| - 1]];
      right := right + [s[|s| - 1]];
    } else {
      right := "";
    }
  }

  /** Only whitespace goes, and only from the ends; with TrimIsTidy, all of it. */
  lemma TrimIs(s: string) returns (left: string, right: string)
    ensures s == left + Trim(s) + right
    ensures forall c <- left + right :: IsSpace(c)
    ensures Trim(s) != "" ==> !IsSpace(Trim(s)[0]) && !IsSpace(Trim(s)[|Trim(s)| - 1])
  {
    left := TrimLeftSplits(s);
    right := TrimRightSplits(TrimLeft(s));
    TrimIsTidy(s);
  }

  /** The whitespace of Unicode, character by character, and the byte order mark. */
  lemma IsSpaceIs(c: char)
    ensures IsSpace(c) <==>
            c as int in {9, 10, 11, 12, 13, 32, 133, 160, 5760, 8192, 8193, 8194, 8195, 8196, 8197, 8198, 8199, 8200,
                         8201, 8202, 8232, 8233, 8239, 8287, 12288, 65279}
  {
  }

  lemma TrimTwice(s: string)
    ensures Trim(Trim(s)) == Trim(s)
  {
    TrimIsTidy(s);
    TrimIsTidy(Trim(s));
  }

  /** The UTF-8 bytes of a character. */
  function CharBytes(c: char): (b: seq<Byte>)
    ensures 1 <= |b| <= 4
  {
    var n := c as int;
    if n < 0x80 then [n]
    else if n < 0x800 then [0xC0 + n / 64, 0x80 + n % 64]
    else if n < 0x10000 then [0xE0 + n / 4096, 0x80 + n / 64 % 64, 0x80 + n % 64]
    else [0xF0 + n / 262144, 0x80 + n / 4096 % 64, 0x80 + n / 64 % 64, 0x80 + n % 64]
  }

  /** Examples of section 7 of RFC 3629. */
  lemma Utf8Examples()
    ensures CharBytes('\U{0041}') == [0x41] && CharBytes('\U{0391}') == [0xCE, 0x91]
    ensures CharBytes('\U{2262}') == [0xE2, 0x89, 0xA2] && CharBytes('\U{233B4}') == [0xF0, 0xA3, 0x8E, 0xB4]
  {
  }

  predicate IsScalar(n: int) { 0 <= n < 0xD800 || 0xE000 <= n < 0x110000 }

  /** How many bytes the character starting with this byte takes. */
  function Width(first: Byte): nat {
    if first < 0x80 then 1 else if first < 0xE0 then 2 else if first < 0xF0 then 3 else 4
  }

  function CodePoint(b: seq<Byte>): int
    requires 1 <= |b| <= 4
  {
    if |b| == 1 then b[0]
    else if |b| == 2 then (b[0] as int - 0xC0) * 64 + (b[1] as int - 0x80)
    else if |b| == 3 then (b[0] as int - 0xE0) * 4096 + (b[1] as int - 0x80) * 64 + (b[2] as int - 0x80)
    else (b[0] as int - 0xF0) * 262144 + (b[1] as int - 0x80) * 4096 + (b[2] as int - 0x80) * 64 + (b[3] as int - 0x80)
  }

  predicate Continues(b: seq<Byte>) {
    forall i :: 1 <= i < |b| ==> 0x80 <= b[i] < 0xC0
  }

  /** Reads UTF-8; overlong forms are not told apart. */
  function FromUtf8(b: seq<Byte>): Option<string> {
    if b == [] then Some("")
    else
      var w := Width(b[0]);
      if |b| < w || !Continues(b[..w]) || !IsScalar(CodePoint(b[..w])) then None
      else match FromUtf8(b[w..]) case None => None case Some(rest) => Some([CodePoint(b[..w]) as char] + rest)
  }

  lemma CharRoundTrip(c: char)
    ensures var b := CharBytes(c);
            |b| == Width(b[0]) && Continues(b) && CodePoint(b) == c as int && IsScalar(CodePoint(b))
  {
    var n := c as int;
    if n < 0x80 {
    } else if n < 0x800 {
      Sixtyfours(n);
    } else if n < 0x10000 {
      Sixtyfours(n);
      Sixtyfours(n / 64);
      assert n / 64 / 64 == n / 4096;
    } else {
      Sixtyfours(n);
      Sixtyfours(n / 64);
      Sixtyfours(n / 64 / 64);
      assert n / 64 / 64 == n / 4096 && n / 4096 / 64 == n / 262144;
    }
  }

  lemma Sixtyfours(n: nat)
    ensures n == n / 64 * 64 + n % 64 && n % 64 < 64
  {
  }

  function Utf8(s: string): seq<Byte> {
    if s == "" then [] else CharBytes(s[0]) + Utf8(s[1..])
  }

  lemma {:induction false} Utf8RoundTrip(s: string)
    ensures FromUtf8(Utf8(s)) == Some(s)
  {
    if s != "" {
      var b := CharBytes(s[0]);
      CharRoundTrip(s[0]);
      Utf8RoundTrip(s[1..]);
      assert (b + Utf8(s[1..]))[..|b|] == b && (b + Utf8(s[1..]))[|b|..] == Utf8(s[1..]);
      assert [s[0]] + s[1..] == s;
    }
  }

  /** The characters Uri.encodeComponent leaves as they are. */
  predicate Unreserved(b: Byte) {
    || 'A' as int <= b <= 'Z' as int || 'a' as int <= b <= 'z' as int || '0' as int <= b <= '9' as int
    || (b < 128 && b as char in "-_.!~*'()")
  }

  /** Percent-encoding prints its hex digits in upper case. */
  function HexDigit(d: nat): char
    requires d < 16
  {
    if d < 10 then DigitChar(d) else 'A' + (d - 10) as char
  }

  function PercentByte(b: Byte): string {
    if Unreserved(b) then [b as char] else ['%', HexDigit(b / 16), HexDigit(b % 16)]
  }

  function PercentBytes(b: seq<Byte>): string {
    if b == [] then "" else PercentByte(b[0]) + PercentBytes(b[1..])
  }

  /** Uri.encodeComponent. */
  function EncodeComponent(s: string): string { PercentBytes(Utf8(s)) }

  lemma {:induction false} Utf8Concat(a: string, b: string)
    ensures Utf8(a + b) == Utf8(a) + Utf8(b)
  {
    if a == "" {
      assert a + b == b;
    } else {
      assert (a + b)[1..] == a[1..] + b;
      Utf8Concat(a[1..], b);
    }
  }

  lemma {:induction false} PercentConcat(a: seq<Byte>, b: seq<Byte>)
    ensures PercentBytes(a + b) == PercentBytes(a) + PercentBytes(b)
  {
    if a == [] {
      assert a + b == b;
    } else {
      assert (a + b)[1..] == a[1..] + b;
      PercentConcat(a[1..], b);
    }
  }

  /** Text is encoded character by character. */
  lemma EncodeConcat(a: string, b: string)
    ensures EncodeComponent(a + b) == EncodeComponent(a) + EncodeComponent(b)
    ensures EncodeComponent("") == ""
  {
    Utf8Concat(a, b);
    PercentConcat(Utf8(a), Utf8(b));
  }

  /** Unreserved characters stay as they are; the rest of ASCII becomes a percent sign and two upper-case hex digits. */
  lemma EncodeAscii(c: char)
    requires c as int < 128
    ensures 'A' <= c <= 'Z' || 'a' <= c <= 'z' || '0' <= c <= '9' || c in "-_.!~*'()" ==> EncodeComponent([c]) == [c]
    ensures !('A' <= c <= 'Z' || 'a' <= c <= 'z' || '0' <= c <= '9' || c in "-_.!~*'()") ==>
              EncodeComponent([c]) == ['%', "0123456789ABCDEF"[c as int / 16], "0123456789ABCDEF"[c as int % 16]]
  {
    var b := c as int;
    assert Utf8([c]) == [b] by {
      assert [c][1..] == "" && Utf8("") == [] && CharBytes(c) == [b];
    }
    assert PercentBytes([b]) == PercentByte(b) by {
      assert [b][1..] == [] && PercentBytes([]) == "";
    }
    assert HexDigit(b / 16) == "0123456789ABCDEF"[b / 16] && HexDigit(b % 16) == "0123456789ABCDEF"[b % 16];
  }

  /** The bytes percent-encoded text stands for (section 2.1 of RFC 3986). */
  function UnpercentBytes(s: string): Option<seq<Byte>> {
    if s == "" then Some([])
    else if s[0] == '%' then
      if |s| < 3 then None
      else
        match (DigitValue(s[1]), DigitValue(s[2]), UnpercentBytes(s[3..]))
        case (Some(h), Some(l), Some(rest)) => Some([h * 16 + l] + rest)
        case _ => None
    else if s[0] as int >= 128 then None
    else match UnpercentBytes(s[1..]) case Some(rest) => Some([s[0] as int] + rest) case None => None
  }

  function DecodeComponent(s: string): Option<string> {
    match UnpercentBytes(s) case Some(b) => FromUtf8(b) case None => None
  }

  lemma HexRoundTrip(b: Byte)
    ensures DigitValue(HexDigit(b / 16)) == Some(b / 16) && DigitValue(HexDigit(b % 16)) == Some(b % 16)
    ensures b / 16 * 16 + b % 16 == b && b / 16 < 16
    ensures HexDigit(b / 16) in "0123456789ABCDEF" && HexDigit(b % 16) in "0123456789ABCDEF"
  {
    HexDigitIs(b / 16);
    HexDigitIs(b % 16);
  }

  lemma HexDigitIs(d: nat)
    requires d < 16
    ensures DigitValue(HexDigit(d)) == Some(d) && HexDigit(d) in "0123456789ABCDEF"
  {
    assert "0123456789ABCDEF"[d] == HexDigit(d);
  }

  lemma UnreservedIsAscii(b: Byte)
    requires Unreserved(b)
    ensures b < 128 && b as char !in "%?&="
  {
  }

  lemma {:induction false} PercentRoundTrip(b: seq<Byte>)
    ensures UnpercentBytes(PercentBytes(b)) == Some(b)
  {
    hide HexDigit, DigitValue, Unreserved;
    if b != [] {
      PercentRoundTrip(b[1..]);
      HexRoundTrip(b[0]);
      if Unreserved(b[0]) { UnreservedIsAscii(b[0]); }
      var head, rest := PercentByte(b[0]), PercentBytes(b[1..]);
      assert (head + rest)[|head|..] == rest;
      assert [b[0]] + b[1..] == b;
    }
  }

  /** Percent-encoded text can be put between any separators that are not unreserved. */
  lemma {:induction false} PercentAvoids(b: seq<Byte>, c: char)
    requires c in "?&="
    ensures c !in PercentBytes(b)
  {
    hide HexDigit, Unreserved;
    if b != [] {
      PercentAvoids(b[1..], c);
      HexRoundTrip(b[0]);
      if Unreserved(b[0]) { UnreservedIsAscii(b[0]); }
      assert c !in "0123456789ABCDEF";
    }
  }

  /** Sections 2.1 of RFC 3986: decoding gives back what was encoded, for all text. */
  lemma ComponentRoundTrip(s: string)
    ensures DecodeComponent(EncodeComponent(s)) == Some(s)
    ensures '?' !in EncodeComponent(s) && '&' !in EncodeComponent(s) && '=' !in EncodeComponent(s)
  {
    Utf8RoundTrip(s);
    PercentRoundTrip(Utf8(s));
    PercentAvoids(Utf8(s), '?');
    PercentAvoids(Utf8(s), '&');
    PercentAvoids(Utf8(s), '=');
  }
}
