/** Unpadded base64 (sections 3.2, 4 and 5 of RFC 4648) as Go's RawStdEncoding and RawURLEncoding read and write it. */
module Base64 {
  import opened Basics

  datatype Alphabet = Standard | UrlSafe

  type Sextet = n: nat | n < 64

  function DigitOf(a: Alphabet, i: Sextet): char
  {
    if i < 26 then 'A' + i as char
    else if i < 52 then 'a' + (i - 26) as char
    else if i < 62 then '0' + (i - 52) as char
    else if i == 62 then (if a.Standard? then '+' else '-')
    else (if a.Standard? then '/' else '_')
  }

  function ValueOf(a: Alphabet, c: char): Option<Sextet>
  {
    if 'A' <= c <= 'Z' then Some(c as int - 'A' as int)
    else if 'a' <= c <= 'z' then Some(c as int - 'a' as int + 26)
    else if '0' <= c <= '9' then Some(c as int - '0' as int + 52)
    else if c == (if a.Standard? then '+' else '-') then Some(62)
    else if c == (if a.Standard? then '/' else '_') then Some(63)
    else None
  }

  function Encode(a: Alphabet, b: seq<Byte>): string {
    if b == [] then ""
    else if |b| == 1 then [DigitOf(a, b[0] / 4), DigitOf(a, b[0] % 4 * 16)]
    else if |b| == 2 then
      [DigitOf(a, b[0] / 4), DigitOf(a, b[0] % 4 * 16 + b[1] / 16), DigitOf(a, b[1] % 16 * 4)]
    else
      [DigitOf(a, b[0] / 4), DigitOf(a, b[0] % 4 * 16 + b[1] / 16),
       DigitOf(a, b[1] % 16 * 4 + b[2] / 64), DigitOf(a, b[2] % 64)] + Encode(a, b[3..])
  }

  /** Go's decoder skips carriage returns and line feeds before grouping. */
  function StripNewlines(s: string): string {
    if s == "" then ""
    else if s[0] == '\r' || s[0] == '\n' then StripNewlines(s[1..])
    else [s[0]] + StripNewlines(s[1..])
  }

  function Values(a: Alphabet, s: string): Option<seq<Sextet>>
  {
    if s == "" then Some([])
    else
      match (ValueOf(a, s[0]), Values(a, s[1..]))
      case (Some(v), Some(vs)) => Some([v] + vs)
      case _ => None
  }

  // The three bytes packed into four six-bit groups.
  function Byte0(x: Sextet, y: Sextet): Byte { x as int * 4 + y as int / 16 }
  function Byte1(y: Sextet, z: Sextet): Byte { y as int % 16 * 16 + z as int / 4 }
  function Byte2(z: Sextet, w: Sextet): Byte { z as int % 4 * 64 + w as int }

  /** Bytes of a digit string; a dangling single digit is an error, dangling low bits are dropped. */
  function Ungroup(v: seq<Sextet>): Option<seq<Byte>>
  {
    if v == [] then Some([])
    else if |v| == 1 then None
    else if |v| == 2 then Some([Byte0(v[0], v[1])])
    else if |v| == 3 then Some([Byte0(v[0], v[1]), Byte1(v[1], v[2])])
    else
      match Ungroup(v[4..])
      case None => None
      case Some(rest) =>
        Some([Byte0(v[0], v[1]), Byte1(v[1], v[2]), Byte2(v[2], v[3])] + rest)
  }

  function Decode(a: Alphabet, s: string): Option<seq<Byte>> {
    match Values(a, StripNewlines(s))
    case None => None
    case Some(v) => Ungroup(v)
  }

  lemma ValueOfDigit(a: Alphabet, i: Sextet)
    ensures ValueOf(a, DigitOf(a, i)) == Some(i)
    ensures DigitOf(a, i) != '\r' && DigitOf(a, i) != '\n' && DigitOf(a, i) != '$'
  {
  }

  /** The six-bit groups behind an encoding. */
  function Groups(b: seq<Byte>): seq<Sextet>
  {
    if b == [] then []
    else if |b| == 1 then [b[0] / 4, b[0] % 4 * 16]
    else if |b| == 2 then [b[0] / 4, b[0] % 4 * 16 + b[1] / 16, b[1] % 16 * 4]
    else [b[0] / 4, b[0] % 4 * 16 + b[1] / 16, b[1] % 16 * 4 + b[2] / 64, b[2] % 64] + Groups(b[3..])
  }

  function Spell(a: Alphabet, v: seq<Sextet>): (s: string)
    ensures |s| == |v|
    ensures forall k :: 0 <= k < |s| ==> s[k] == DigitOf(a, v[k])
  {
    seq(|v|, k requires 0 <= k < |v| => DigitOf(a, v[k]))
  }

  lemma {:induction false} EncodeSpells(a: Alphabet, b: seq<Byte>)
    ensures Encode(a, b) == Spell(a, Groups(b))
  {
    if |b| >= 3 {
      EncodeSpells(a, b[3..]);
    }
  }

  lemma {:induction false} UngroupGroups(b: seq<Byte>)
    ensures Ungroup(Groups(b)) == Some(b)
  {
    var v := Groups(b);
    if b == [] {
    } else if |b| == 1 {
      assert b == [b[0]] == [Byte0(v[0], v[1])];
    } else if |b| == 2 {
      assert b == [b[0], b[1]] == [Byte0(v[0], v[1]), Byte1(v[1], v[2])];
    } else {
      UngroupGroups(b[3..]);
      assert v[4..] == Groups(b[3..]);
      assert b == [b[0], b[1], b[2]] + b[3..];
    }
  }

  lemma {:induction false} ValuesSpell(a: Alphabet, v: seq<Sextet>)
    ensures Values(a, Spell(a, v)) == Some(v)
    ensures StripNewlines(Spell(a, v)) == Spell(a, v)
    ensures '$' !in Spell(a, v)
  {
    var s := Spell(a, v);
    forall k | 0 <= k < |v| ensures s[k] != '$' { ValueOfDigit(a, v[k]); }
    if v != [] {
      ValueOfDigit(a, v[0]);
      assert s[1..] == Spell(a, v[1..]);
      ValuesSpell(a, v[1..]);
      assert [s[0]] + s[1..] == s;
      assert [v[0]] + v[1..] == v;
    }
  }

  /** Which characters an encoding is made of. */
  lemma Characters(b: seq<Byte>)
    ensures forall c <- Encode(Standard, b) ::
              'A' <= c <= 'Z' || 'a' <= c <= 'z' || '0' <= c <= '9' || c == '+' || c == '/'
    ensures forall c <- Encode(UrlSafe, b) ::
              'A' <= c <= 'Z' || 'a' <= c <= 'z' || '0' <= c <= '9' || c == '-' || c == '_'
  {
    EncodeSpells(Standard, b);
    EncodeSpells(UrlSafe, b);
  }

  /** Section 10 of RFC 4648, without the padding: the encodings of f, fo, foo and foob. */
  lemma Vectors()
    ensures Encode(Standard, [102]) == "Zg" && Encode(Standard, [102, 111]) == "Zm8"
    ensures Encode(Standard, [102, 111, 111]) == "Zm9v" && Encode(Standard, [102, 111, 111, 98]) == "Zm9vYg"
  {
    assert [102, 111, 111][3..] == [] && [102, 111, 111, 98][3..] == [98];
    assert Encode(Standard, [98]) == "Yg" && Encode(Standard, []) == "";
  }

  /** Section 3.2 of RFC 4648: unpadded encodings of every byte string decode to it, in both alphabets. */
  lemma {:induction false} RoundTrip(a: Alphabet, b: seq<Byte>)
    ensures Decode(a, Encode(a, b)) == Some(b)
    ensures '$' !in Encode(a, b)
    ensures b != [] ==> Encode(a, b) != ""
  {
    EncodeSpells(a, b);
    ValuesSpell(a, Groups(b));
    UngroupGroups(b);
  }
}
