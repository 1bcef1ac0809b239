/**
 Password hashes as PHC strings: backend/internal/auth/password.go. argon2id is a function of its parameters; passwords
 are the bytes of Go strings.
 */
module Password {
  import opened Basics
  import opened Numerals
  import opened Rfc3339
  import opened DartText
  import Base64

  /** Password, salt, passes, memory in KiB, threads, and how many bytes to produce. */
  type Kdf = (seq<Byte>, seq<Byte>, nat, nat, nat, nat) -> seq<Byte>

  const ARGON_VERSION := 19
  const ARGON_TIME := 1
  const ARGON_MEMORY := 65536
  const ARGON_THREADS := 4
  const ARGON_KEY_LEN := 32
  const ARGON_SALT_LEN := 16

  function Derived(kdf: Kdf, password: seq<Byte>, salt: seq<Byte>): seq<Byte> {
    kdf(password, salt, ARGON_TIME, ARGON_MEMORY, ARGON_THREADS, ARGON_KEY_LEN)
  }

  function Params(memory: nat, time: nat, threads: nat): string {
    "m=" + Decimal(memory) + ",t=" + Decimal(time) + ",p=" + Decimal(threads)
  }

  function Phc(version: nat, params: string, salt: seq<Byte>, hash: seq<Byte>): string {
    "$argon2id$v=" + Decimal(version) + "$" + params + "$" + Base64.Encode(Base64.Standard, salt) + "$"
    + Base64.Encode(Base64.Standard, hash)
  }

  function Hashed(kdf: Kdf, password: seq<Byte>, salt: seq<Byte>): string {
    Phc(ARGON_VERSION, Params(ARGON_MEMORY, ARGON_TIME, ARGON_THREADS), salt, Derived(kdf, password, salt))
  }

  /** rand.Read fills the buffer, or fails when there is no entropy. */
  method ReadRandom(buffer: array<Byte>, entropy: Option<seq<Byte>>) returns (failed: bool)
    requires entropy.Some? ==> |entropy.value| == buffer.Length
    modifies buffer
    ensures failed <==> entropy.None?
    ensures !failed ==> buffer[..] == entropy.value
  {
    if entropy.None? {
      return true;
    }
    for i := 0 to buffer.Length
      invariant buffer[..i] == entropy.value[..i]
    {
      buffer[i] := entropy.value[i];
    }
    assert buffer[..] == buffer[..buffer.Length] && entropy.value[..buffer.Length] == entropy.value;
    failed := false;
  }

  method HashPassword(kdf: Kdf, password: seq<Byte>, entropy: Option<seq<Byte>>) returns (r: Option<string>)
    requires entropy.Some? ==> |entropy.value| == ARGON_SALT_LEN
    ensures r == if entropy.Some? then Some(Hashed(kdf, password, entropy.value)) else None
  {
    var salt := new Byte[ARGON_SALT_LEN];
    var failed := ReadRandom(salt, entropy);
    if failed {
      return None;
    }
    var hash := kdf(password, salt[..], ARGON_TIME, ARGON_MEMORY, ARGON_THREADS, ARGON_KEY_LEN);
    r := Some("$argon2id$v=" + Decimal(ARGON_VERSION) + "$" + Params(ARGON_MEMORY, ARGON_TIME, ARGON_THREADS) + "$"
              + Base64.Encode(Base64.Standard, salt[..]) + "$" + Base64.Encode(Base64.Standard, hash));
  }

  datatype VerifyError = InvalidHash | UnreadableVersion | IncompatibleVersion | UnreadableParams | BadSalt | BadHash

  /** Spaces before a number are skipped; a newline ends the scan. */
  function SkipSpace(s: string): string {
    if s != "" && s[0] != '\n' && IsSpace(s[0]) && s[0] as int != 0xFEFF then SkipSpace(s[1..]) else s
  }

  /** %d into an unsigned variable: digits up to the largest value, and what follows them. */
  function ScanUint(s: string, most: nat): Option<(nat, string)> {
    var t := SkipSpace(s);
    var n := DigitRun(t);
    if n == 0 then None
    else match Parse(t[..n], 10)
         case Some(v) => if v <= most then Some((v, t[n..])) else None
         case None => None
  }

  /** %d into an int: a sign may come first. */
  function ScanInt(s: string): Option<int> {
    var t := SkipSpace(s);
    var signed := t != "" && t[0] in "+-";
    var digits := if signed then t[1..] else t;
    var n := DigitRun(digits);
    if n == 0 then None
    else match Parse(digits[..n], 10)
         case None => None
         case Some(v) =>
           var value: int := if signed && t[0] == '-' then -(v as int) else v;
           if -0x8000_0000_0000_0000 <= value < 0x8000_0000_0000_0000 then Some(value) else None
  }

  function ScanLiteral(s: string, literal: string): Option<string> {
    if literal <= s then Some(s[|literal|..]) else None
  }

  /** Sscanf with v=%d; what follows the number is not looked at. */
  function ScanVersion(s: string): Option<int> {
    match ScanLiteral(s, "v=") case Some(rest) => ScanInt(rest) case None => None
  }

  /** A literal, then a number. */
  function ScanField(s: string, literal: string, most: nat): Option<(nat, string)> {
    match ScanLiteral(s, literal) case Some(rest) => ScanUint(rest, most) case None => None
  }

  datatype Costs = Costs(memory: nat, time: nat, threads: nat)

  /** Sscanf with m=%d,t=%d,p=%d into uint32, uint32 and uint8. */
  function ScanCosts(s: string): Option<Costs> {
    match ScanField(s, "m=", 0xFFFF_FFFF)
    case None => None
    case Some(m) =>
      match ScanField(m.1, ",t=", 0xFFFF_FFFF)
      case None => None
      case Some(t) =>
        match ScanField(t.1, ",p=", 255)
        case None => None
        case Some(p) => Some(Costs(m.0, t.0, p.0))
  }

  function Verify(kdf: Kdf, password: seq<Byte>, encoded: string): Result<bool, VerifyError> {
    var parts := Split(encoded, '$');
    if |parts| != 6 || parts[0] != "" || parts[1] != "argon2id" then Err(InvalidHash)
    else
      match ScanVersion(parts[2])
      case None => Err(UnreadableVersion)
      case Some(version) =>
        if version != ARGON_VERSION then Err(IncompatibleVersion)
        else
          match (ScanCosts(parts[3]),
                 Base64.Decode(Base64.Standard, parts[4]), Base64.Decode(Base64.Standard, parts[5]))
          case (None, _, _) => Err(UnreadableParams)
          case (_, None, _) => Err(BadSalt)
          case (_, _, None) => Err(BadHash)
          case (Some(c), Some(salt), Some(expected)) =>
            Ok(kdf(password, salt, c.time, c.memory, c.threads, |expected|) == expected)
  }

  // ---- printing and parsing ----

  lemma DigitsFirst(digits: string, rest: string)
    requires AllDigits(digits) && digits != "" && (rest == "" || !IsDigit(rest[0]))
    ensures var s := digits + rest; SkipSpace(s) == s && DigitRun(s) == |digits| && s[0] !in "+-"
    ensures (digits + rest)[..|digits|] == digits && (digits + rest)[|digits|..] == rest
  {
    DigitRunOf(digits, rest);
    assert digits[0] in digits && (digits + rest)[0] == digits[0];
  }

  lemma ScansDecimal(n: nat, rest: string, most: nat)
    requires n <= most && (rest == "" || !IsDigit(rest[0]))
    ensures ScanUint(Decimal(n) + rest, most) == Some((n, rest))
  {
    hide Parse, Decimal, DigitRun, SkipSpace;
    ParseDecimal(n);
    DigitsFirst(Decimal(n), rest);
  }

  lemma ScansField(literal: string, n: nat, rest: string, most: nat)
    requires n <= most && (rest == "" || !IsDigit(rest[0]))
    ensures ScanField(literal + (Decimal(n) + rest), literal, most) == Some((n, rest))
  {
    hide ScanUint, Decimal;
    var s := literal + (Decimal(n) + rest);
    assert s[|literal|..] == Decimal(n) + rest;
    ScansDecimal(n, rest, most);
  }

  lemma CostsRoundTrip(memory: nat, time: nat, threads: nat)
    requires memory <= 0xFFFF_FFFF && time <= 0xFFFF_FFFF && threads <= 255
    ensures ScanCosts(Params(memory, time, threads)) == Some(Costs(memory, time, threads))
  {
    hide ScanField, Decimal;
    var p := ",p=" + (Decimal(threads) + "");
    var t := ",t=" + (Decimal(time) + p);
    assert Params(memory, time, threads) == "m=" + (Decimal(memory) + t);
    ScansField("m=", memory, t, 0xFFFF_FFFF);
    ScansField(",t=", time, p, 0xFFFF_FFFF);
    ScansField(",p=", threads, "", 255);
  }

  lemma VersionRoundTrip(version: nat)
    requires version < 0x8000_0000_0000_0000
    ensures ScanVersion("v=" + Decimal(version)) == Some(version)
  {
    hide Parse, Decimal, DigitRun, SkipSpace;
    var s := "v=" + Decimal(version);
    assert s[2..] == Decimal(version) + "" && Decimal(version) + "" == Decimal(version);
    ParseDecimal(version);
    DigitsFirst(Decimal(version), "");
  }

  lemma ParamsHaveNoDollar(memory: nat, time: nat, threads: nat)
    ensures '$' !in Params(memory, time, threads)
  {
    hide Decimal;
    ParseDecimal(memory);
    ParseDecimal(time);
    ParseDecimal(threads);
  }

  /** The six parts of a printed hash. */
  lemma PhcParts(version: nat, params: string, salt: seq<Byte>, hash: seq<Byte>)
    requires '$' !in params
    ensures Split(Phc(version, params, salt, hash), '$')
            == ["", "argon2id", "v=" + Decimal(version), params, Base64.Encode(Base64.Standard, salt),
                Base64.Encode(Base64.Standard, hash)]
  {
    hide Decimal, Split, Base64.Encode;
    ParseDecimal(version);
    Base64.RoundTrip(Base64.Standard, salt);
    Base64.RoundTrip(Base64.Standard, hash);
    var v, a, b := "v=" + Decimal(version), Base64.Encode(Base64.Standard, salt), Base64.Encode(Base64.Standard, hash);
    SixJoined("", "argon2id", v, params, a, b);
    PhcShape(Decimal(version), params, a, b);
    SplitJoin(["", "argon2id", v, params, a, b], '$');
  }

  lemma PhcShape(version: string, params: string, salt: string, hash: string)
    ensures "$argon2id$v=" + version + "$" + params + "$" + salt + "$" + hash
            == "" + "$" + "argon2id" + "$" + ("v=" + version) + "$" + params + "$" + salt + "$" + hash
  {
    assert "$argon2id$v=" == "$" + "argon2id" + "$" + "v=";
    Regroup("$" + "argon2id" + "$", "v=", version, "$" + params + "$" + salt + "$" + hash);
    assert "" + "$" == "$";
  }

  lemma Regroup(a: string, b: string, c: string, d: string)
    ensures a + b + c + d == a + (b + c) + d
  {
  }

  lemma SixJoined(a: string, b: string, c: string, d: string, e: string, f: string)
    ensures Join([a, b, c, d, e, f], "$") == a + "$" + b + "$" + c + "$" + d + "$" + e + "$" + f
  {
    assert [a, b, c, d, e, f][1..] == [b, c, d, e, f] && [b, c, d, e, f][1..] == [c, d, e, f];
    assert [c, d, e, f][1..] == [d, e, f] && [d, e, f][1..] == [e, f] && [e, f][1..] == [f];
    assert Join([e, f], "$") == e + "$" + f;
    assert Join([d, e, f], "$") == d + "$" + (e + "$" + f);
    assert Join([c, d, e, f], "$") == c + "$" + (d + "$" + (e + "$" + f));
    assert Join([b, c, d, e, f], "$") == b + "$" + (c + "$" + (d + "$" + (e + "$" + f)));
  }

  /** A hash with any parameters in range, of any length: the parameters and the length decide how it is derived. */
  lemma {:induction false} VerifyAny(kdf: Kdf, attempt: seq<Byte>, memory: nat, time: nat, threads: nat,
                                     salt: seq<Byte>, expected: seq<Byte>)
    requires memory <= 0xFFFF_FFFF && time <= 0xFFFF_FFFF && threads <= 255
    ensures Verify(kdf, attempt, Phc(19, Params(memory, time, threads), salt, expected))
            == Ok(kdf(attempt, salt, time, memory, threads, |expected|) == expected)
  {
    hide Split, ScanVersion, ScanCosts, Params, Base64.Encode, Base64.Decode, Phc, Decimal;
    ParamsHaveNoDollar(memory, time, threads);
    PhcParts(ARGON_VERSION, Params(memory, time, threads), salt, expected);
    VersionRoundTrip(ARGON_VERSION);
    CostsRoundTrip(memory, time, threads);
    Base64.RoundTrip(Base64.Standard, salt);
    Base64.RoundTrip(Base64.Standard, expected);
  }

  /** Four parts without dollar signs behind the algorithm's name. */
  ghost predicate PhcShaped(s: string, version: string, params: string, salt: string, hash: string) {
    && '$' !in version && '$' !in params && '$' !in salt && '$' !in hash
    && s == "$argon2id$" + version + "$" + params + "$" + salt + "$" + hash
  }

  lemma ShapeJoins(version: string, params: string, salt: string, hash: string)
    ensures Join(["", "argon2id", version, params, salt, hash], "$")
            == "$argon2id$" + version + "$" + params + "$" + salt + "$" + hash
  {
    SixJoined("", "argon2id", version, params, salt, hash);
    assert "" + "$" + "argon2id" + "$" == "$argon2id$";
  }

  /** A stored hash is refused for its form exactly when it is not of this one. */
  lemma InvalidIffMisshapen(kdf: Kdf, attempt: seq<Byte>, s: string)
    ensures Verify(kdf, attempt, s) == Err(InvalidHash) <==>
            !exists version, params, salt, hash :: PhcShaped(s, version, params, salt, hash)
  {
    hide Split, Join, ScanVersion, ScanCosts, Base64.Decode;
    var parts := Split(s, '$');
    if |parts| == 6 && parts[0] == "" && parts[1] == "argon2id" {
      JoinSplit(s, '$');
      SplitAvoids(s, '$');
      assert parts == ["", "argon2id", parts[2], parts[3], parts[4], parts[5]];
      ShapeJoins(parts[2], parts[3], parts[4], parts[5]);
      assert PhcShaped(s, parts[2], parts[3], parts[4], parts[5]);
    }
    if version, params, salt, hash :| PhcShaped(s, version, params, salt, hash) {
      ShapeJoins(version, params, salt, hash);
      SplitJoin(["", "argon2id", version, params, salt, hash], '$');
    }
  }

  /** A hash of another version is refused. */
  lemma {:induction false} OtherVersion(kdf: Kdf, attempt: seq<Byte>, version: nat, params: string, salt: seq<Byte>,
                                        expected: seq<Byte>)
    requires version != 19 && version < 0x8000_0000_0000_0000 && '$' !in params
    ensures Verify(kdf, attempt, Phc(version, params, salt, expected)) == Err(IncompatibleVersion)
  {
    hide Split, ScanVersion, ScanCosts, Base64.Encode, Base64.Decode, Phc, Decimal;
    PhcParts(version, params, salt, expected);
    VersionRoundTrip(version);
  }

  lemma DecimalIs()
    ensures Decimal(19) == "19" && Decimal(65536) == "65536" && Decimal(1) == "1" && Decimal(4) == "4"
  {
    assert Decimal(6) == "6" && Decimal(65) == "65" && Decimal(655) == "655" && Decimal(6553) == "6553";
  }

  /** What is stored for a password: version 19, 64 MiB, one pass, four threads, 32 bytes. */
  lemma HashedIs(kdf: Kdf, password: seq<Byte>, salt: seq<Byte>)
    ensures Hashed(kdf, password, salt)
            == "$argon2id$v=19$m=65536,t=1,p=4$" + Base64.Encode(Base64.Standard, salt) + "$"
               + Base64.Encode(Base64.Standard, kdf(password, salt, 1, 65536, 4, 32))
  {
    hide Decimal, Base64.Encode;
    DecimalIs();
    assert Params(65536, 1, 4) == "m=65536,t=1,p=4";
    assert "$argon2id$v=" + "19" + "$" + "m=65536,t=1,p=4" + "$" == "$argon2id$v=19$m=65536,t=1,p=4$";
  }

  /**
   Verification undoes hashing: for every password and salt, a printed hash is parsed without error, and another
   password is accepted exactly when it derives the same bytes from the salt.
   */
  lemma {:induction false} VerifyExact(kdf: Kdf, password: seq<Byte>, salt: seq<Byte>, attempt: seq<Byte>)
    requires |Derived(kdf, password, salt)| == ARGON_KEY_LEN
    ensures Verify(kdf, attempt, Hashed(kdf, password, salt))
            == Ok(Derived(kdf, attempt, salt) == Derived(kdf, password, salt))
  {
    hide Phc, Params, Verify;
    VerifyAny(kdf, attempt, ARGON_MEMORY, ARGON_TIME, ARGON_THREADS, salt, Derived(kdf, password, salt));
  }
}
