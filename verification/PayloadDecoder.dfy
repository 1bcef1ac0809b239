/**
 What the encoded strings mean to a reader: decoders for Wi-Fi strings, vCards and mailto links as specifications, and
 proofs that payload_encoder.dart inverts them.
 */
module PayloadDecoder {
  import opened Basics
  import opened DartText
  import opened Payload
  import opened PayloadEncoder

  // ---- Wi-Fi ----

  /** Splits on a separator that no backslash escapes; the parts keep their escapes. */
  function SplitUnescaped(s: string, sep: char): (parts: seq<string>)
    ensures |parts| >= 1
  {
    if s == "" then [""]
    else if s[0] == '\\' && |s| >= 2 then
      var rest := SplitUnescaped(s[2..], sep);
      [s[..2] + rest[0]] + rest[1..]
    else
      var rest := SplitUnescaped(s[1..], sep);
      if s[0] == sep then [""] + rest else [[s[0]] + rest[0]] + rest[1..]
  }

  /** A backslash stands for the character after it. */
  function Unescape(s: string): string {
    if s == "" then ""
    else if s[0] == '\\' && |s| >= 2 then [s[1]] + Unescape(s[2..])
    else [s[0]] + Unescape(s[1..])
  }

  predicate StartsWith(s: string, prefix: string) { prefix <= s }

  /** Reads WIFI:T:<auth>;S:<ssid>;P:<password>;H:<hidden>;; */
  function DecodeWifi(s: string): Option<CodePayload> {
    if !StartsWith(s, "WIFI:") then None
    else
      var parts := SplitUnescaped(s[5..], ';');
      if |parts| == 6 && StartsWith(parts[0], "T:") && StartsWith(parts[1], "S:") && StartsWith(parts[2], "P:")
         && StartsWith(parts[3], "H:") && parts[4] == "" && parts[5] == ""
      then Some(Wifi(Unescape(parts[1][2..]), Unescape(parts[2][2..]), ParseAuth(Some(parts[0][2..])),
                     parts[3][2..] == "true"))
      else None
  }

  /** No separator stands unescaped, and no backslash is left dangling. */
  predicate Guarded(s: string, sep: char) {
    s == ""
    || (s[0] == '\\' && |s| >= 2 && Guarded(s[2..], sep))
    || (s[0] != '\\' && s[0] != sep && Guarded(s[1..], sep))
  }

  lemma {:induction false} GuardedPart(a: string, sep: char, rest: string)
    requires Guarded(a, sep) && sep != '\\'
    ensures SplitUnescaped(a + [sep] + rest, sep) == [a] + SplitUnescaped(rest, sep)
  {
    var s := a + [sep] + rest;
    if a == "" {
      assert s[1..] == rest;
    } else if a[0] == '\\' {
      assert s[2..] == a[2..] + [sep] + rest && s[..2] == a[..2];
      GuardedPart(a[2..], sep, rest);
      assert a[..2] + a[2..] == a;
    } else {
      assert s[1..] == a[1..] + [sep] + rest;
      GuardedPart(a[1..], sep, rest);
      assert [a[0]] + a[1..] == a;
    }
  }

  lemma {:induction false} PlainGuarded(a: string, rest: string, sep: char)
    requires '\\' !in a && sep !in a && Guarded(rest, sep)
    ensures Guarded(a + rest, sep)
  {
    if a != "" {
      assert (a + rest)[1..] == a[1..] + rest;
      PlainGuarded(a[1..], rest, sep);
    } else {
      assert a + rest == rest;
    }
  }

  lemma {:induction false} EscapeGuarded(s: string, sep: char)
    requires WifiSpecial(sep)
    ensures Guarded(WifiEscape(s), sep)
  {
    if s != "" {
      EscapeGuarded(s[1..], sep);
      var rest := WifiEscape(s[1..]);
      if WifiSpecial(s[0]) {
        assert (['\\', s[0]] + rest)[2..] == rest;
      } else {
        assert ([s[0]] + rest)[1..] == rest;
      }
    }
  }

  lemma {:induction false} WifiUnescape(s: string)
    ensures Unescape(WifiEscape(s)) == s
  {
    if s != "" {
      WifiUnescape(s[1..]);
      var rest := WifiEscape(s[1..]);
      if WifiSpecial(s[0]) {
        assert (['\\', s[0]] + rest)[2..] == rest;
      } else {
        assert ([s[0]] + rest)[1..] == rest;
      }
      assert [s[0]] + s[1..] == s;
    }
  }

  lemma SixParts(t: string, s: string, p: string, h: string)
    requires Guarded(t, ';') && Guarded(s, ';') && Guarded(p, ';') && Guarded(h, ';')
    ensures SplitUnescaped(t + ";" + (s + ";" + (p + ";" + (h + ";" + (";")))), ';') == [t, s, p, h, "", ""]
  {
    hide Guarded;
    GuardedPart(t, ';', s + ";" + (p + ";" + (h + ";" + (";"))));
    GuardedPart(s, ';', p + ";" + (h + ";" + (";")));
    GuardedPart(p, ';', h + ";" + (";"));
    GuardedPart(h, ';', ";");
    assert ";"[1..] == "";
    assert SplitUnescaped(";", ';') == ["", ""];
  }

  lemma AuthGuarded(a: WifiAuth)
    ensures Guarded("T:" + AuthWire(a), ';')
  {
    PlainGuarded("T:" + AuthWire(a), "", ';');
    assert "T:" + AuthWire(a) + "" == "T:" + AuthWire(a);
  }

  lemma HiddenGuarded(hidden: bool)
    ensures Guarded("H:" + if hidden then "true" else "false", ';')
  {
    var h := "H:" + if hidden then "true" else "false";
    PlainGuarded(h, "", ';');
    assert h + "" == h;
  }

  /** The password a network without one is printed with. */
  function KeptPassword(auth: WifiAuth, password: string): string {
    if auth == NoPass then "" else password
  }

  /** A Wi-Fi string reads back as its network, the password of a network without one left out. */
  lemma WifiRoundTrip(ssid: string, password: string, auth: WifiAuth, hidden: bool)
    ensures DecodeWifi(WifiText(ssid, password, auth, hidden))
            == Some(Wifi(ssid, KeptPassword(auth, password), auth, hidden))
  {
    hide Guarded, WifiEscape, Unescape, SplitUnescaped, AuthWire, ParseAuth;
    var t, h := "T:" + AuthWire(auth), "H:" + if hidden then "true" else "false";
    var s, p := "S:" + WifiEscape(ssid), "P:" + WifiEscape(KeptPassword(auth, password));
    EmptyEscape();
    AuthGuarded(auth);
    HiddenGuarded(hidden);
    EscapeGuarded(ssid, ';');
    EscapeGuarded(KeptPassword(auth, password), ';');
    PlainGuarded("S:", WifiEscape(ssid), ';');
    PlainGuarded("P:", WifiEscape(KeptPassword(auth, password)), ';');
    SixParts(t, s, p, h);
    WifiShape(AuthWire(auth), WifiEscape(ssid), WifiEscape(KeptPassword(auth, password)),
              if hidden then "true" else "false");
    WifiUnescape(ssid);
    WifiUnescape(KeptPassword(auth, password));
    AuthRoundTrip(auth);
    assert t[2..] == AuthWire(auth) && s[2..] == WifiEscape(ssid);
    assert p[2..] == WifiEscape(KeptPassword(auth, password)) && h[2..] == if hidden then "true" else "false";
    assert "true"[0] == 't' && "false"[0] == 'f';
  }

  lemma WifiShape(t: string, s: string, p: string, h: string)
    ensures var rest := "T:" + t + ";" + ("S:" + s + ";" + ("P:" + p + ";" + ("H:" + h + ";" + (";"))));
            var whole := "WIFI:T:" + t + ";S:" + s + ";P:" + p + ";H:" + h + ";;";
            "WIFI:" <= whole && whole[5..] == rest
  {
    assert "WIFI:T:" == "WIFI:" + "T:" && ";S:" == ";" + "S:" && ";P:" == ";" + "P:" && ";H:" == ";" + "H:";
    assert ";;" == ";" + ";";
    Reassociate("WIFI:", "T:", t, "S:", s, "P:", p, "H:", h, ";");
  }

  lemma Reassociate(w: string, a: string, t: string, b: string, s: string, c: string, p: string, d: string, h: string,
                    m: string)
    ensures var rest := a + t + m + (b + s + m + (c + p + m + (d + h + m + (m))));
            var whole := w + a + t + (m + b) + s + (m + c) + p + (m + d) + h + (m + m);
            whole == w + rest && w <= whole && whole[|w|..] == rest
  {
    var rest := a + t + m + (b + s + m + (c + p + m + (d + h + m + (m))));
    assert w + a + t + (m + b) + s + (m + c) + p + (m + d) + h + (m + m) == w + rest;
  }

  lemma EmptyEscape()
    ensures WifiEscape("") == ""
  {
  }

  lemma {:induction false} WifiEscapeConcat(a: string, b: string)
    ensures WifiEscape(a + b) == WifiEscape(a) + WifiEscape(b)
  {
    if a == "" {
      assert a + b == b;
    } else {
      assert (a + b)[1..] == a[1..] + b;
      WifiEscapeConcat(a[1..], b);
    }
  }

  /** Which characters get a backslash. */
  lemma WifiEscapeOne(c: char)
    ensures c == '\\' || c == ';' || c == ',' || c == ':' || c == '"' ==> WifiEscape([c]) == ['\\', c]
    ensures c != '\\' && c != ';' && c != ',' && c != ':' && c != '"' ==> WifiEscape([c]) == [c]
  {
    EmptyEscape();
    assert [c][1..] == "";
  }

  /** The string of a network, field by field. */
  lemma WifiTextIs(ssid: string, password: string, hidden: bool)
    ensures var s, p, h := WifiEscape(ssid), WifiEscape(password), if hidden then "true" else "false";
            && Encode(Wifi(ssid, password, Wpa, hidden)) == "WIFI:T:WPA;S:" + s + ";P:" + p + ";H:" + h + ";;"
            && Encode(Wifi(ssid, password, Wep, hidden)) == "WIFI:T:WEP;S:" + s + ";P:" + p + ";H:" + h + ";;"
            && Encode(Wifi(ssid, password, NoPass, hidden)) == "WIFI:T:nopass;S:" + s + ";P:;H:" + h + ";;"
  {
    hide WifiEscape;
    assert ";P:" + "" + ";H:" == ";P:;H:";
    assert "WIFI:T:" + "WPA" + ";S:" == "WIFI:T:WPA;S:" && "WIFI:T:" + "WEP" + ";S:" == "WIFI:T:WEP;S:";
    assert "WIFI:T:" + "nopass" + ";S:" == "WIFI:T:nopass;S:";
    var s, h := WifiEscape(ssid), if hidden then "true" else "false";
    assert "WIFI:T:nopass;S:" + s + ";P:" + "" + ";H:" + h + ";;" == "WIFI:T:nopass;S:" + s + ";P:;H:" + h + ";;" by {
      assert "WIFI:T:nopass;S:" + s + ";P:" + "" + ";H:" == "WIFI:T:nopass;S:" + s + ";P:;H:";
    }
  }

  /** Two networks share a string only when they are the same up to an unused password. */
  lemma WifiInjective(ssid: string, password: string, auth: WifiAuth, hidden: bool,
                      ssid': string, password': string, auth': WifiAuth, hidden': bool)
    ensures WifiText(ssid, password, auth, hidden) == WifiText(ssid', password', auth', hidden')
            <==> ssid == ssid' && KeptPassword(auth, password) == KeptPassword(auth', password')
                 && auth == auth' && hidden == hidden'
  {
    hide DecodeWifi;
    WifiRoundTrip(ssid, password, auth, hidden);
    WifiRoundTrip(ssid', password', auth', hidden');
  }

  // ---- vCard ----

  function EscapeChar(c: char): string {
    if c == '\\' then "\\\\"
    else if c == ',' then "\\,"
    else if c == ';' then "\\;"
    else if c == '\n' then "\\n"
    else [c]
  }

  /** All four escapes at once. */
  function EscapeAll(s: string): string {
    if s == "" then "" else EscapeChar(s[0]) + EscapeAll(s[1..])
  }

  lemma {:induction false} ReplaceConcat(a: string, b: string, c: char, with: string)
    ensures ReplaceAll(a + b, c, with) == ReplaceAll(a, c, with) + ReplaceAll(b, c, with)
  {
    if a == "" {
      assert a + b == b;
    } else {
      assert (a + b)[1..] == a[1..] + b;
      ReplaceConcat(a[1..], b, c, with);
    }
  }

  lemma {:induction false} ReplaceAbsent(s: string, c: char, with: string)
    requires c !in s
    ensures ReplaceAll(s, c, with) == s
  {
    if s != "" {
      ReplaceAbsent(s[1..], c, with);
    }
  }

  lemma ReplaceOne(c: char, d: char, with: string)
    ensures ReplaceAll([d], c, with) == if d == c then with else [d]
  {
    assert [d][1..] == "";
  }

  lemma EscapeConcat(a: string, b: string)
    ensures VCardEscape(a + b) == VCardEscape(a) + VCardEscape(b)
  {
    hide ReplaceAll;
    var a1, b1 := ReplaceAll(a, '\\', "\\\\"), ReplaceAll(b, '\\', "\\\\");
    var a2, b2 := ReplaceAll(a1, ',', "\\,"), ReplaceAll(b1, ',', "\\,");
    var a3, b3 := ReplaceAll(a2, ';', "\\;"), ReplaceAll(b2, ';', "\\;");
    ReplaceConcat(a, b, '\\', "\\\\");
    ReplaceConcat(a1, b1, ',', "\\,");
    ReplaceConcat(a2, b2, ';', "\\;");
    ReplaceConcat(a3, b3, '\n', "\\n");
  }

  lemma EscapeOne(c: char)
    ensures VCardEscape([c]) == EscapeChar(c)
  {
    hide ReplaceAll;
    ReplaceOne('\\', c, "\\\\");
    if c == '\\' {
      ReplaceAbsent("\\\\", ',', "\\,");
      ReplaceAbsent("\\\\", ';', "\\;");
      ReplaceAbsent("\\\\", '\n', "\\n");
    } else {
      ReplaceOne(',', c, "\\,");
      ReplaceOne(';', c, "\\;");
      ReplaceOne('\n', c, "\\n");
      ReplaceAbsent("\\,", ';', "\\;");
      ReplaceAbsent("\\,", '\n', "\\n");
      ReplaceAbsent("\\;", '\n', "\\n");
    }
  }

  /** The four passes are one simultaneous escape: no pass touches what an earlier one produced. */
  lemma {:induction false} FourPassesAreOne(s: string)
    ensures VCardEscape(s) == EscapeAll(s)
  {
    hide VCardEscape, EscapeChar;
    if s == "" {
      EscapeNothing();
    } else {
      FourPassesAreOne(s[1..]);
      EscapeOne(s[0]);
      EscapeConcat([s[0]], s[1..]);
      assert [s[0]] + s[1..] == s;
    }
  }

  /** Which characters a card escapes, and how. */
  lemma CardEscapes(c: char)
    ensures VCardEscape("\\") == "\\\\" && VCardEscape(",") == "\\," && VCardEscape(";") == "\\;"
    ensures VCardEscape("\n") == "\\n" && VCardEscape("") == ""
    ensures c != '\\' && c != ',' && c != ';' && c != '\n' ==> VCardEscape([c]) == [c]
  {
    hide VCardEscape;
    EscapeOne('\\');
    EscapeOne(',');
    EscapeOne(';');
    EscapeOne('\n');
    EscapeOne(c);
    EscapeNothing();
  }

  lemma EscapeNothing()
    ensures VCardEscape("") == ""
  {
  }

  /** ESCAPED-CHAR of section 4 of RFC 2426: a newline is written \\n or \\N, anything else stands for itself. */
  function UnescapeCard(s: string): string {
    if s == "" then ""
    else if s[0] == '\\' && |s| >= 2 then
      [if s[1] == 'n' || s[1] == 'N' then '\n' else s[1]] + UnescapeCard(s[2..])
    else [s[0]] + UnescapeCard(s[1..])
  }

  lemma ReadEscape(c: char, rest: string)
    ensures UnescapeCard(EscapeChar(c) + rest) == [c] + UnescapeCard(rest)
    ensures '\n' !in EscapeChar(c)
  {
    var head := EscapeChar(c);
    assert (head + rest)[|head|..] == rest;
  }

  lemma {:induction false} CardUnescape(s: string)
    ensures UnescapeCard(EscapeAll(s)) == s
    ensures '\n' !in EscapeAll(s)
  {
    hide EscapeChar, UnescapeCard;
    if s != "" {
      CardUnescape(s[1..]);
      ReadEscape(s[0], EscapeAll(s[1..]));
      assert [s[0]] + s[1..] == s;
    } else {
      UnescapeNothing();
    }
  }

  lemma UnescapeNothing()
    ensures UnescapeCard("") == ""
  {
  }

  lemma ValueRoundTrip(s: string)
    ensures UnescapeCard(VCardEscape(s)) == s && '\n' !in VCardEscape(s)
  {
    FourPassesAreOne(s);
    CardUnescape(s);
  }

  /** The value of the first line with this name; empty when there is none. */
  function LineValue(lines: seq<string>, name: string): string {
    if lines == [] then ""
    else match SplitFirst(lines[0], ':')
         case Some(line) => if line.0 == name then UnescapeCard(line.1) else LineValue(lines[1..], name)
         case None => LineValue(lines[1..], name)
  }

  function DecodeCard(s: string): Option<CodePayload> {
    var lines := Split(s, '\n');
    if |lines| >= 3 && lines[0] == "BEGIN:VCARD" && lines[1] == "VERSION:3.0" && lines[|lines| - 1] == "END:VCARD" then
      Some(VCard(LineValue(lines, "FN"), LineValue(lines, "ORG"), LineValue(lines, "TEL"), LineValue(lines, "EMAIL"),
                 LineValue(lines, "URL")))
    else None
  }

  function Kept(value: string): string { if Blank(value) then "" else value }

  lemma OtherLine(name: string, value: string, rest: seq<string>, wanted: string)
    requires ':' !in name && name != wanted
    ensures LineValue([name + ":" + value] + rest, wanted) == LineValue(rest, wanted)
  {
    SplitFirstOf(name, ':', value);
    assert ([name + ":" + value] + rest)[1..] == rest;
  }

  lemma SkipsOptional(name: string, value: string, rest: seq<string>, wanted: string)
    requires ':' !in name && name != wanted
    ensures LineValue(OptionalLine(name, value) + rest, wanted) == LineValue(rest, wanted)
  {
    if Blank(value) {
      assert [] + rest == rest;
    } else {
      OtherLine(name, VCardEscape(value), rest, wanted);
    }
  }

  lemma ReadsLine(name: string, value: string, rest: seq<string>)
    requires ':' !in name
    ensures LineValue([name + ":" + VCardEscape(value)] + rest, name) == value
  {
    SplitFirstOf(name, ':', VCardEscape(value));
    ValueRoundTrip(value);
  }

  lemma ReadsOptional(name: string, value: string, rest: seq<string>)
    requires ':' !in name && LineValue(rest, name) == ""
    ensures LineValue(OptionalLine(name, value) + rest, name) == Kept(value)
  {
    if Blank(value) {
      assert [] + rest == rest;
    } else {
      ReadsLine(name, value, rest);
    }
  }

  predicate IsOptional(name: string) { name == "ORG" || name == "TEL" || name == "EMAIL" || name == "URL" }

  /** The lines after FN. */
  function Tail(org: string, phone: string, email: string, site: string): seq<string> {
    OptionalLine("ORG", org) + (OptionalLine("TEL", phone) + (OptionalLine("EMAIL", email)
      + (OptionalLine("URL", site) + ["END:VCARD"])))
  }

  lemma EndHasNoValue(wanted: string)
    requires wanted != "END"
    ensures LineValue(["END:VCARD"], wanted) == ""
  {
    assert "END:VCARD" == "END" + ":" + "VCARD" && ["END:VCARD"] == ["END:VCARD"] + [];
    OtherLine("END", "VCARD", [], wanted);
  }

  lemma NamesDiffer()
    ensures "ORG" != "TEL" && "ORG" != "EMAIL" && "ORG" != "URL" && "TEL" != "EMAIL" && "TEL" != "URL"
    ensures "EMAIL" != "URL" && "END" != "ORG" && "END" != "TEL" && "END" != "EMAIL" && "END" != "URL"
    ensures "FN" != "BEGIN" && "FN" != "VERSION"
  {
    assert "ORG"[0] == 'O' && "TEL"[0] == 'T' && "EMAIL"[0] == 'E' && "URL"[0] == 'U' && "END"[0] == 'E';
  }

  lemma TailValues(org: string, phone: string, email: string, site: string)
    ensures var t := Tail(org, phone, email, site);
            && LineValue(t, "ORG") == Kept(org) && LineValue(t, "TEL") == Kept(phone)
            && LineValue(t, "EMAIL") == Kept(email) && LineValue(t, "URL") == Kept(site)
  {
    hide LineValue, OptionalLine, Kept;
    NamesDiffer();
    var end := ["END:VCARD"];
    var u := OptionalLine("URL", site) + end;
    var e := OptionalLine("EMAIL", email) + u;
    var t := OptionalLine("TEL", phone) + e;
    EndHasNoValue("ORG");
    EndHasNoValue("TEL");
    EndHasNoValue("EMAIL");
    EndHasNoValue("URL");
    SkipsOptional("URL", site, end, "ORG");
    SkipsOptional("URL", site, end, "TEL");
    SkipsOptional("URL", site, end, "EMAIL");
    SkipsOptional("EMAIL", email, u, "ORG");
    SkipsOptional("EMAIL", email, u, "TEL");
    SkipsOptional("EMAIL", email, u, "URL");
    SkipsOptional("TEL", phone, e, "ORG");
    SkipsOptional("TEL", phone, e, "EMAIL");
    SkipsOptional("TEL", phone, e, "URL");
    SkipsOptional("ORG", org, t, "TEL");
    SkipsOptional("ORG", org, t, "EMAIL");
    SkipsOptional("ORG", org, t, "URL");
    ReadsOptional("URL", site, end);
    ReadsOptional("EMAIL", email, u);
    ReadsOptional("TEL", phone, e);
    ReadsOptional("ORG", org, t);
  }

  lemma LinesShape(name: string, org: string, phone: string, email: string, site: string)
    ensures VCardLines(name, org, phone, email, site)
            == ["BEGIN:VCARD"] + (["VERSION:3.0"] + (["FN:" + VCardEscape(name)] + Tail(org, phone, email, site)))
  {
    hide OptionalLine, VCardEscape;
  }

  /** A name other than the first three passes over them. */
  lemma HeadSkipped(name: string, tail: seq<string>, wanted: string)
    requires IsOptional(wanted)
    ensures LineValue(["BEGIN:VCARD"] + (["VERSION:3.0"] + (["FN:" + VCardEscape(name)] + tail)), wanted)
            == LineValue(tail, wanted)
  {
    hide VCardEscape, LineValue;
    assert "BEGIN:VCARD" == "BEGIN" + ":" + "VCARD" && "VERSION:3.0" == "VERSION" + ":" + "3.0";
    assert "FN:" == "FN" + ":";
    assert |"BEGIN"| == 5 && "BEGIN"[0] == 'B' && |"VERSION"| == 7 && |"FN"| == 2;
    OtherLine("FN", VCardEscape(name), tail, wanted);
    OtherLine("VERSION", "3.0", ["FN:" + VCardEscape(name)] + tail, wanted);
    OtherLine("BEGIN", "VCARD", ["VERSION:3.0"] + (["FN:" + VCardEscape(name)] + tail), wanted);
  }

  lemma NameRead(name: string, tail: seq<string>)
    ensures LineValue(["BEGIN:VCARD"] + (["VERSION:3.0"] + (["FN:" + VCardEscape(name)] + tail)), "FN") == name
  {
    hide VCardEscape, LineValue;
    assert "BEGIN:VCARD" == "BEGIN" + ":" + "VCARD" && "VERSION:3.0" == "VERSION" + ":" + "3.0";
    assert "FN:" == "FN" + ":";
    assert |"BEGIN"| == 5 && |"VERSION"| == 7 && |"FN"| == 2;
    ReadsLine("FN", name, tail);
    OtherLine("VERSION", "3.0", ["FN:" + VCardEscape(name)] + tail, "FN");
    OtherLine("BEGIN", "VCARD", ["VERSION:3.0"] + (["FN:" + VCardEscape(name)] + tail), "FN");
  }

  lemma LinesHaveNoNewline(name: string, org: string, phone: string, email: string, site: string)
    ensures forall l <- VCardLines(name, org, phone, email, site) :: '\n' !in l
  {
    hide VCardEscape;
    ValueRoundTrip(name);
    ValueRoundTrip(org);
    ValueRoundTrip(phone);
    ValueRoundTrip(email);
    ValueRoundTrip(site);
  }

  /** Splitting a card on newlines gives exactly the lines emitted, whatever newlines the fields hold. */
  lemma CardSplits(name: string, org: string, phone: string, email: string, site: string)
    ensures Split(VCardText(name, org, phone, email, site), '\n') == VCardLines(name, org, phone, email, site)
  {
    hide VCardLines, Split;
    LinesHaveNoNewline(name, org, phone, email, site);
    LinesShape(name, org, phone, email, site);
    SplitJoin(VCardLines(name, org, phone, email, site), '\n');
  }

  /** The lines of a card: the name always, and each other field that is not blank, in this order. */
  lemma CardLinesAre(name: string, org: string, phone: string, email: string, site: string)
    ensures Split(Encode(VCard(name, org, phone, email, site)), '\n')
            == ["BEGIN:VCARD", "VERSION:3.0", "FN:" + VCardEscape(name)]
               + (if Trim(org) == "" then [] else ["ORG:" + VCardEscape(org)])
               + (if Trim(phone) == "" then [] else ["TEL:" + VCardEscape(phone)])
               + (if Trim(email) == "" then [] else ["EMAIL:" + VCardEscape(email)])
               + (if Trim(site) == "" then [] else ["URL:" + VCardEscape(site)])
               + ["END:VCARD"]
  {
    hide VCardEscape, Split, VCardText, Trim;
    CardSplits(name, org, phone, email, site);
    assert "ORG" + ":" == "ORG:" && "TEL" + ":" == "TEL:" && "EMAIL" + ":" == "EMAIL:" && "URL" + ":" == "URL:";
  }

  /** A card reads back as its name and every field that is not blank. */
  lemma {:induction false} CardRoundTrip(name: string, org: string, phone: string, email: string, site: string)
    ensures DecodeCard(VCardText(name, org, phone, email, site))
            == Some(VCard(name, Kept(org), Kept(phone), Kept(email), Kept(site)))
  {
    hide VCardLines, VCardText, VCardEscape, Split, LineValue, Kept, OptionalLine;
    CardSplits(name, org, phone, email, site);
    LinesShape(name, org, phone, email, site);
    var tail := Tail(org, phone, email, site);
    assert tail[|tail| - 1] == "END:VCARD";
    TailValues(org, phone, email, site);
    HeadSkipped(name, tail, "ORG");
    HeadSkipped(name, tail, "TEL");
    HeadSkipped(name, tail, "EMAIL");
    HeadSkipped(name, tail, "URL");
    NameRead(name, tail);
  }

  // ---- mailto ----

  /** The decoded value of the first parameter with this name, empty when there is none; None when malformed. */
  function ParamValue(params: seq<string>, name: string): Option<string> {
    if params == [] then Some("")
    else match SplitFirst(params[0], '=')
         case Some(p) => if p.0 == name then DecodeComponent(p.1) else ParamValue(params[1..], name)
         case None => ParamValue(params[1..], name)
  }

  /** The subject and body of a query without its question mark. */
  function DecodeQuery(query: string): Option<(string, string)> {
    var params := Split(query, '&');
    match (ParamValue(params, "subject"), ParamValue(params, "body"))
    case (Some(subject), Some(body)) => Some((subject, body))
    case _ => None
  }

  /** Section 2 of RFC 6068: recipient up to the first question mark, then parameters. */
  function DecodeMailto(s: string): Option<CodePayload> {
    if !StartsWith(s, "mailto:") then None
    else
      match SplitFirst(s[7..], '?')
      case None => Some(Email(s[7..], "", ""))
      case Some(parts) =>
        match DecodeQuery(parts.1)
        case None => None
        case Some(fields) => Some(Email(parts.0, fields.0, fields.1))
  }

  lemma ReadsParam(name: string, value: string, rest: seq<string>)
    requires '=' !in name
    ensures ParamValue([name + "=" + EncodeComponent(value)] + rest, name) == Some(value)
  {
    SplitFirstOf(name, '=', EncodeComponent(value));
    ComponentRoundTrip(value);
  }

  lemma SkipsParam(name: string, value: string, rest: seq<string>, wanted: string)
    requires '=' !in name && name != wanted
    ensures ParamValue([name + "=" + value] + rest, wanted) == ParamValue(rest, wanted)
  {
    SplitFirstOf(name, '=', value);
    assert ([name + "=" + value] + rest)[1..] == rest;
  }

  lemma ParamsRead(subject: string, body: string)
    ensures var params := OptionalParam("subject", subject) + OptionalParam("body", body);
            ParamValue(params, "subject") == Some(Kept(subject)) && ParamValue(params, "body") == Some(Kept(body))
  {
    hide ParamValue, EncodeComponent, Blank;
    assert |"subject"| != |"body"|;
    NoParams("subject");
    NoParams("body");
    var rest := OptionalParam("body", body);
    if !Blank(body) {
      assert rest == [("body" + "=" + EncodeComponent(body))] + [];
      ReadsParam("body", body, []);
      SkipsParam("body", EncodeComponent(body), [], "subject");
    }
    if !Blank(subject) {
      ReadsParam("subject", subject, rest);
      SkipsParam("subject", EncodeComponent(subject), rest, "body");
    } else {
      assert [] + rest == rest;
    }
  }

  lemma NoParams(name: string)
    ensures ParamValue([], name) == Some("")
  {
  }

  lemma ParamsAvoidAmpersand(subject: string, body: string)
    ensures forall p <- OptionalParam("subject", subject) + OptionalParam("body", body) :: '&' !in p
  {
    hide EncodeComponent, Blank;
    ComponentRoundTrip(subject);
    ComponentRoundTrip(body);
  }

  /** A query, when there is one, reads back as the fields that are not blank. */
  lemma QueryRoundTrip(subject: string, body: string)
    ensures Blank(subject) && Blank(body) ==> EmailQuery(subject, body) == ""
    ensures !(Blank(subject) && Blank(body)) ==>
              var q := EmailQuery(subject, body);
              |q| >= 1 && q[0] == '?' && DecodeQuery(q[1..]) == Some((Kept(subject), Kept(body)))
  {
    hide ParamValue, Split, EncodeComponent, Blank, Join;
    var params := OptionalParam("subject", subject) + OptionalParam("body", body);
    ParamsRead(subject, body);
    ParamsAvoidAmpersand(subject, body);
    if params != [] {
      SplitJoin(params, '&');
      assert ("?" + Join(params, "&"))[1..] == Join(params, "&");
    }
  }

  /** A mailto link, split at a question mark of its own. */
  lemma MailtoParts(to: string, subject: string, body: string)
    ensures var s := EmailText(to, subject, body);
            StartsWith(s, "mailto:") && s[7..] == Trim(to) + EmailQuery(subject, body)
  {
    hide Trim, EmailQuery;
    assert EmailText(to, subject, body) == "mailto:" + (Trim(to) + EmailQuery(subject, body));
  }

  /**
   A mailto link reads back as its trimmed recipient, its subject and its body, blank ones as empty, exactly when the
   recipient has no question mark: a question mark in the recipient would start the query.
   */
  lemma {:induction false} MailtoRoundTrip(to: string, subject: string, body: string)
    ensures DecodeMailto(EmailText(to, subject, body)) == Some(Email(Trim(to), Kept(subject), Kept(body)))
            <==> '?' !in Trim(to)
  {
    hide Trim, EmailQuery, EmailText, DecodeQuery, Kept, Blank;
    var s, query := EmailText(to, subject, body), EmailQuery(subject, body);
    MailtoParts(to, subject, body);
    QueryRoundTrip(subject, body);
    if '?' !in Trim(to) {
      if query == "" {
        assert Trim(to) + query == Trim(to);
        BlankIsDropped(subject);
        BlankIsDropped(body);
      } else {
        assert query == ['?'] + query[1..] && Trim(to) + query == Trim(to) + ['?'] + query[1..];
        SplitFirstOf(Trim(to), '?', query[1..]);
      }
    } else {
      assert '?' in s[7..];
    }
  }

  /** The link in each case: a query only for a subject or body that is not blank, the subject first. */
  lemma MailtoIs(to: string, subject: string, body: string)
    ensures var start, s, b := "mailto:" + Trim(to), EncodeComponent(subject), EncodeComponent(body);
            Encode(Email(to, subject, body)) ==
              if Trim(subject) == "" && Trim(body) == "" then start
              else if Trim(body) == "" then start + "?subject=" + s
              else if Trim(subject) == "" then start + "?body=" + b
              else start + "?subject=" + s + "&body=" + b
  {
    hide Trim, EncodeComponent;
    var start, s, b := "mailto:" + Trim(to), EncodeComponent(subject), EncodeComponent(body);
    var p, q := "subject" + "=" + s, "body" + "=" + b;
    assert [p] + [q] == [p, q] && [p, q][1..] == [q] && [p] + [] == [p] && [] + [q] == [q];
    assert Join([p, q], "&") == p + "&" + q;
    assert start + ("?" + p) == start + "?subject=" + s && start + ("?" + q) == start + "?body=" + b;
    assert start + ("?" + (p + "&" + q)) == start + "?subject=" + s + "&body=" + b;
    assert start + "" == start;
  }

  lemma BlankIsDropped(value: string)
    ensures Blank(value) <==> Kept(value) == ""
  {
    if value == "" {
      EmptyIsTrimmed();
    }
  }

  /** Queries are told apart by the fields they carry. */
  lemma QueryInjective(subject: string, body: string, subject': string, body': string)
    ensures EmailQuery(subject, body) == EmailQuery(subject', body')
            <==> Kept(subject) == Kept(subject') && Kept(body) == Kept(body')
  {
    hide DecodeQuery, Blank, EncodeComponent;
    QueryRoundTrip(subject, body);
    QueryRoundTrip(subject', body');
    BlankIsDropped(subject);
    BlankIsDropped(body);
    BlankIsDropped(subject');
    BlankIsDropped(body');
  }

  // ---- stored codes ----

  /** What a QR code says, whatever its type: a reader gets back what went in. */
  lemma EncodeMeans(p: CodePayload)
    ensures p.Text? ==> Encode(p) == p.text
    ensures p.Url? ==> var t := Trim(p.url); Encode(p) == if t == "" || HasScheme(t) then t else "https://" + t
    ensures p.Wifi? ==> DecodeWifi(Encode(p)) == Some(p.(password := if p.auth == NoPass then "" else p.password))
    ensures p.VCard? ==> DecodeCard(Encode(p)) == Some(VCard(p.name, Kept(p.org), Kept(p.phone), Kept(p.email),
                                                             Kept(p.site)))
    ensures p.Email? ==> (DecodeMailto(Encode(p)) == Some(Email(Trim(p.to), Kept(p.subject), Kept(p.body)))
                          <==> '?' !in Trim(p.to))
  {
    hide DecodeWifi, DecodeCard, DecodeMailto, WifiText, VCardText, EmailText, Trim, Kept, HasScheme;
    match p
    case Wifi(ssid, password, auth, hidden) => WifiRoundTrip(ssid, password, auth, hidden);
    case VCard(name, org, phone, email, site) => CardRoundTrip(name, org, phone, email, site);
    case Email(to, subject, body) => MailtoRoundTrip(to, subject, body);
    case _ =>
  }

  /** The payload with whitespace around its fields removed; a text stays as it is. */
  function Trimmed(p: CodePayload): CodePayload {
    match p
    case Url(url) => Url(Trim(url))
    case Wifi(ssid, password, auth, hidden) => Wifi(Trim(ssid), Trim(password), auth, hidden)
    case VCard(name, org, phone, email, site) => VCard(Trim(name), Trim(org), Trim(phone), Trim(email), Trim(site))
    case Email(to, subject, body) => Email(Trim(to), Trim(subject), Trim(body))
    case Text(_) => p
  }

  predicate TidyOrBlank(s: string) { Tidy(s) || Blank(s) }

  /** No field that shows has whitespace around it. Urls and recipients are trimmed when they are encoded anyway. */
  predicate ShowsTidy(p: CodePayload) {
    match p
    case Url(_) => true
    case Wifi(ssid, password, auth, _) => Tidy(ssid) && (auth == NoPass || Tidy(password))
    case VCard(name, org, phone, email, site) =>
      Tidy(name) && TidyOrBlank(org) && TidyOrBlank(phone) && TidyOrBlank(email) && TidyOrBlank(site)
    case Email(_, subject, body) => TidyOrBlank(subject) && TidyOrBlank(body)
    case Text(_) => true
  }

  lemma KeptTrimmed(s: string)
    ensures Kept(Trim(s)) == Trim(s)
    ensures Kept(Trim(s)) == Kept(s) <==> TidyOrBlank(s)
  {
    TrimTwice(s);
    TrimIsTidy(s);
  }

  lemma TrimmedWifi(ssid: string, password: string, auth: WifiAuth, hidden: bool)
    ensures WifiText(Trim(ssid), Trim(password), auth, hidden) == WifiText(ssid, password, auth, hidden)
            <==> Tidy(ssid) && (auth == NoPass || Tidy(password))
  {
    hide Trim, Tidy;
    WifiInjective(Trim(ssid), Trim(password), auth, hidden, ssid, password, auth, hidden);
    TrimIsTidy(ssid);
    TrimIsTidy(password);
  }

  lemma SameLine(name: string, a: string, b: string)
    requires Kept(a) == Kept(b)
    ensures OptionalLine(name, a) == OptionalLine(name, b)
  {
    BlankIsDropped(a);
    BlankIsDropped(b);
  }

  /** Cards are told apart by their name and the fields that are not blank. */
  lemma CardInjective(name: string, org: string, phone: string, email: string, site: string,
                      name': string, org': string, phone': string, email': string, site': string)
    ensures VCardText(name, org, phone, email, site) == VCardText(name', org', phone', email', site')
            <==> name == name' && Kept(org) == Kept(org') && Kept(phone) == Kept(phone')
                 && Kept(email) == Kept(email') && Kept(site) == Kept(site')
  {
    hide DecodeCard, Kept, OptionalLine, VCardEscape, Join;
    CardRoundTrip(name, org, phone, email, site);
    CardRoundTrip(name', org', phone', email', site');
    if name == name' && Kept(org) == Kept(org') && Kept(phone) == Kept(phone') && Kept(email) == Kept(email')
       && Kept(site) == Kept(site') {
      SameLine("ORG", org, org');
      SameLine("TEL", phone, phone');
      SameLine("EMAIL", email, email');
      SameLine("URL", site, site');
    }
  }

  lemma TrimmedCard(name: string, org: string, phone: string, email: string, site: string)
    ensures VCardText(Trim(name), Trim(org), Trim(phone), Trim(email), Trim(site))
            == VCardText(name, org, phone, email, site)
            <==> Tidy(name) && TidyOrBlank(org) && TidyOrBlank(phone) && TidyOrBlank(email) && TidyOrBlank(site)
  {
    hide Trim, Tidy, Kept, TidyOrBlank, VCardText;
    CardInjective(Trim(name), Trim(org), Trim(phone), Trim(email), Trim(site), name, org, phone, email, site);
    TrimIsTidy(name);
    KeptTrimmed(org);
    KeptTrimmed(phone);
    KeptTrimmed(email);
    KeptTrimmed(site);
  }

  lemma TrimmedEmail(to: string, subject: string, body: string)
    ensures EmailText(Trim(to), Trim(subject), Trim(body)) == EmailText(to, subject, body)
            <==> TidyOrBlank(subject) && TidyOrBlank(body)
  {
    hide Trim, Kept, TidyOrBlank, EmailQuery, EmailText;
    TrimTwice(to);
    MailtoParts(to, subject, body);
    MailtoParts(Trim(to), Trim(subject), Trim(body));
    QueryInjective(Trim(subject), Trim(body), subject, body);
    KeptTrimmed(subject);
    KeptTrimmed(body);
    var a, b := EmailText(Trim(to), Trim(subject), Trim(body)), EmailText(to, subject, body);
    assert a == "mailto:" + a[7..] && b == "mailto:" + b[7..];
    assert a[7..][|Trim(to)|..] == EmailQuery(Trim(subject), Trim(body));
    assert b[7..][|Trim(to)|..] == EmailQuery(subject, body);
  }

  /**
   A stored code renders as the payload with its fields trimmed, and exactly as its preview when no field that shows
   has whitespace around it; urls and texts always do.
   */
  lemma StoredRenders(p: CodePayload)
    ensures FromJson(TypeOf(p), ToJson(p)).Some?
    ensures var stored := FromJson(TypeOf(p), ToJson(p)).value;
            && Encode(stored) == Encode(Trimmed(p))
            && (Encode(stored) == Encode(p) <==> ShowsTidy(p))
  {
    hide Trim, Tidy, TidyOrBlank, WifiText, VCardText, EmailText, NormalizeUrl, FromJson, ToJson;
    StoreReload(p);
    match p
    case Url(url) =>
      NormalizeTwice(url);
      NormalizeTrimmed(url);
    case Wifi(ssid, password, auth, hidden) =>
      TrimmedWifi(ssid, password, auth, hidden);
      WifiInjective(Trim(ssid), if auth == NoPass then "" else Trim(password), auth, hidden,
                    Trim(ssid), Trim(password), auth, hidden);
    case VCard(name, org, phone, email, site) => TrimmedCard(name, org, phone, email, site);
    case Email(to, subject, body) => TrimmedEmail(to, subject, body);
    case Text(_) =>
  }

  /** Code.qrContent: a dynamic code shows its redirect link, a static one its stored payload; None when that throws. */
  function QrContent(isDynamic: bool, redirectUrl: Option<string>, t: CodeType, json: Json): Option<string> {
    if isDynamic && redirectUrl.Some? then redirectUrl
    else match FromJson(t, json) case Some(p) => Some(Encode(p)) case None => None
  }

  /** The QR of a saved static code is the one previewed, exactly when no field that shows has whitespace around it. */
  lemma SavedQrIsPreview(p: CodePayload, redirectUrl: Option<string>)
    ensures QrContent(false, redirectUrl, ParseType(Wire(TypeOf(p))), ToJson(p)) == Some(Encode(p)) <==> ShowsTidy(p)
    ensures QrContent(false, redirectUrl, ParseType(Wire(TypeOf(p))), ToJson(p)) == Some(Encode(Trimmed(p)))
  {
    hide Encode, FromJson, ToJson, ShowsTidy, ParseType;
    WireApart(TypeOf(p));
    StoredRenders(p);
  }

  /** A dynamic code shows exactly its link, whatever is stored for it; without one it shows the stored payload. */
  lemma DynamicShowsLink(link: string, t: CodeType, json: Json)
    ensures QrContent(true, Some(link), t, json) == Some(link)
    ensures QrContent(true, None, t, json) == QrContent(false, Some(link), t, json) == QrContent(false, None, t, json)
  {
  }

  /** What the QR of a saved static code says: a text as it is, a url with its scheme, the rest with fields trimmed. */
  lemma SavedQrMeans(p: CodePayload, redirectUrl: Option<string>)
    ensures QrContent(false, redirectUrl, TypeOf(p), ToJson(p)).Some?
    ensures var qr := QrContent(false, redirectUrl, TypeOf(p), ToJson(p)).value;
            && (p.Text? ==> qr == p.text)
            && (p.Url? ==> qr == NormalizeUrl(p.url))
            && (p.Wifi? ==> DecodeWifi(qr) == Some(Wifi(Trim(p.ssid), if p.auth == NoPass then "" else Trim(p.password),
                                                        p.auth, p.hidden)))
            && (p.VCard? ==> DecodeCard(qr) == Some(VCard(Trim(p.name), Trim(p.org), Trim(p.phone), Trim(p.email),
                                                          Trim(p.site))))
            && (p.Email? ==> (DecodeMailto(qr) == Some(Email(Trim(p.to), Trim(p.subject), Trim(p.body)))
                              <==> '?' !in Trim(p.to)))
  {
    hide DecodeWifi, DecodeCard, DecodeMailto, WifiText, VCardText, EmailText, Trim, HasScheme, Encode, ToJson,
         FromJson;
    StoredRenders(p);
    EncodeMeans(Trimmed(p));
    match p
    case Url(url) => NormalizeTrimmed(url); UrlEncoded(Trim(url));
    case VCard(_, org, phone, email, site) =>
      KeptTidy(org);
      KeptTidy(phone);
      KeptTidy(email);
      KeptTidy(site);
    case Email(to, subject, body) =>
      TrimTwice(to);
      KeptTidy(subject);
      KeptTidy(body);
    case _ =>
  }

  lemma UrlEncoded(url: string)
    ensures Encode(Url(url)) == NormalizeUrl(url)
  {
  }

  lemma KeptTidy(s: string)
    ensures Kept(Trim(s)) == Trim(s)
  {
    hide Trim;
    TrimTwice(s);
  }

  lemma NormalizeTrimmed(url: string)
    ensures NormalizeUrl(Trim(url)) == NormalizeUrl(url)
  {
    hide Trim, HasScheme;
    TrimTwice(url);
  }
}
