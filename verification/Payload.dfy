/** The contents of a code and how they are stored: mobile/lib/features/generator/data/code_payload.dart. */
module Payload {
  import opened Basics
  import opened DartText

  datatype CodeType = UrlType | WifiType | VCardType | EmailType | TextType

  const CODE_TYPES := [UrlType, WifiType, VCardType, EmailType, TextType]

  function Wire(t: CodeType): string {
    match t
    case UrlType => "url"
    case WifiType => "wifi"
    case VCardType => "vcard"
    case EmailType => "email"
    case TextType => "text"
  }

  /** The first type with this wire value; text for anything unknown. */
  function ParseAmong(types: seq<CodeType>, s: string): CodeType {
    if types == [] then TextType else if Wire(types[0]) == s then types[0] else ParseAmong(types[1..], s)
  }

  function ParseType(s: string): CodeType { ParseAmong(CODE_TYPES, s) }

  datatype WifiAuth = Wpa | Wep | NoPass

  function AuthWire(a: WifiAuth): string {
    match a case Wpa => "WPA" case Wep => "WEP" case NoPass => "nopass"
  }

  function ParseAuth(s: Option<string>): WifiAuth {
    if s == Some("WPA") then Wpa else if s == Some("WEP") then Wep else if s == Some("nopass") then NoPass else Wpa
  }

  datatype CodePayload =
    | Url(url: string)
    | Wifi(ssid: string, password: string, auth: WifiAuth, hidden: bool)
    | VCard(name: string, org: string, phone: string, email: string, site: string)
    | Email(to: string, subject: string, body: string)
    | Text(text: string)

  function TypeOf(p: CodePayload): CodeType {
    match p
    case Url(_) => UrlType
    case Wifi(_, _, _, _) => WifiType
    case VCard(_, _, _, _, _) => VCardType
    case Email(_, _, _) => EmailType
    case Text(_) => TextType
  }

  /** As much of JSON as payloads use; anything else is Other. */
  datatype JsonValue = JsonString(text: string) | JsonBool(value: bool) | JsonNull | Other

  type Json = map<string, JsonValue>

  predicate SchemeStart(c: char) { 'a' <= c <= 'z' || 'A' <= c <= 'Z' }

  predicate SchemeChar(c: char) { SchemeStart(c) || '0' <= c <= '9' || c in "+.-" }

  /** A letter and scheme characters, n in all, and then "://". */
  predicate StartsWithScheme(s: string, n: nat) {
    && 1 <= n && n + 3 <= |s| && SchemeStart(s[0])
    && (forall i :: 1 <= i < n ==> SchemeChar(s[i]))
    && s[n..n + 3] == "://"
  }

  predicate HasScheme(s: string) {
    exists n: nat :: n < |s| && StartsWithScheme(s, n)
  }

  /** Prepends https:// when there is no scheme. */
  function NormalizeUrl(raw: string): string {
    var t := Trim(raw);
    if t == "" then t else if HasScheme(t) then t else "https://" + t
  }

  function ToJson(p: CodePayload): Json {
    match p
    case Url(url) => map["url" := JsonString(NormalizeUrl(url))]
    case Wifi(ssid, password, auth, hidden) =>
      map["ssid" := JsonString(ssid),
          "password" := JsonString(if auth == NoPass then "" else password),
          "auth" := JsonString(AuthWire(auth)), "hidden" := JsonBool(hidden)]
    case VCard(name, org, phone, email, site) =>
      map["name" := JsonString(name), "org" := JsonString(org), "phone" := JsonString(phone),
          "email" := JsonString(email), "url" := JsonString(site)]
    case Email(to, subject, body) =>
      map["to" := JsonString(to), "subject" := JsonString(subject), "body" := JsonString(body)]
    case Text(text) => map["text" := JsonString(text)]
  }

  /** A value cast to a nullable string; Err when it is of another type, which throws. */
  function AsString(json: Json, k: string): Result<Option<string>, ()> {
    if k !in json then Ok(None)
    else match json[k]
         case JsonNull => Ok(None)
         case JsonString(s) => Ok(Some(s))
         case _ => Err(())
  }

  function AsBool(json: Json, k: string): Result<Option<bool>, ()> {
    if k !in json then Ok(None)
    else match json[k]
         case JsonNull => Ok(None)
         case JsonBool(b) => Ok(Some(b))
         case _ => Err(())
  }

  /** A trimmed field, empty when missing; None when the cast throws. */
  function Field(json: Json, k: string): Option<string> {
    match AsString(json, k)
    case Err(_) => None
    case Ok(s) => Some(if s.Some? then Trim(s.value) else "")
  }

  /** Rebuilds a payload from stored data; None when a cast throws. */
  function FromJson(t: CodeType, json: Json): Option<CodePayload> {
    match t
    case UrlType => (match Field(json, "url") case Some(url) => Some(Url(url)) case None => None)
    case WifiType =>
      (match (Field(json, "ssid"), Field(json, "password"), AsString(json, "auth"), AsBool(json, "hidden"))
       case (Some(ssid), Some(password), Ok(auth), Ok(hidden)) =>
         Some(Wifi(ssid, password, ParseAuth(auth), hidden.Some? && hidden.value))
       case _ => None)
    case VCardType =>
      (match (Field(json, "name"), Field(json, "org"), Field(json, "phone"), Field(json, "email"), Field(json, "url"))
       case (Some(name), Some(org), Some(phone), Some(email), Some(site)) => Some(VCard(name, org, phone, email, site))
       case _ => None)
    case EmailType =>
      (match (Field(json, "to"), Field(json, "subject"), Field(json, "body"))
       case (Some(to), Some(subject), Some(body)) => Some(Email(to, subject, body))
       case _ => None)
    case TextType =>
      (match AsString(json, "text")
       case Ok(text) => Some(Text(if text.Some? then text.value else ""))
       case Err(_) => None)
  }

  /** What storing and reloading leaves of a payload. */
  function Reloaded(p: CodePayload): CodePayload {
    match p
    case Url(url) => Url(NormalizeUrl(url))
    case Wifi(ssid, password, auth, hidden) =>
      Wifi(Trim(ssid), if auth == NoPass then "" else Trim(password), auth, hidden)
    case VCard(name, org, phone, email, site) => VCard(Trim(name), Trim(org), Trim(phone), Trim(email), Trim(site))
    case Email(to, subject, body) => Email(Trim(to), Trim(subject), Trim(body))
    case Text(_) => p
  }

  /** The wire values by name. */
  lemma ParseTypeIs(s: string)
    ensures ParseType(s) == if s == "url" then UrlType else if s == "wifi" then WifiType
                            else if s == "vcard" then VCardType else if s == "email" then EmailType else TextType
    ensures ParseAuth(None) == Wpa
    ensures ParseAuth(Some(s)) == if s == "WEP" then Wep else if s == "nopass" then NoPass else Wpa
  {
    assert CODE_TYPES[1..] == [WifiType, VCardType, EmailType, TextType];
    assert [WifiType, VCardType, EmailType, TextType][1..] == [VCardType, EmailType, TextType];
    assert [VCardType, EmailType, TextType][1..] == [EmailType, TextType];
    assert [EmailType, TextType][1..] == [TextType];
    assert ParseAmong([TextType], s) == TextType;
    assert ParseAmong([EmailType, TextType], s) == if s == "email" then EmailType else TextType;
    assert ParseAmong([VCardType, EmailType, TextType], s)
           == if s == "vcard" then VCardType else if s == "email" then EmailType else TextType;
    var four := [WifiType, VCardType, EmailType, TextType];
    assert ParseAmong(four, s) == if Wire(four[0]) == s then four[0] else ParseAmong(four[1..], s);
    var all := CODE_TYPES;
    assert ParseAmong(all, s) == if Wire(all[0]) == s then all[0] else ParseAmong(all[1..], s);
    assert ParseType(s) == ParseAmong(all, s);
  }

  /** The stored fields by name. */
  lemma JsonIs(p: CodePayload)
    ensures p.Url? ==> ToJson(p) == map["url" := JsonString(NormalizeUrl(p.url))]
    ensures p.Wifi? ==> ToJson(p).Keys == {"ssid", "password", "auth", "hidden"}
                        && ToJson(p)["ssid"] == JsonString(p.ssid) && ToJson(p)["hidden"] == JsonBool(p.hidden)
    ensures p.Wifi? && p.auth == Wpa ==>
              ToJson(p)["auth"] == JsonString("WPA") && ToJson(p)["password"] == JsonString(p.password)
    ensures p.Wifi? && p.auth == Wep ==>
              ToJson(p)["auth"] == JsonString("WEP") && ToJson(p)["password"] == JsonString(p.password)
    ensures p.Wifi? && p.auth == NoPass ==>
              ToJson(p)["auth"] == JsonString("nopass") && ToJson(p)["password"] == JsonString("")
    ensures p.VCard? ==> ToJson(p).Keys == {"name", "org", "phone", "email", "url"}
                         && ToJson(p)["name"] == JsonString(p.name) && ToJson(p)["org"] == JsonString(p.org)
                         && ToJson(p)["phone"] == JsonString(p.phone) && ToJson(p)["email"] == JsonString(p.email)
                         && ToJson(p)["url"] == JsonString(p.site)
    ensures p.Email? ==> ToJson(p).Keys == {"to", "subject", "body"} && ToJson(p)["to"] == JsonString(p.to)
                         && ToJson(p)["subject"] == JsonString(p.subject) && ToJson(p)["body"] == JsonString(p.body)
    ensures p.Text? ==> ToJson(p) == map["text" := JsonString(p.text)]
  {
    KeysDiffer();
  }

  /** Wire values are told apart, and an unknown one is text. */
  lemma TypeRoundTrip(t: CodeType, s: string)
    ensures ParseType(Wire(t)) == t
    ensures (forall u: CodeType :: Wire(u) != s) ==> ParseType(s) == TextType
  {
    WireApart(t);
    if forall u: CodeType :: Wire(u) != s {
      UnknownType(CODE_TYPES, s);
    }
  }

  lemma WireApart(t: CodeType)
    ensures ParseType(Wire(t)) == t
  {
    assert Wire(UrlType)[0] == 'u' && Wire(WifiType)[0] == 'w' && Wire(VCardType)[0] == 'v';
    assert Wire(EmailType)[0] == 'e' && Wire(TextType)[0] == 't';
    var l := CODE_TYPES;
    assert l[1..] == [WifiType, VCardType, EmailType, TextType];
    assert l[1..][1..] == [VCardType, EmailType, TextType];
    assert l[1..][1..][1..] == [EmailType, TextType];
    assert l[1..][1..][1..][1..] == [TextType];
    assert ParseAmong([TextType], Wire(t)) == TextType;
  }

  lemma {:induction false} UnknownType(types: seq<CodeType>, s: string)
    requires forall u: CodeType :: Wire(u) != s
    ensures ParseAmong(types, s) == TextType
  {
    if types != [] {
      UnknownType(types[1..], s);
    }
  }

  lemma AuthRoundTrip(a: WifiAuth)
    ensures ParseAuth(Some(AuthWire(a))) == a
  {
    assert AuthWire(Wpa)[1] == 'P' && AuthWire(Wep)[1] == 'E' && AuthWire(NoPass)[1] == 'o';
  }

  /** A scheme, in front of the first "://": a letter, then letters, digits, plus signs, dots and hyphens. */
  predicate SchemeName(name: string) {
    && name != "" && ('a' <= name[0] <= 'z' || 'A' <= name[0] <= 'Z')
    && forall c <- name :: 'a' <= c <= 'z' || 'A' <= c <= 'Z' || '0' <= c <= '9' || c == '+' || c == '.' || c == '-'
  }

  lemma HasSchemeIs(s: string)
    ensures HasScheme(s) <==> exists name, rest :: s == name + "://" + rest && SchemeName(name)
  {
    if HasScheme(s) {
      var n: nat :| n < |s| && StartsWithScheme(s, n);
      var name := s[..n];
      assert s == name + "://" + s[n + 3..];
      forall c | c in name ensures SchemeChar(c) {
        var i :| 0 <= i < |name| && name[i] == c;
        assert s[i] == c;
      }
      assert SchemeName(name);
    }
    if name, rest :| s == name + "://" + rest && SchemeName(name) {
      assert s[|name|..|name| + 3] == "://";
      forall i | 1 <= i < |name| ensures SchemeChar(s[i]) {
        assert name[i] in name;
      }
      assert StartsWithScheme(s, |name|);
    }
  }

  /** What is encoded and stored for a url: nothing for nothing, and otherwise a link that ends with what was typed. */
  lemma NormalizeIs(raw: string)
    ensures Trim(raw) == "" ==> NormalizeUrl(raw) == ""
    ensures Trim(raw) != "" && HasScheme(Trim(raw)) ==> NormalizeUrl(raw) == Trim(raw)
    ensures Trim(raw) != "" && !HasScheme(Trim(raw)) ==> NormalizeUrl(raw) == "https://" + Trim(raw)
    ensures NormalizeUrl(raw) == "" || HasScheme(NormalizeUrl(raw))
    ensures exists prefix :: NormalizeUrl(raw) == prefix + Trim(raw)
  {
    hide HasScheme;
    HttpsHasScheme(Trim(raw));
    assert NormalizeUrl(raw) == "" + Trim(raw) || NormalizeUrl(raw) == "https://" + Trim(raw);
  }

  lemma HttpsHasScheme(t: string)
    ensures HasScheme("https://" + t)
  {
    var s := "https://" + t;
    assert s[..5] == "https" && s[5..8] == "://";
    assert forall i :: 1 <= i < 5 ==> SchemeChar(s[i]);
    assert StartsWithScheme(s, 5);
  }

  /** A normalized url stays as it is, with or without trimming on the way. */
  lemma NormalizeTwice(raw: string)
    ensures Trim(NormalizeUrl(raw)) == NormalizeUrl(raw)
    ensures NormalizeUrl(NormalizeUrl(raw)) == NormalizeUrl(raw)
  {
    hide HasScheme;
    var t := Trim(raw);
    TrimTwice(raw);
    TrimIsTidy(raw);
    if t != "" && !HasScheme(t) {
      var s := "https://" + t;
      HttpsHasScheme(t);
      assert s[0] == 'h' && s[|s| - 1] == t[|t| - 1];
      TrimIsTidy(s);
    }
  }

  /** Storing and reloading a payload trims its fields, and nothing throws. */
  lemma StoreReload(p: CodePayload)
    ensures FromJson(TypeOf(p), ToJson(p)) == Some(Reloaded(p))
  {
    hide NormalizeUrl, Trim, HasScheme;
    match p
    case Url(url) => NormalizeTwice(url);
    case Wifi(ssid, password, auth, hidden) =>
      AuthRoundTrip(auth);
      KeysDiffer();
      EmptyIsTrimmed();
    case _ => KeysDiffer();
  }

  lemma EmptyIsTrimmed()
    ensures Trim("") == ""
  {
  }

  lemma KeysDiffer()
    ensures "ssid" != "password" && "ssid" != "auth" && "ssid" != "hidden" && "password" != "auth"
    ensures "password" != "hidden" && "auth" != "hidden"
    ensures "name" != "org" && "name" != "phone" && "name" != "email" && "name" != "url"
    ensures "org" != "phone" && "org" != "email" && "org" != "url" && "phone" != "email" && "phone" != "url"
    ensures "email" != "url" && "to" != "subject" && "to" != "body" && "subject" != "body"
  {
    assert "ssid"[0] == 's' && "auth"[0] == 'a' && "name"[0] == 'n' && "org"[0] == 'o' && "url"[0] == 'u';
  }
}
