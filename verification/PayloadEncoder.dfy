/** The strings QR codes hold: mobile/lib/features/generator/data/payload_encoder.dart. */
module PayloadEncoder {
  import opened Basics
  import opened DartText
  import opened Payload

  /** replaceAll of one character by a string. */
  function ReplaceAll(s: string, c: char, with: string): string {
    if s == "" then "" else (if s[0] == c then with else [s[0]]) + ReplaceAll(s[1..], c, with)
  }

  predicate WifiSpecial(c: char) { c in "\\;,:\"" }

  /** A backslash before each special character. */
  function WifiEscape(s: string): string {
    if s == "" then "" else (if WifiSpecial(s[0]) then ['\\', s[0]] else [s[0]]) + WifiEscape(s[1..])
  }

  function WifiText(ssid: string, password: string, auth: WifiAuth, hidden: bool): string {
    "WIFI:T:" + AuthWire(auth) + ";S:" + WifiEscape(ssid)
    + ";P:" + (if auth == NoPass then "" else WifiEscape(password))
    + ";H:" + (if hidden then "true" else "false") + ";;"
  }

  /** Four passes, one character each. */
  function VCardEscape(s: string): string {
    var backslashes := ReplaceAll(s, '\\', "\\\\");
    var commas := ReplaceAll(backslashes, ',', "\\,");
    var semicolons := ReplaceAll(commas, ';', "\\;");
    ReplaceAll(semicolons, '\n', "\\n")
  }

  function OptionalLine(name: string, value: string): seq<string> {
    if Blank(value) then [] else [name + ":" + VCardEscape(value)]
  }

  function VCardLines(name: string, org: string, phone: string, email: string, site: string): seq<string> {
    ["BEGIN:VCARD", "VERSION:3.0", "FN:" + VCardEscape(name)]
    + OptionalLine("ORG", org) + OptionalLine("TEL", phone) + OptionalLine("EMAIL", email) + OptionalLine("URL", site)
    + ["END:VCARD"]
  }

  function VCardText(name: string, org: string, phone: string, email: string, site: string): string {
    Join(VCardLines(name, org, phone, email, site), "\n")
  }

  function OptionalParam(name: string, value: string): seq<string> {
    if Blank(value) then [] else [name + "=" + EncodeComponent(value)]
  }

  function EmailQuery(subject: string, body: string): string {
    var params := OptionalParam("subject", subject) + OptionalParam("body", body);
    if params == [] then "" else "?" + Join(params, "&")
  }

  function EmailText(to: string, subject: string, body: string): string {
    "mailto:" + Trim(to) + EmailQuery(subject, body)
  }

  /** What the QR of a static code holds. */
  function Encode(p: CodePayload): string {
    match p
    case Url(url) => NormalizeUrl(url)
    case Wifi(ssid, password, auth, hidden) => WifiText(ssid, password, auth, hidden)
    case VCard(name, org, phone, email, site) => VCardText(name, org, phone, email, site)
    case Email(to, subject, body) => EmailText(to, subject, body)
    case Text(text) => text
  }

  /** _email: the parameters are collected one by one. */
  method BuildEmail(to: string, subject: string, body: string) returns (s: string)
    ensures s == EmailText(to, subject, body)
  {
    var params: seq<string> := [];
    if Trim(subject) != "" {
      params := params + ["subject=" + EncodeComponent(subject)];
    }
    if Trim(body) != "" {
      params := params + ["body=" + EncodeComponent(body)];
    }
    assert "subject" + "=" == "subject=" && "body" + "=" == "body=";
    assert params == OptionalParam("subject", subject) + OptionalParam("body", body);
    var query := if params == [] then "" else "?" + Join(params, "&");
    s := "mailto:" + Trim(to) + query;
  }
}
