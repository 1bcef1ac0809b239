/**
 The heuristic URL checker and its severity order: backend/internal/safety/checker.go and safety.go.
 Go strings are sequences of bytes; a char here stands for one byte.
 */
module Safety {
  import opened Basics

  /** What net/url makes of a URL: its lower-cased scheme and host name, and whether it carries credentials. */
  datatype ParsedUrl = ParsedUrl(scheme: string, host: string, hasUser: bool)

  /**
   HeuristicChecker: its two host lists, and the library calls it relies on (url.Parse after strings.TrimSpace, with
   ToLower applied, and net.ParseIP).
   */
  datatype Checker = Checker(parse: string -> Option<ParsedUrl>, isIp: string -> bool,
                             blocklist: set<string>, shorteners: set<string>)

  datatype Verdict = Safe | Suspicious | Malicious

  datatype ReasonCode =
    | UnparseableUrl | DisallowedScheme | UncommonScheme | MissingHost | EmbeddedCredentials
    | IpLiteralHost | PunycodeHost | LongHost | BlocklistedHost | UrlShortener

  /** The outcome of one check, without its messages and the flag that says it came from the cache. */
  datatype Report = Report(url: string, verdict: Verdict, reasons: seq<ReasonCode>)

  predicate DangerousScheme(scheme: string) {
    scheme in ["javascript", "data", "vbscript", "file", "blob"]
  }

  predicate WebScheme(scheme: string) {
    scheme == "http" || scheme == "https"
  }

  // sevSafe, sevSuspicious, sevMalicious
  const SAFE := 0
  const SUSPICIOUS := 1
  const MALICIOUS := 2

  function VerdictForSeverity(sev: nat): Verdict {
    if sev >= MALICIOUS then Malicious else if sev >= SUSPICIOUS then Suspicious else Safe
  }

  /** How bad each reason is on its own. */
  function SeverityOf(code: ReasonCode): nat {
    match code
    case UnparseableUrl | DisallowedScheme | MissingHost | BlocklistedHost => MALICIOUS
    case _ => SUSPICIOUS
  }

  predicate HasSuffix(s: string, suffix: string) {
    |suffix| <= |s| && s[|s| - |suffix|..] == suffix
  }

  predicate OccursAt(s: string, part: string, k: int) {
    0 <= k <= |s| - |part| && s[k..k + |part|] == part
  }

  predicate Contains(s: string, part: string) {
    exists k :: 0 <= k <= |s| && OccursAt(s, part, k)
  }

  /** host is bad or one of its subdomains: bad's labels end host's labels. */
  predicate SameOrSubdomain(host: string, bad: string) {
    Split(bad, '.') == Split(host, '.')[Max(0, |Split(host, '.')| - |Split(bad, '.')|)..]
  }

  ghost predicate Blocklisted(host: string, blocklist: set<string>) {
    exists bad <- blocklist :: SameOrSubdomain(host, bad)
  }

  /** host has more labels than bad, and bad's labels are its last ones. */
  predicate Subdomain(host: string, bad: string) {
    var labels, suffix := Split(host, '.'), Split(bad, '.');
    |labels| > |suffix| && labels[|labels| - |suffix|..] == suffix
  }

  lemma SuffixGivesLabels(host: string, bad: string)
    requires HasSuffix(host, "." + bad)
    ensures Subdomain(host, bad)
  {
    hide Split;
    var front := host[..|host| - |bad| - 1];
    assert host == front + "." + bad by {
      assert host == host[..|host| - |bad| - 1] + host[|host| - |bad| - 1..];
      assert front + "." + bad == front + ("." + bad);
    }
    SplitConcat(front, '.', bad);
    var labels := Split(front, '.') + Split(bad, '.');
    assert labels[|Split(front, '.')|..] == Split(bad, '.');
  }

  lemma LabelsGiveSuffix(host: string, bad: string)
    requires Subdomain(host, bad)
    ensures HasSuffix(host, "." + bad)
  {
    hide Split, Join;
    var labels := Split(host, '.');
    var n := |labels| - |Split(bad, '.')|;
    JoinSplit(host, '.');
    JoinSplit(bad, '.');
    assert labels == labels[..n] + Split(bad, '.');
    JoinConcat(labels[..n], Split(bad, '.'), ".");
    var front := Join(labels[..n], ".");
    assert host == front + "." + bad;
    assert host[|front|..] == "." + bad;
  }

  /** The string test in isBlocklisted is proper label-wise suffix matching, and with the exact hit suffix matching. */
  lemma SuffixIsSubdomain(host: string, bad: string)
    ensures HasSuffix(host, "." + bad) <==> Subdomain(host, bad)
    ensures host == bad || HasSuffix(host, "." + bad) <==> SameOrSubdomain(host, bad)
  {
    hide Split;
    if HasSuffix(host, "." + bad) {
      SuffixGivesLabels(host, bad);
    }
    if Subdomain(host, bad) {
      LabelsGiveSuffix(host, bad);
    }
    JoinSplit(host, '.');
    JoinSplit(bad, '.');
  }

  /** The findings on a named web host. */
  ghost predicate HostApplies(c: Checker, host: string, hasUser: bool, code: ReasonCode) {
    match code
    case EmbeddedCredentials => hasUser
    case IpLiteralHost => c.isIp(host)
    case PunycodeHost => Contains(host, "xn--")
    case LongHost => |host| > 100
    case BlocklistedHost => Blocklisted(host, c.blocklist)
    case UrlShortener => host in c.shorteners
    case _ => false
  }

  /** When each reason applies to a URL. */
  ghost predicate Applies(c: Checker, url: string, code: ReasonCode) {
    match c.parse(url)
    case None => code.UnparseableUrl?
    case Some(u) =>
      var web := WebScheme(u.scheme);
      var named := web && u.host != "";
      match code
      case UnparseableUrl => false
      case DisallowedScheme => u.scheme == "" || DangerousScheme(u.scheme)
      case UncommonScheme => !web && u.scheme != "" && !DangerousScheme(u.scheme)
      case MissingHost => web && u.host == ""
      case _ => named && HostApplies(c, u.host, u.hasUser, code)
  }

  /** The checker's verdict as a property of the URL alone. */
  ghost function VerdictOf(c: Checker, url: string): Verdict {
    if exists code :: Applies(c, url, code) && SeverityOf(code) == MALICIOUS then Malicious
    else if exists code :: Applies(c, url, code) then Suspicious
    else Safe
  }

  function When(applies: bool, code: ReasonCode): seq<ReasonCode> {
    if applies then [code] else []
  }

  /** The reasons that apply, each once, in the order they are reported. */
  ghost function Applicable(c: Checker, url: string): seq<ReasonCode> {
    match c.parse(url)
    case None => [UnparseableUrl]
    case Some(u) =>
      if !WebScheme(u.scheme) then
        if u.scheme == "" || DangerousScheme(u.scheme) then [DisallowedScheme] else [UncommonScheme]
      else if u.host == "" then [MissingHost]
      else ApplicableToHost(c, u.host, u.hasUser)
  }

  ghost function ApplicableToHost(c: Checker, host: string, hasUser: bool): seq<ReasonCode> {
    [] + When(hasUser, EmbeddedCredentials) + When(c.isIp(host), IpLiteralHost)
    + When(Contains(host, "xn--"), PunycodeHost) + When(|host| > 100, LongHost)
    + When(Blocklisted(host, c.blocklist), BlocklistedHost) + When(host in c.shorteners, UrlShortener)
  }

  /** The worst of a list of reasons; nothing at all is safe. */
  function Worst(codes: seq<ReasonCode>): nat {
    if codes == [] then SAFE else Max(Worst(codes[..|codes| - 1]), SeverityOf(codes[|codes| - 1]))
  }

  lemma {:induction false} WorstBounds(codes: seq<ReasonCode>)
    ensures Worst(codes) == MALICIOUS <==> exists code <- codes :: SeverityOf(code) == MALICIOUS
    ensures Worst(codes) == SAFE <==> codes == []
    ensures Worst(codes) <= MALICIOUS
  {
    if codes != [] {
      var front, last := codes[..|codes| - 1], codes[|codes| - 1];
      WorstBounds(front);
      if Worst(front) == MALICIOUS {
        var code :| code in front && SeverityOf(code) == MALICIOUS;
        assert code in codes;
      }
      if code :| code in codes && SeverityOf(code) == MALICIOUS {
        assert code in front || code == last;
      }
    }
  }

  lemma ApplicableMembers(c: Checker, url: string, code: ReasonCode)
    ensures code in Applicable(c, url) <==> Applies(c, url, code)
  {
    match c.parse(url)
    case None =>
    case Some(u) =>
      HostMembers(c, u.host, u.hasUser, code);
  }

  lemma HostMembers(c: Checker, host: string, hasUser: bool, code: ReasonCode)
    ensures code in ApplicableToHost(c, host, hasUser) <==> HostApplies(c, host, hasUser, code)
  {
    hide Contains, Blocklisted;
  }

  /** The verdict is the maximum severity of the reasons: safe exactly when there are none. */
  lemma WorstIsVerdict(c: Checker, url: string)
    ensures VerdictForSeverity(Worst(Applicable(c, url))) == VerdictOf(c, url)
    ensures VerdictOf(c, url).Safe? <==> Applicable(c, url) == []
  {
    var codes := Applicable(c, url);
    WorstBounds(codes);
    forall code: ReasonCode ensures code in codes <==> Applies(c, url, code) {
      ApplicableMembers(c, url, code);
    }
    if codes != [] {
      assert Applies(c, url, codes[0]);
    }
  }

  /** A host whose dot-separated labels end with those of a blocklisted domain. */
  ghost predicate UnderBlocklisted(c: Checker, host: string) {
    exists bad <- c.blocklist :: EndsWith(Split(host, '.'), Split(bad, '.'))
  }

  predicate EndsWith(labels: seq<string>, last: seq<string>) {
    |last| <= |labels| && labels[|labels| - |last|..] == last
  }

  /** The URLs nothing dynamic may point to, written out. */
  ghost predicate MaliciousUrl(c: Checker, url: string) {
    match c.parse(url)
    case None => true
    case Some(u) =>
      || u.scheme == "" || u.scheme == "javascript" || u.scheme == "data" || u.scheme == "vbscript"
      || u.scheme == "file" || u.scheme == "blob"
      || ((u.scheme == "http" || u.scheme == "https") && (u.host == "" || UnderBlocklisted(c, u.host)))
  }

  /** The signals that are suspicious on their own, written out. */
  ghost predicate SuspiciousSignal(c: Checker, url: string) {
    match c.parse(url)
    case None => false
    case Some(u) =>
      if u.scheme == "http" || u.scheme == "https" then
        u.host != "" && (u.hasUser || c.isIp(u.host) || |u.host| > 100 || u.host in c.shorteners
                         || exists a, b :: u.host == a + "xn--" + b)
      else true
  }

  lemma ContainsIs(s: string, part: string)
    ensures Contains(s, part) <==> exists a, b :: s == a + part + b
  {
    if Contains(s, part) {
      var k :| 0 <= k <= |s| && OccursAt(s, part, k);
      assert s == s[..k] + part + s[k + |part|..];
    }
    if a, b :| s == a + part + b {
      assert s[|a|..|a| + |part|] == part;
      assert OccursAt(s, part, |a|);
    }
  }

  lemma BlocklistedIs(c: Checker, host: string)
    ensures Blocklisted(host, c.blocklist) <==> UnderBlocklisted(c, host)
  {
    LabelsEnd(host, c.blocklist);
  }

  lemma LabelsEnd(host: string, blocklist: set<string>)
    ensures Blocklisted(host, blocklist) <==> exists bad <- blocklist :: EndsWith(Split(host, '.'), Split(bad, '.'))
  {
    hide Split;
    forall bad | bad in blocklist ensures SameOrSubdomain(host, bad) <==> EndsWith(Split(host, '.'), Split(bad, '.')) {
      assert Split(host, '.')[0..] == Split(host, '.');
    }
  }

  /** Each reason's place among the written-out conditions. */
  lemma ReasonIs(c: Checker, url: string, code: ReasonCode)
    requires Applies(c, url, code)
    ensures SeverityOf(code) == MALICIOUS ==> MaliciousUrl(c, url)
    ensures SeverityOf(code) != MALICIOUS ==> SuspiciousSignal(c, url)
  {
    hide Contains, Blocklisted, UnderBlocklisted;
    if c.parse(url).Some? {
      BlocklistedIs(c, c.parse(url).value.host);
      ContainsIs(c.parse(url).value.host, "xn--");
    }
  }

  lemma MaliciousHasReason(c: Checker, url: string)
    requires MaliciousUrl(c, url)
    ensures exists code :: Applies(c, url, code) && SeverityOf(code) == MALICIOUS
  {
    hide Contains, Blocklisted, UnderBlocklisted;
    match c.parse(url)
    case None => assert Applies(c, url, UnparseableUrl);
    case Some(u) =>
      BlocklistedIs(c, u.host);
      if !WebScheme(u.scheme) {
        assert Applies(c, url, DisallowedScheme);
      } else if u.host == "" {
        assert Applies(c, url, MissingHost);
      } else {
        assert Applies(c, url, BlocklistedHost);
      }
  }

  lemma SuspiciousHasReason(c: Checker, url: string)
    requires SuspiciousSignal(c, url)
    ensures exists code :: Applies(c, url, code)
  {
    hide Contains, Blocklisted;
    var u := c.parse(url).value;
    ContainsIs(u.host, "xn--");
    if !WebScheme(u.scheme) {
      assert Applies(c, url, DisallowedScheme) || Applies(c, url, UncommonScheme);
    } else {
      assert || Applies(c, url, EmbeddedCredentials) || Applies(c, url, IpLiteralHost) || Applies(c, url, PunycodeHost)
             || Applies(c, url, LongHost) || Applies(c, url, UrlShortener);
    }
  }

  /** The verdict in the URL's own terms. */
  lemma VerdictIs(c: Checker, url: string)
    ensures VerdictOf(c, url).Malicious? <==> MaliciousUrl(c, url)
    ensures VerdictOf(c, url).Suspicious? <==> !MaliciousUrl(c, url) && SuspiciousSignal(c, url)
  {
    hide Applies, SeverityOf, MaliciousUrl, SuspiciousSignal;
    if MaliciousUrl(c, url) {
      MaliciousHasReason(c, url);
    }
    if SuspiciousSignal(c, url) {
      SuspiciousHasReason(c, url);
    }
    forall code | Applies(c, url, code)
      ensures SeverityOf(code) == MALICIOUS ==> MaliciousUrl(c, url)
      ensures SeverityOf(code) != MALICIOUS ==> SuspiciousSignal(c, url)
    {
      ReasonIs(c, url, code);
    }
  }

  /** The one reason for a URL that names no web host. */
  lemma ReasonsAre(c: Checker, url: string)
    ensures c.parse(url).None? ==> Applicable(c, url) == [UnparseableUrl]
    ensures c.parse(url).Some? ==>
              var u := c.parse(url).value;
              && (u.scheme in ["", "javascript", "data", "vbscript", "file", "blob"] ==>
                    Applicable(c, url) == [DisallowedScheme])
              && (u.scheme !in ["", "javascript", "data", "vbscript", "file", "blob", "http", "https"] ==>
                    Applicable(c, url) == [UncommonScheme])
              && (u.scheme in ["http", "https"] && u.host == "" ==> Applicable(c, url) == [MissingHost])
  {
    hide Contains, Blocklisted, ApplicableToHost;
  }

  /** The reasons for a URL that names a web host, in their fixed order. */
  lemma HostReasonsAre(c: Checker, url: string, u: ParsedUrl)
    requires c.parse(url) == Some(u) && u.scheme in ["http", "https"] && u.host != ""
    ensures Applicable(c, url) ==
              (if u.hasUser then [EmbeddedCredentials] else [])
              + (if c.isIp(u.host) then [IpLiteralHost] else [])
              + (if exists a, b :: u.host == a + "xn--" + b then [PunycodeHost] else [])
              + (if |u.host| > 100 then [LongHost] else [])
              + (if UnderBlocklisted(c, u.host) then [BlocklistedHost] else [])
              + (if u.host in c.shorteners then [UrlShortener] else [])
  {
    hide Contains, Blocklisted, UnderBlocklisted;
    BlocklistedIs(c, u.host);
    ContainsIs(u.host, "xn--");
    assert Applicable(c, url) == ApplicableToHost(c, u.host, u.hasUser);
  }

  /** isBlocklisted: an exact hit, then a scan of the blocklist in no particular order. */
  method IsBlocklisted(host: string, blocklist: set<string>) returns (found: bool)
    ensures found <==> Blocklisted(host, blocklist)
    ensures found <==> exists bad <- blocklist :: EndsWith(Split(host, '.'), Split(bad, '.'))
  {
    LabelsEnd(host, blocklist);
    if host in blocklist {
      SuffixIsSubdomain(host, host);
      return true;
    }
    var rest := blocklist;
    while rest != {}
      invariant rest <= blocklist
      invariant forall bad <- blocklist - rest :: !SameOrSubdomain(host, bad)
      decreases |rest|
    {
      var bad :| bad in rest;
      SuffixIsSubdomain(host, bad);
      if HasSuffix(host, "." + bad) {
        return true;
      }
      rest := rest - {bad};
    }
    return false;
  }

  /** HeuristicChecker.Check: reports exactly the reasons that apply, and the worst of them as the verdict. */
  method Check(c: Checker, url: string) returns (report: Report)
    ensures report.url == url
    ensures report.reasons == Applicable(c, url)
    ensures report.verdict == VerdictOf(c, url)
    ensures report.verdict == if MaliciousUrl(c, url) then Malicious
                              else if SuspiciousSignal(c, url) then Suspicious else Safe
  {
    hide MaliciousUrl, SuspiciousSignal, VerdictOf;
    VerdictIs(c, url);
    var sev, reasons := SAFE, [];
    var parsed := c.parse(url);
    if parsed.None? {
      sev, reasons := Add(sev, reasons, MALICIOUS, UnparseableUrl);
    } else {
      var scheme, host := parsed.value.scheme, parsed.value.host;
      if WebScheme(scheme) {
      } else if scheme == "" {
        sev, reasons := Add(sev, reasons, MALICIOUS, DisallowedScheme);
      } else if DangerousScheme(scheme) {
        sev, reasons := Add(sev, reasons, MALICIOUS, DisallowedScheme);
      } else {
        sev, reasons := Add(sev, reasons, SUSPICIOUS, UncommonScheme);
      }
      if WebScheme(scheme) {
        if host == "" {
          sev, reasons := Add(sev, reasons, MALICIOUS, MissingHost);
        } else {
          sev, reasons := CheckHost(c, host, parsed.value.hasUser);
        }
      }
    }
    WorstIsVerdict(c, url);
    report := Report(url, VerdictForSeverity(sev), reasons);
  }

  /** The part of Check that looks at a named web host; nothing has been found before it. */
  method CheckHost(c: Checker, host: string, hasUser: bool) returns (sev: nat, reasons: seq<ReasonCode>)
    ensures sev == Worst(reasons)
    ensures reasons == ApplicableToHost(c, host, hasUser)
    ensures sev == if UnderBlocklisted(c, host) then 2 else if reasons != [] then 1 else 0
  {
    hide Contains, Blocklisted, UnderBlocklisted, EndsWith, Split, Worst, SeverityOf;
    HostSeverity(c, host, hasUser);
    SeveritiesAre();
    NothingFound();
    sev, reasons := SAFE, [];
    sev, reasons := AddIf(hasUser, sev, reasons, SUSPICIOUS, EmbeddedCredentials);
    sev, reasons := AddIf(c.isIp(host), sev, reasons, SUSPICIOUS, IpLiteralHost);
    sev, reasons := AddIf(Contains(host, "xn--"), sev, reasons, SUSPICIOUS, PunycodeHost);
    sev, reasons := AddIf(|host| > 100, sev, reasons, SUSPICIOUS, LongHost);
    var listed := IsBlocklisted(host, c.blocklist);
    sev, reasons := AddIf(listed, sev, reasons, MALICIOUS, BlocklistedHost);
    sev, reasons := AddIf(host in c.shorteners, sev, reasons, SUSPICIOUS, UrlShortener);
  }

  lemma SeveritiesAre()
    ensures SeverityOf(BlocklistedHost) == MALICIOUS
    ensures forall code <- [EmbeddedCredentials, IpLiteralHost, PunycodeHost, LongHost, UrlShortener] ::
              SeverityOf(code) == SUSPICIOUS
  {
  }

  lemma NothingFound()
    ensures Worst([]) == SAFE
  {
  }

  lemma HostSeverity(c: Checker, host: string, hasUser: bool)
    ensures var reasons := ApplicableToHost(c, host, hasUser);
            Worst(reasons) == if UnderBlocklisted(c, host) then 2 else if reasons != [] then 1 else 0
  {
    hide Contains, Blocklisted, UnderBlocklisted, ApplicableToHost;
    var reasons := ApplicableToHost(c, host, hasUser);
    WorstBounds(reasons);
    BlocklistedIs(c, host);
    forall code: ReasonCode ensures code in reasons <==> HostApplies(c, host, hasUser, code) {
      HostMembers(c, host, hasUser, code);
    }
    if UnderBlocklisted(c, host) {
      assert BlocklistedHost in reasons && SeverityOf(BlocklistedHost) == MALICIOUS;
    } else {
      assert forall code <- reasons :: SeverityOf(code) != MALICIOUS;
    }
  }

  /** One host test: its reason is added when it holds. */
  method AddIf(found: bool, sev: nat, reasons: seq<ReasonCode>, s: nat, code: ReasonCode)
    returns (sev': nat, reasons': seq<ReasonCode>)
    requires sev == Worst(reasons) && s == SeverityOf(code)
    ensures reasons' == reasons + When(found, code)
    ensures sev' == Worst(reasons')
  {
    sev', reasons' := sev, reasons;
    if found {
      sev', reasons' := Add(sev, reasons, s, code);
    }
  }

  /** The closure that raises the severity and appends the reason. */
  method Add(sev: nat, reasons: seq<ReasonCode>, s: nat, code: ReasonCode)
    returns (sev': nat, reasons': seq<ReasonCode>)
    requires sev == Worst(reasons) && s == SeverityOf(code)
    ensures reasons' == reasons + [code]
    ensures sev' == Worst(reasons')
  {
    sev' := sev;
    if s > sev {
      sev' := s;
    }
    reasons' := reasons + [code];
    assert reasons'[..|reasons|] == reasons;
  }
}
