/**
 Scan statistics over an append-only log: the scan queries of backend/internal/codes/repository.go, RecordScan of
 redirect.go and Analytics of service.go. Days are numbered from the start of year 0, in UTC.
 */
module Analytics {
  import opened Basics
  import opened Rfc3339
  import opened Cursor
  import opened Tables
  import opened Protocol
  import opened CodesRepository

  datatype ScanEvent = ScanEvent(slug: string, ipHash: Option<string>, userAgent: Option<string>, scannedAt: Instant)

  datatype DayCount = DayCount(day: int, count: nat)

  datatype UserAgentCount = UserAgentCount(userAgent: string, count: nat)

  const TOP_USER_AGENTS_LIMIT := 10

  /** The order of Postgres's collation on user agents. */
  type Collation = (string, string) -> bool

  ghost predicate TotalOrder(less: Collation) {
    && (forall a :: !less(a, a))
    && (forall a, b, c :: less(a, b) && less(b, c) ==> less(a, c))
    && (forall a, b :: a == b || less(a, b) || less(b, a))
  }

  function Total(log: seq<ScanEvent>, slug: string): nat {
    if log == [] then 0
    else Total(log[..|log| - 1], slug) + if log[|log| - 1].slug == slug then 1 else 0
  }

  /** Distinct hashes; a missing one is not a visitor. */
  function Visitors(log: seq<ScanEvent>, slug: string): set<string> {
    set e | e in log && e.slug == slug && e.ipHash.Some? :: e.ipHash.value
  }

  function DayOf(e: ScanEvent): int { e.scannedAt / DAY }

  function Days(log: seq<ScanEvent>, slug: string): set<int> {
    set e | e in log && e.slug == slug :: DayOf(e)
  }

  function CountIn(log: seq<ScanEvent>, slug: string, days: set<int>): nat {
    if log == [] then 0
    else
      var e := log[|log| - 1];
      CountIn(log[..|log| - 1], slug, days) + if e.slug == slug && DayOf(e) in days then 1 else 0
  }

  function CountOn(log: seq<ScanEvent>, slug: string, day: int): nat { CountIn(log, slug, {day}) }

  function Agents(log: seq<ScanEvent>, slug: string): set<string> {
    set e | e in log && e.slug == slug && e.userAgent.Some? :: e.userAgent.value
  }

  function AgentCount(log: seq<ScanEvent>, slug: string, agent: string): nat {
    if log == [] then 0
    else
      var e := log[|log| - 1];
      AgentCount(log[..|log| - 1], slug, agent) + if e.slug == slug && e.userAgent == Some(agent) then 1 else 0
  }

  /** ORDER BY count(*) DESC, user_agent ASC. */
  predicate Outranks(less: Collation, a: UserAgentCount, b: UserAgentCount) {
    a.count > b.count || (a.count == b.count && less(a.userAgent, b.userAgent))
  }

  function Ranked(log: seq<ScanEvent>, slug: string, agent: string): UserAgentCount {
    UserAgentCount(agent, AgentCount(log, slug, agent))
  }

  /** One row per day with scans, days strictly increasing, counts exact. */
  ghost predicate IsDaily(log: seq<ScanEvent>, slug: string, rows: seq<DayCount>) {
    && (forall i, j :: 0 <= i < j < |rows| ==> rows[i].day < rows[j].day)
    && (forall i :: 0 <= i < |rows| ==> rows[i].count == CountOn(log, slug, rows[i].day))
    && DaysListed(rows) == Days(log, slug)
  }

  function DaysListed(rows: seq<DayCount>): set<int> {
    set r | r in rows :: r.day
  }

  function AgentsListed(rows: seq<UserAgentCount>): set<string> {
    set r | r in rows :: r.userAgent
  }

  /** At most limit agents with exact counts, each outranking the next and everyone left out; nobody without need. */
  ghost predicate IsTop(less: Collation, log: seq<ScanEvent>, slug: string, limit: nat, rows: seq<UserAgentCount>) {
    && |rows| <= limit
    && (forall i :: 0 <= i < |rows| ==> rows[i] == Ranked(log, slug, rows[i].userAgent))
    && (forall i, j :: 0 <= i < j < |rows| ==> Outranks(less, rows[i], rows[j]))
    && AgentsListed(rows) <= Agents(log, slug)
    && (forall agent :: agent in Agents(log, slug) && agent !in AgentsListed(rows) ==>
          |rows| == limit && forall i :: 0 <= i < |rows| ==> Outranks(less, rows[i], Ranked(log, slug, agent)))
  }

  ghost predicate IsBest(less: Collation, log: seq<ScanEvent>, slug: string, agents: set<string>, best: string) {
    && best in agents
    && forall a :: a in agents && a != best ==> Outranks(less, Ranked(log, slug, best), Ranked(log, slug, a))
  }

  lemma OutranksIsOrder(less: Collation, a: UserAgentCount, b: UserAgentCount, c: UserAgentCount)
    requires TotalOrder(less)
    ensures Outranks(less, a, b) && Outranks(less, b, c) ==> Outranks(less, a, c)
    ensures a.userAgent != b.userAgent ==> Outranks(less, a, b) || Outranks(less, b, a)
  {
    assert less(a.userAgent, b.userAgent) && less(b.userAgent, c.userAgent) ==> less(a.userAgent, c.userAgent);
  }

  lemma BestExists(less: Collation, log: seq<ScanEvent>, slug: string, agents: set<string>) returns (best: string)
    requires TotalOrder(less) && agents != {}
    ensures IsBest(less, log, slug, agents, best)
    decreases |agents|
  {
    hide AgentCount, Outranks, TotalOrder;
    var a :| a in agents;
    best := a;
    if agents - {a} != {} {
      var b := BestExists(less, log, slug, agents - {a});
      if Outranks(less, Ranked(log, slug, b), Ranked(log, slug, a)) {
        best := b;
      }
      forall x | x in agents && x != best ensures Outranks(less, Ranked(log, slug, best), Ranked(log, slug, x)) {
        OutranksIsOrder(less, Ranked(log, slug, a), Ranked(log, slug, b), Ranked(log, slug, x));
        assert x != a ==> x in agents - {a};
      }
    } else {
      assert agents == {a};
    }
  }

  lemma SomeDay(days: set<int>)
    ensures days == {} || exists d :: d in days
  {
    if forall d :: d !in days {
      assert days == {};
    }
  }

  lemma FirstDay(days: set<int>) returns (first: int)
    requires days != {}
    ensures first in days && forall d <- days :: first <= d
    decreases |days|
  {
    SomeDay(days);
    var day :| day in days;
    first := day;
    if days - {day} != {} {
      var other := FirstDay(days - {day});
      if other < day {
        first := other;
      }
      assert forall d <- days :: d == day || d in days - {day};
    } else {
      assert days == {day};
    }
  }

  datatype Statistics = Statistics(total: nat, unique: nat, daily: seq<DayCount>, agents: seq<UserAgentCount>)

  /** The scan_events table. */
  class ScanLog {
    var events: seq<ScanEvent>
    const less: Collation

    constructor (less: Collation)
      ensures this.less == less && events == []
    {
      this.less, events := less, [];
    }

    /** RecordScan: empty values are stored as NULL; a failed insert is only logged. */
    method RecordScan(slug: string, ipHash: string, userAgent: string, now: Instant, fault: Fault)
      modifies this`events
      ensures events == if fault.Failed? then old(events)
                        else old(events) + [ScanEvent(slug, if ipHash == "" then None else Some(ipHash),
                                                      if userAgent == "" then None else Some(userAgent), now)]
    {
      var e := ScanEvent(slug, None, None, now);
      if ipHash != "" {
        e := e.(ipHash := Some(ipHash));
      }
      if userAgent != "" {
        e := e.(userAgent := Some(userAgent));
      }
      if !fault.Failed? {
        events := events + [e];
      }
    }

    method ScanCounts(slug: string, fault: Fault) returns (r: Option<(nat, nat)>)
      ensures r == if fault.Fine? then Some((Total(events, slug), |Visitors(events, slug)|)) else None
    {
      r := if fault.Fine? then Some((Total(events, slug), |Visitors(events, slug)|)) else None;
    }

    /** Groups by day, oldest first. */
    method ScanDaily(slug: string, fault: Fault) returns (r: Option<seq<DayCount>>)
      ensures r.Some? <==> fault.Fine?
      ensures r.Some? ==> IsDaily(events, slug, r.value)
    {
      hide CountIn, Days;
      if !fault.Fine? {
        return None;
      }
      var out: seq<DayCount> := [];
      var left := Days(events, slug);
      while left != {}
        invariant left <= Days(events, slug) && DaysListed(out) == Days(events, slug) - left
        invariant forall i, d :: 0 <= i < |out| && d in left ==> out[i].day < d
        invariant forall i, j :: 0 <= i < j < |out| ==> out[i].day < out[j].day
        invariant forall i :: 0 <= i < |out| ==> out[i].count == CountOn(events, slug, out[i].day)
        decreases left
      {
        ghost var _ := FirstDay(left);
        var day :| day in left && forall d <- left :: day <= d;
        ListedMore(out, DayCount(day, CountOn(events, slug, day)));
        out := out + [DayCount(day, CountOn(events, slug, day))];
        left := left - {day};
      }
      r := Some(out);
    }

    /** Groups by user agent, most frequent first, up to the limit. */
    method ScanTopUserAgents(slug: string, limit: nat, fault: Fault) returns (r: Option<seq<UserAgentCount>>)
      requires TotalOrder(less)
      ensures r.Some? <==> fault.Fine?
      ensures r.Some? ==> IsTop(less, events, slug, limit, r.value)
    {
      hide AgentCount, Agents, Outranks, TotalOrder;
      if !fault.Fine? {
        return None;
      }
      var out: seq<UserAgentCount> := [];
      var left := Agents(events, slug);
      while left != {} && |out| < limit
        invariant |out| <= limit && left <= Agents(events, slug)
        invariant AgentsListed(out) == Agents(events, slug) - left
        invariant forall i :: 0 <= i < |out| ==> out[i] == Ranked(events, slug, out[i].userAgent)
        invariant forall i, a :: 0 <= i < |out| && a in left ==> Outranks(less, out[i], Ranked(events, slug, a))
        invariant forall i, j :: 0 <= i < j < |out| ==> Outranks(less, out[i], out[j])
        decreases left
      {
        ghost var found := BestExists(less, events, slug, left);
        var best :| best in left && forall a :: a in left && a != best ==>
                      Outranks(less, Ranked(events, slug, best), Ranked(events, slug, a));
        AgentsMore(out, Ranked(events, slug, best));
        out := out + [Ranked(events, slug, best)];
        left := left - {best};
      }
      r := Some(out);
    }
  }

  lemma ListedMore(rows: seq<DayCount>, r: DayCount)
    ensures DaysListed(rows + [r]) == DaysListed(rows) + {r.day}
  {
    forall d ensures d in DaysListed(rows + [r]) <==> d in DaysListed(rows) || d == r.day {
      assert r in rows + [r];
      assert forall x <- rows :: x in rows + [r];
    }
  }

  lemma AgentsMore(rows: seq<UserAgentCount>, r: UserAgentCount)
    ensures AgentsListed(rows + [r]) == AgentsListed(rows) + {r.userAgent}
  {
    forall a ensures a in AgentsListed(rows + [r]) <==> a in AgentsListed(rows) || a == r.userAgent {
      assert r in rows + [r];
      assert forall x <- rows :: x in rows + [r];
    }
  }

  datatype AnalyticsError = CodeNotFound | QueryError

  /**
   Analytics: three queries one after the other; second and third are the scans recorded before each of the later two.
   A static code has no scans.
   */
  method Analyze(repo: Repository, log: ScanLog, user: Uuid, id: Uuid, load: Fault, counts: Fault, daily: Fault,
                 agents: Fault, second: seq<ScanEvent>, third: seq<ScanEvent>)
    returns (r: Result<Statistics, AnalyticsError>)
    requires TotalOrder(log.less)
    modifies log`events
    ensures load.Fine? && !Owned(repo.db, user, id) ==> r == Err(CodeNotFound)
    ensures r.Ok? <==> load.Fine? && Owned(repo.db, user, id)
                       && (id in repo.db.dynamics ==> counts.Fine? && daily.Fine? && agents.Fine?)
    ensures r.Err? ==> log.events == old(log.events) || log.events == old(log.events) + second
                       || log.events == old(log.events) + second + third
    ensures r.Ok? && id !in repo.db.dynamics ==> r.value == Statistics(0, 0, [], []) && log.events == old(log.events)
    ensures r.Ok? && id in repo.db.dynamics ==>
              && log.events == old(log.events) + second + third
              && Reports(log.less, old(log.events), second, third, repo.db.dynamics[id].slug, r.value)
  {
    hide Total, Visitors, IsDaily, IsTop, TotalOrder;
    var code := repo.Get(user, id, load);
    if code.Err? {
      return Err(if code.error.Missing? then CodeNotFound else QueryError);
    }
    var a := Statistics(0, 0, [], []);
    if code.value.dynamic.None? {
      return Ok(a);
    }
    var slug := code.value.dynamic.value.slug;
    var totals := log.ScanCounts(slug, counts);
    if totals.None? {
      return Err(QueryError);
    }
    a := a.(total := totals.value.0, unique := totals.value.1);
    log.events := log.events + second;
    var days := log.ScanDaily(slug, daily);
    if days.None? {
      return Err(QueryError);
    }
    a := a.(daily := days.value);
    log.events := log.events + third;
    var top := log.ScanTopUserAgents(slug, TOP_USER_AGENTS_LIMIT, agents);
    if top.None? {
      return Err(QueryError);
    }
    r := Ok(a.(agents := top.value));
  }

  /** Each part of the statistics is exact for the log its query saw. */
  ghost predicate Reports(less: Collation, log: seq<ScanEvent>, second: seq<ScanEvent>, third: seq<ScanEvent>,
                          slug: string, a: Statistics)
  {
    && a.total == Total(log, slug) && a.unique == |Visitors(log, slug)|
    && IsDaily(log + second, slug, a.daily)
    && IsTop(less, log + second + third, slug, TOP_USER_AGENTS_LIMIT, a.agents)
  }

  function SumDaily(rows: seq<DayCount>): nat {
    if rows == [] then 0 else SumDaily(rows[..|rows| - 1]) + rows[|rows| - 1].count
  }

  lemma {:induction false} VisitorsBounded(log: seq<ScanEvent>, slug: string)
    ensures |Visitors(log, slug)| <= Total(log, slug)
  {
    if log != [] {
      var front, e := log[..|log| - 1], log[|log| - 1];
      VisitorsBounded(front, slug);
      assert front + [e] == log;
      VisitorsGrow(front, e, slug);
    } else {
      assert Visitors([], slug) == {};
    }
  }

  /** Unique visitors, event by event: one more exactly when the slug is scanned from a hash it has not seen. */
  lemma UniqueGrows(log: seq<ScanEvent>, e: ScanEvent, slug: string)
    ensures |Visitors([], slug)| == 0
    ensures |Visitors(log + [e], slug)| == |Visitors(log, slug)| +
              if e.slug == slug && e.ipHash != None && forall x <- log :: x.slug == slug ==> x.ipHash != e.ipHash
              then 1 else 0
  {
    hide Visitors;
    NoVisitors(slug);
    VisitorsGrow(log, e, slug);
    if e.slug == slug && e.ipHash.Some? {
      KnownVisitor(log, slug, e.ipHash.value);
      var known, hash := Visitors(log, slug), e.ipHash.value;
      assert hash in known ==> known + {hash} == known;
      assert hash in known <==> exists x <- log :: x.slug == slug && x.ipHash == e.ipHash;
    } else {
      assert Visitors(log, slug) + {} == Visitors(log, slug);
    }
  }

  lemma NoVisitors(slug: string)
    ensures Visitors([], slug) == {}
  {
  }

  lemma VisitorsGrow(log: seq<ScanEvent>, e: ScanEvent, slug: string)
    ensures Visitors(log + [e], slug)
            == Visitors(log, slug) + if e.slug == slug && e.ipHash.Some? then {e.ipHash.value} else {}
  {
    assert forall x :: x in log + [e] <==> x in log || x == e;
  }

  lemma KnownVisitor(log: seq<ScanEvent>, slug: string, hash: string)
    ensures hash in Visitors(log, slug) <==> exists x <- log :: x.slug == slug && x.ipHash == Some(hash)
  {
  }

  /** The other counts, event by event; a day is 86400 seconds. */
  lemma CountsGrow(log: seq<ScanEvent>, e: ScanEvent, slug: string, day: int, agent: string)
    ensures Total([], slug) == 0 && CountOn([], slug, day) == 0 && AgentCount([], slug, agent) == 0
    ensures Total(log + [e], slug) == Total(log, slug) + if e.slug == slug then 1 else 0
    ensures CountOn(log + [e], slug, day) == CountOn(log, slug, day) +
              if e.slug == slug && day * 86_400_000_000_000 <= e.scannedAt < (day + 1) * 86_400_000_000_000
              then 1 else 0
    ensures AgentCount(log + [e], slug, agent) == AgentCount(log, slug, agent) +
              if e.slug == slug && e.userAgent == Some(agent) then 1 else 0
  {
    assert (log + [e])[..|log|] == log;
    DayIs(e, day);
  }

  lemma DayIs(e: ScanEvent, day: int)
    ensures DayOf(e) == day <==> day * 86_400_000_000_000 <= e.scannedAt < (day + 1) * 86_400_000_000_000
  {
  }

  /** The days and agents listed are those with a scan. */
  lemma {:induction false} ListedAreCounted(log: seq<ScanEvent>, slug: string, day: int, agent: string)
    ensures day in Days(log, slug) <==> CountOn(log, slug, day) > 0
    ensures agent in Agents(log, slug) <==> AgentCount(log, slug, agent) > 0
  {
    hide DayOf;
    if log != [] {
      var front, e := log[..|log| - 1], log[|log| - 1];
      ListedAreCounted(front, slug, day, agent);
      assert forall x :: x in log <==> x in front || x == e;
    }
  }

  lemma {:induction false} TotalGrows(log: seq<ScanEvent>, more: seq<ScanEvent>, slug: string)
    ensures Total(log + more, slug) == Total(log, slug) + Total(more, slug)
  {
    if more == [] {
      assert log + more == log;
    } else {
      assert (log + more)[..|log + more| - 1] == log + more[..|more| - 1];
      TotalGrows(log, more[..|more| - 1], slug);
    }
  }

  lemma {:induction false} CountSplits(log: seq<ScanEvent>, slug: string, days: set<int>, day: int)
    requires day !in days
    ensures CountIn(log, slug, days + {day}) == CountIn(log, slug, days) + CountOn(log, slug, day)
  {
    if log != [] {
      CountSplits(log[..|log| - 1], slug, days, day);
    }
  }

  lemma {:induction false} CountNone(log: seq<ScanEvent>, slug: string)
    ensures CountIn(log, slug, {}) == 0
  {
    if log != [] {
      CountNone(log[..|log| - 1], slug);
    }
  }

  /** Every scan of the slug is on one of its days. */
  lemma {:induction false} CountAll(log: seq<ScanEvent>, slug: string, days: set<int>)
    requires forall e <- log :: e.slug == slug ==> DayOf(e) in days
    ensures CountIn(log, slug, days) == Total(log, slug)
  {
    if log != [] {
      CountAll(log[..|log| - 1], slug, days);
    }
  }

  lemma {:induction false} SumIsCount(log: seq<ScanEvent>, slug: string, rows: seq<DayCount>)
    requires forall i, j :: 0 <= i < j < |rows| ==> rows[i].day < rows[j].day
    requires forall i :: 0 <= i < |rows| ==> rows[i].count == CountOn(log, slug, rows[i].day)
    ensures SumDaily(rows) == CountIn(log, slug, DaysListed(rows))
  {
    hide CountIn;
    if rows == [] {
      CountNone(log, slug);
      assert DaysListed([]) == {};
    } else {
      var front, r := rows[..|rows| - 1], rows[|rows| - 1];
      SumIsCount(log, slug, front);
      ListedMore(front, r);
      assert front + [r] == rows;
      CountSplits(log, slug, DaysListed(front), r.day);
    }
  }

  lemma DailyIsTotal(log: seq<ScanEvent>, slug: string, rows: seq<DayCount>)
    requires IsDaily(log, slug, rows)
    ensures SumDaily(rows) == Total(log, slug)
  {
    SumIsCount(log, slug, rows);
    CountAll(log, slug, DaysListed(rows));
  }

  /**
   Whatever is scanned between the queries: unique <= total <= the daily counts together <= the scans there are at the
   end; with nothing in between the daily counts add up to the total. Days increase strictly, and the agents are at most
   ten, in order, none outranked by one left out.
   */
  lemma StatisticsConsistent(less: Collation, log: seq<ScanEvent>, second: seq<ScanEvent>, third: seq<ScanEvent>,
                             slug: string, a: Statistics)
    requires Reports(less, log, second, third, slug, a)
    ensures a.unique <= a.total <= SumDaily(a.daily) <= Total(log + second + third, slug)
    ensures Total(second, slug) == 0 <==> SumDaily(a.daily) == a.total
    ensures forall i, j :: 0 <= i < j < |a.daily| ==> a.daily[i].day < a.daily[j].day
    ensures |a.agents| <= 10
    ensures |a.agents| < 10 ==>
              forall agent :: AgentCount(log + second + third, slug, agent) > 0 ==> agent in AgentsListed(a.agents)
    ensures forall i, j :: 0 <= i < j < |a.agents| ==>
              || a.agents[i].count > a.agents[j].count
              || (a.agents[i].count == a.agents[j].count && less(a.agents[i].userAgent, a.agents[j].userAgent))
    ensures forall i :: 0 <= i < |a.agents| ==>
              0 < a.agents[i].count == AgentCount(log + second + third, slug, a.agents[i].userAgent)
    ensures forall agent, i :: agent !in AgentsListed(a.agents) && 0 <= i < |a.agents| ==>
              var count := AgentCount(log + second + third, slug, agent);
              a.agents[i].count > count || (a.agents[i].count == count && less(a.agents[i].userAgent, agent))
  {
    hide Total, Visitors, AgentCount, Agents, CountIn, Days;
    forall agent: string ensures agent in Agents(log + second + third, slug)
                                 <==> AgentCount(log + second + third, slug, agent) > 0
    {
      ListedAreCounted(log + second + third, slug, 0, agent);
    }
    VisitorsBounded(log, slug);
    DailyIsTotal(log + second, slug, a.daily);
    TotalGrows(log, second, slug);
    TotalGrows(log + second, third, slug);
  }
}
