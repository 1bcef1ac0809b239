/**
 The fixed-window limiter over expiring Redis counters: backend/internal/ratelimit/ratelimit.go, and the middleware
 in front of the API: backend/internal/http/middleware/ratelimit.go.

 Times are nanoseconds since the epoch on one clock shared with Redis; each Allow is one step.
 */
module RateLimit {
  import opened Basics
  import opened Numerals

  datatype Config = Config(limit: int, window: int)

  /** Go's integer division, which truncates toward zero. */
  function WholeSeconds(d: int): int {
    if d >= 0 then d / SECOND else -(-d / SECOND)
  }

  function WindowSeconds(c: Config): (w: nat)
    ensures w >= 1
  {
    if WholeSeconds(c.window) < 1 then 1 else WholeSeconds(c.window)
  }

  function UnixTime(at: nat): nat { at / SECOND }

  function Bucket(c: Config, at: nat): nat { UnixTime(at) / WindowSeconds(c) }

  function RedisKey(key: string, bucket: nat): string {
    "ratelimit:" + key + ":" + Decimal(bucket)
  }

  /** The seconds go-redis sends with EXPIRE: a positive duration below a second becomes one second. */
  function ExpireSeconds(window: int): int {
    if 0 < window < SECOND then 1 else WholeSeconds(window)
  }

  datatype Counter = Counter(count: nat, expires: Option<nat>)

  type Counters = map<string, Counter>

  predicate Expired(c: Counter, now: nat) { c.expires.Some? && c.expires.value <= now }

  /** What Redis still holds at a time. */
  function Sweep(m: Counters, now: nat): Counters {
    map k | k in m && !Expired(m[k], now) :: m[k]
  }

  /** INCR: a missing counter starts at zero without expiry; an existing one keeps its expiry. */
  function Incr(m: Counters, k: string): Counters {
    m[k := if k in m then m[k].(count := m[k].count + 1) else Counter(1, None)]
  }

  /** EXPIRE: a time that is not positive deletes the key. */
  function Expire(m: Counters, k: string, seconds: int, now: nat): Counters {
    if k !in m then m
    else if seconds <= 0 then m - {k}
    else m[k := m[k].(expires := Some(now + seconds * SECOND))]
  }

  /** How a pipeline of INCR and EXPIRE went: answered, or broken off somewhere, the caller seeing an error. */
  datatype Outcome = Answered | BrokenBefore | BrokenBetween | BrokenAfter

  datatype Request = Request(key: string, at: nat, outcome: Outcome)

  /** The counter went up. */
  predicate Counts(r: Request) { !r.outcome.BrokenBefore? }

  datatype Decision = Answer(allowed: bool, remaining: nat, reset: int) | Error

  function Decide(c: Config, at: nat, count: nat): Decision {
    Answer(count <= c.limit, if c.limit - count < 0 then 0 else c.limit - count,
           (Bucket(c, at) + 1) * WindowSeconds(c) - UnixTime(at))
  }

  /** One request: what Redis holds afterwards. */
  function After(c: Config, m: Counters, r: Request): Counters {
    var k, live := RedisKey(r.key, Bucket(c, r.at)), Sweep(m, r.at);
    match r.outcome
    case BrokenBefore => live
    case BrokenBetween => Incr(live, k)
    case _ => Expire(Incr(live, k), k, ExpireSeconds(c.window), r.at)
  }

  /** One request: what the caller is told. */
  function Verdict(c: Config, m: Counters, r: Request): Decision {
    var k, live := RedisKey(r.key, Bucket(c, r.at)), Sweep(m, r.at);
    if r.outcome.Answered? then Decide(c, r.at, Incr(live, k)[k].count) else Error
  }

  /** Redis, as far as the limiter uses it. */
  class Redis {
    var counters: Counters

    constructor ()
      ensures counters == map[]
    {
      counters := map[];
    }

    method Increment(k: string) returns (count: nat)
      modifies this
      ensures counters == Incr(old(counters), k) && k in counters && count == counters[k].count
    {
      if k in counters {
        counters := counters[k := counters[k].(count := counters[k].count + 1)];
      } else {
        counters := counters[k := Counter(1, None)];
      }
      count := counters[k].count;
    }

    method ExpireIn(k: string, seconds: int, now: nat)
      modifies this
      ensures counters == Expire(old(counters), k, seconds, now)
    {
      if k in counters {
        if seconds <= 0 {
          counters := counters - {k};
        } else {
          counters := counters[k := counters[k].(expires := Some(now + seconds * SECOND))];
        }
      }
    }

    method Forget(now: nat)
      modifies this
      ensures counters == Sweep(old(counters), now)
    {
      counters := Sweep(counters, now);
    }
  }

  class RedisLimiter {
    const rdb: Redis
    const config: Config

    constructor (rdb: Redis, config: Config)
      ensures this.rdb == rdb && this.config == config
    {
      this.rdb, this.config := rdb, config;
    }

    method Allow(key: string, now: nat, outcome: Outcome) returns (d: Decision)
      modifies rdb
      ensures var r := Request(key, now, outcome);
              rdb.counters == After(config, old(rdb.counters), r) && d == Verdict(config, old(rdb.counters), r)
      ensures d.Answer? <==> outcome.Answered?
      ensures outcome.Answered? ==>
                var k, m := RedisKey(key, Bucket(config, now)), old(rdb.counters);
                var n := if k in m && !(m[k].expires.Some? && m[k].expires.value <= now) then m[k].count + 1 else 1;
                && d == Answer(n <= config.limit, Max(0, config.limit - n), d.reset)
                && FirstBeyond(config, now, d.reset)
                && (config.window > 0 ==>
                      k in rdb.counters
                      && rdb.counters[k] == Counter(n, Some(now + WindowSeconds(config) * 1_000_000_000)))
                && (config.window <= 0 ==> k !in rdb.counters)
    {
      hide FirstBeyond, RedisKey;
      ResetIsFirst(config, now);
      rdb.Forget(now);
      var windowSecs := WholeSeconds(config.window);
      if windowSecs < 1 {
        windowSecs := 1;
      }
      var bucket := UnixTime(now) / windowSecs;
      var redisKey := RedisKey(key, bucket);
      if outcome.BrokenBefore? {
        return Error;
      }
      var count := rdb.Increment(redisKey);
      if outcome.BrokenBetween? {
        return Error;
      }
      rdb.ExpireIn(redisKey, ExpireSeconds(config.window), now);
      if outcome.BrokenAfter? {
        return Error;
      }
      var reset := (bucket + 1) * windowSecs - UnixTime(now);
      var remaining := config.limit - count;
      if remaining < 0 {
        remaining := 0;
      }
      d := Answer(count <= config.limit, remaining, reset);
    }
  }

  /** What the middleware does with a request; quota is the limit and what remains of it, as headers. */
  datatype Response = Served(quota: Option<(int, nat)>) | TooMany(quota: Option<(int, nat)>, retryAfter: int)

  /** An error of the limiter lets the request through. */
  method RateLimited(limiter: RedisLimiter, key: string, now: nat, outcome: Outcome) returns (r: Response)
    modifies limiter.rdb
    ensures limiter.rdb.counters == After(limiter.config, old(limiter.rdb.counters), Request(key, now, outcome))
    ensures match Verdict(limiter.config, old(limiter.rdb.counters), Request(key, now, outcome))
            case Error => r == Served(None)
            case Answer(allowed, remaining, reset) =>
              && 1 <= reset <= WindowSeconds(limiter.config) && FirstBeyond(limiter.config, now, reset)
              && r == if allowed then Served(Some((limiter.config.limit, remaining)))
                      else TooMany(Some((limiter.config.limit, remaining)), reset)
    ensures !outcome.Answered? ==> r == Served(None)
    ensures outcome.Answered? ==>
              var c, m := limiter.config, old(limiter.rdb.counters);
              var k := RedisKey(key, Bucket(c, now));
              var n := if k in m && !(m[k].expires.Some? && m[k].expires.value <= now) then m[k].count + 1 else 1;
              && r.quota == Some((c.limit, Max(0, c.limit - n)))
              && (r.Served? <==> n <= c.limit)
              && (r.TooMany? ==> FirstBeyond(c, now, r.retryAfter))
  {
    hide FirstBeyond;
    var d := limiter.Allow(key, now, outcome);
    if d.Error? {
      return Served(None);
    }
    ResetWithinWindow(limiter.config, now);
    var quota := Some((limiter.config.limit, d.remaining));
    if !d.allowed {
      var retry := d.reset;
      if retry < 1 {
        retry := 1;
      }
      return TooMany(quota, retry);
    }
    r := Served(quota);
  }

  /** The window resets within its own length, and not at once. */
  lemma ResetWithinWindow(c: Config, at: nat)
    ensures 1 <= (Bucket(c, at) + 1) * WindowSeconds(c) - UnixTime(at) <= WindowSeconds(c)
  {
    BucketBounds(UnixTime(at), WindowSeconds(c));
  }

  lemma BucketBounds(t: nat, w: nat)
    requires w >= 1
    ensures t / w * w <= t < (t / w + 1) * w
  {
    assert (t / w + 1) * w == t / w * w + w;
  }

  predicate Ordered(trace: seq<Request>) {
    forall i, j :: 0 <= i < j < |trace| ==> trace[i].at <= trace[j].at
  }

  /** Redis after a trace, starting empty. */
  function Run(c: Config, trace: seq<Request>): Counters {
    if trace == [] then map[] else After(c, Run(c, trace[..|trace| - 1]), trace[|trace| - 1])
  }

  /** Exact counting: the requests of a key in a bucket that reached the counter. */
  function Tally(c: Config, trace: seq<Request>, key: string, bucket: nat): nat {
    if trace == [] then 0
    else
      var last := trace[|trace| - 1];
      Tally(c, trace[..|trace| - 1], key, bucket)
      + if last.key == key && Bucket(c, last.at) == bucket && Counts(last) then 1 else 0
  }

  /** When a bucket is over. */
  function EndOf(c: Config, bucket: nat): nat { (bucket + 1) * WindowSeconds(c) * SECOND }

  lemma InBucket(c: Config, at: nat)
    ensures Bucket(c, at) * WindowSeconds(c) * SECOND <= at < EndOf(c, Bucket(c, at))
  {
    BucketBounds(at, SECOND);
    BucketBounds(UnixTime(at), WindowSeconds(c));
    ScaleBy(Bucket(c, at) * WindowSeconds(c), UnixTime(at));
    ScaleBy(UnixTime(at) + 1, (Bucket(c, at) + 1) * WindowSeconds(c));
  }

  lemma ScaleBy(a: nat, b: nat)
    requires a <= b
    ensures a * SECOND <= b * SECOND
  {
  }

  /** A moment before a bucket's end and not before its start lies in it. */
  lemma BucketIs(c: Config, at: nat, bucket: nat)
    requires bucket * WindowSeconds(c) * SECOND <= at < EndOf(c, bucket)
    ensures Bucket(c, at) == bucket
  {
    var w, b := WindowSeconds(c), Bucket(c, at);
    InBucket(c, at);
    if b < bucket {
      Product(b + 1, bucket, w);
    } else if bucket < b {
      Product(bucket + 1, b, w);
    }
  }

  lemma Product(a: nat, b: nat, w: nat)
    requires a <= b
    ensures a * w * SECOND <= b * w * SECOND
  {
    assert a * w <= b * w;
  }

  /** Later moments lie in later buckets or the same one. */
  lemma BucketMonotone(c: Config, a: nat, b: nat)
    requires a <= b
    ensures Bucket(c, a) <= Bucket(c, b)
  {
    InBucket(c, a);
    InBucket(c, b);
    if Bucket(c, b) < Bucket(c, a) {
      Product(Bucket(c, b) + 1, Bucket(c, a), WindowSeconds(c));
    }
  }

  /** Two keys share a counter only when they are the same, whatever colons they contain. */
  lemma KeysApart(a: string, m: nat, b: string, n: nat)
    requires RedisKey(a, m) == RedisKey(b, n)
    ensures a == b && m == n
  {
    ParseDecimal(m);
    ParseDecimal(n);
    var s, t := a + ":" + Decimal(m), b + ":" + Decimal(n);
    assert "ratelimit:" + s == RedisKey(a, m) && "ratelimit:" + t == RedisKey(b, n);
    assert ("ratelimit:" + s)[10..] == s && ("ratelimit:" + t)[10..] == t;
    LastColon(a, Decimal(m), b, Decimal(n));
  }

  lemma NoEarlierColon(a: string, x: string, i: nat)
    requires AllDigits(x) && i < |a + ":" + x| && (a + ":" + x)[i] == ':'
    ensures i <= |a|
  {
    forall k | 0 <= k < |x| ensures x[k] != ':' {
      assert x[k] in x;
    }
  }

  lemma LastColon(a: string, x: string, b: string, y: string)
    requires a + ":" + x == b + ":" + y && AllDigits(x) && AllDigits(y)
    ensures a == b && x == y
  {
    var s := a + ":" + x;
    assert s[|a|] == ':' && s[|b|] == ':';
    NoEarlierColon(a, x, |b|);
    NoEarlierColon(b, y, |a|);
    assert s[..|a|] == a && s[..|b|] == b && s[|a| + 1..] == x && s[|b| + 1..] == y;
  }

  /** A counter that can still matter holds exactly its tally, and lives to the end of its bucket. */
  predicate CounterExact(c: Config, m: Counters, trace: seq<Request>, key: string, b: nat) {
    var k, n := RedisKey(key, b), Tally(c, trace, key, b);
    && (k in m <==> n > 0)
    && (k in m ==> m[k].count == n && (m[k].expires.Some? ==> m[k].expires.value >= EndOf(c, b)))
  }

  ghost predicate AllExact(c: Config, m: Counters, trace: seq<Request>, now: nat) {
    forall key, b: nat :: now < EndOf(c, b) ==> CounterExact(c, m, trace, key, b)
  }

  lemma ExpireOutlivesBucket(c: Config, at: nat)
    requires c.window > 0
    ensures ExpireSeconds(c.window) == WindowSeconds(c)
    ensures at + ExpireSeconds(c.window) * SECOND >= EndOf(c, Bucket(c, at))
  {
    InBucket(c, at);
    var b, w := Bucket(c, at), WindowSeconds(c);
    assert (b + 1) * w == b * w + w;
  }

  lemma OneExact(c: Config, m: Counters, front: seq<Request>, r: Request, key: string, b: nat)
    requires c.window > 0 && CounterExact(c, m, front, key, b) && r.at < EndOf(c, b)
    ensures CounterExact(c, After(c, m, r), front + [r], key, b)
  {
    hide RedisKey, Bucket, ExpireSeconds, EndOf;
    ExpireOutlivesBucket(c, r.at);
    TallySnoc(c, front, r, key, b);
    if RedisKey(key, b) == RedisKey(r.key, Bucket(c, r.at)) {
      KeysApart(key, b, r.key, Bucket(c, r.at));
    }
  }

  lemma TallySnoc(c: Config, front: seq<Request>, r: Request, key: string, b: nat)
    ensures Tally(c, front + [r], key, b)
            == Tally(c, front, key, b) + if r.key == key && Bucket(c, r.at) == b && Counts(r) then 1 else 0
  {
    assert (front + [r])[..|front|] == front;
  }

  lemma RunSnoc(c: Config, front: seq<Request>, r: Request)
    ensures Run(c, front + [r]) == After(c, Run(c, front), r)
  {
    assert (front + [r])[..|front|] == front;
  }

  /** EXPIRE never drops the counter of a live bucket. */
  lemma {:induction false} CountersExact(c: Config, trace: seq<Request>, now: nat)
    requires c.window > 0 && Ordered(trace) && (trace != [] ==> trace[|trace| - 1].at <= now)
    ensures AllExact(c, Run(c, trace), trace, now)
  {
    hide CounterExact, After, EndOf, Tally, Run;
    if trace != [] {
      var front, r := trace[..|trace| - 1], trace[|trace| - 1];
      assert front + [r] == trace;
      CountersExact(c, front, r.at);
      RunSnoc(c, front, r);
      forall key, b: nat | now < EndOf(c, b) ensures CounterExact(c, Run(c, trace), trace, key, b) {
        OneExact(c, Run(c, front), front, r, key, b);
      }
    } else {
      RunEmpty(c);
      forall key, b: nat ensures CounterExact(c, map[], [], key, b) {
        NothingCounted(c, key, b);
      }
    }
  }

  lemma RunEmpty(c: Config)
    ensures Run(c, []) == map[]
  {
  }

  lemma NothingCounted(c: Config, key: string, b: nat)
    ensures CounterExact(c, map[], [], key, b)
  {
  }

  /** reset seconds on is the first whole second that lies in another bucket than at. */
  ghost predicate FirstBeyond(c: Config, at: nat, reset: int) {
    && reset >= 1
    && (forall t: nat :: UnixTime(at) <= t < UnixTime(at) + reset ==> Bucket(c, t * SECOND) == Bucket(c, at))
    && Bucket(c, (UnixTime(at) + reset) * SECOND) != Bucket(c, at)
  }

  /** A decision on the n-th request counted, as exact counting would take it. */
  ghost predicate DecidesExactly(c: Config, trace: seq<Request>, r: Request) {
    var n, d := Tally(c, trace, r.key, Bucket(c, r.at)) + 1, Verdict(c, Run(c, trace), r);
    d.Answer? && d.allowed == (n <= c.limit) && d.remaining == Max(0, c.limit - n) && FirstBeyond(c, r.at, d.reset)
  }

  lemma WholeSecond(c: Config, t: nat, b: nat)
    requires b * WindowSeconds(c) <= t < (b + 1) * WindowSeconds(c)
    ensures Bucket(c, t * SECOND) == b
  {
    hide Bucket, WindowSeconds;
    ScaleBy(b * WindowSeconds(c), t);
    ScaleBy(t + 1, (b + 1) * WindowSeconds(c));
    BucketIs(c, t * SECOND, b);
  }

  lemma ResetIsFirst(c: Config, at: nat)
    ensures FirstBeyond(c, at, (Bucket(c, at) + 1) * WindowSeconds(c) - UnixTime(at))
  {
    hide WindowSeconds;
    var w, b := WindowSeconds(c), Bucket(c, at);
    BucketBounds(UnixTime(at), w);
    ResetWithinWindow(c, at);
    forall t: nat | UnixTime(at) <= t < (b + 1) * w ensures Bucket(c, t * SECOND) == b {
      WholeSecond(c, t, b);
    }
    assert (b + 2) * w == (b + 1) * w + w;
    WholeSecond(c, (b + 1) * w, b + 1);
  }

  /** The bucket a moment lies in: its second over the window's whole seconds, one at least. */
  lemma BucketSpelled(c: Config, at: nat)
    ensures c.window >= 1_000_000_000 ==> Bucket(c, at) == at / 1_000_000_000 / (c.window / 1_000_000_000)
    ensures c.window < 1_000_000_000 ==> Bucket(c, at) == at / 1_000_000_000
  {
  }

  /**
   Expiring counters refine exact counting: the n-th request of a key in a bucket to reach the counter is decided on n,
   so it is allowed exactly when n <= limit, with max(0, limit - n) remaining, until the first second beyond the bucket.
   */
  lemma DecisionExact(c: Config, trace: seq<Request>, r: Request)
    requires c.window > 0 && Ordered(trace + [r]) && r.outcome.Answered?
    ensures DecidesExactly(c, trace, r)
    ensures var n, d := Tally(c, trace, r.key, Bucket(c, r.at)) + 1, Verdict(c, Run(c, trace), r);
            && d == Answer(n <= c.limit, Max(0, c.limit - n), d.reset) && FirstBeyond(c, r.at, d.reset)
  {
    hide Bucket, RedisKey, EndOf, FirstBeyond;
    if trace != [] {
      assert (trace + [r])[|trace| - 1].at <= (trace + [r])[|trace|].at;
    }
    OrderedFront(trace, r);
    CountersExact(c, trace, r.at);
    InBucket(c, r.at);
    ResetIsFirst(c, r.at);
    assert CounterExact(c, Run(c, trace), trace, r.key, Bucket(c, r.at));
  }

  lemma OrderedFront(trace: seq<Request>, r: Request)
    requires Ordered(trace + [r])
    ensures Ordered(trace)
    ensures forall i :: 0 <= i < |trace| ==> trace[i].at <= r.at
  {
    forall i, j | 0 <= i < j < |trace| ensures trace[i].at <= trace[j].at {
      assert (trace + [r])[i].at <= (trace + [r])[j].at;
    }
    forall i | 0 <= i < |trace| ensures trace[i].at <= r.at {
      assert (trace + [r])[i].at <= (trace + [r])[|trace|].at;
    }
  }

  ghost predicate AlwaysExact(c: Config) {
    forall trace, r :: Ordered(trace + [r]) && r.outcome.Answered? ==> DecidesExactly(c, trace, r)
  }

  /** A window that is not positive makes EXPIRE delete the counter at once, so that nobody is ever counted twice. */
  lemma NoWindowForgets(c: Config, key: string, at: nat)
    requires c.window <= 0 && c.limit > 0
    ensures var r := Request(key, at, Answered); Ordered([r] + [r]) && !DecidesExactly(c, [r], r)
  {
    var r := Request(key, at, Answered);
    var k := RedisKey(key, Bucket(c, at));
    assert ExpireSeconds(c.window) <= 0;
    assert [r][..0] == [];
    assert Run(c, []) == map[] && Tally(c, [], key, Bucket(c, at)) == 0;
    assert Incr(Sweep(map[], at), k) == map[k := Counter(1, None)];
    assert Run(c, [r]) == map[k := Counter(1, None)] - {k} == map[];
    assert Tally(c, [r], key, Bucket(c, at)) == 1;
    assert Verdict(c, map[], r) == Decide(c, at, 1);
    assert Decide(c, at, 1).remaining == c.limit - 1;
  }

  lemma NoLimitBlocks(c: Config, trace: seq<Request>, r: Request)
    requires c.limit <= 0 && r.outcome.Answered?
    ensures DecidesExactly(c, trace, r)
  {
    hide FirstBeyond, Bucket, RedisKey, Run;
    ResetIsFirst(c, r.at);
  }

  /** Exactly when decisions are those of exact counting. */
  lemma ExactIffPositiveWindow(c: Config)
    ensures AlwaysExact(c) <==> c.window > 0 || c.limit <= 0
  {
    hide DecidesExactly;
    if c.window > 0 || c.limit <= 0 {
      forall trace, r | Ordered(trace + [r]) && r.outcome.Answered? ensures DecidesExactly(c, trace, r) {
        if c.window > 0 {
          DecisionExact(c, trace, r);
        } else {
          NoLimitBlocks(c, trace, r);
        }
      }
    } else {
      var r := Request("", 0, Answered);
      NoWindowForgets(c, "", 0);
      assert Ordered([r] + [r]) && !DecidesExactly(c, [r], r);
    }
  }

  /** Allowed by the limiter; a request let through on an error is not. */
  predicate Allows(c: Config, front: seq<Request>, r: Request) {
    var d := Verdict(c, Run(c, front), r);
    d.Answer? && d.allowed
  }

  /** How many requests of a key the limiter allows in the closed interval. */
  function AllowedWithin(c: Config, trace: seq<Request>, key: string, start: nat, end: nat): nat {
    if trace == [] then 0
    else
      var front, r := trace[..|trace| - 1], trace[|trace| - 1];
      AllowedWithin(c, front, key, start, end)
      + if r.key == key && start <= r.at <= end && Allows(c, front, r) then 1 else 0
  }

  function AllowedInBucket(c: Config, trace: seq<Request>, key: string, b: nat): nat {
    if trace == [] then 0
    else
      var front, r := trace[..|trace| - 1], trace[|trace| - 1];
      AllowedInBucket(c, front, key, b)
      + if r.key == key && Bucket(c, r.at) == b && Allows(c, front, r) then 1 else 0
  }

  lemma AllowedByTally(c: Config, front: seq<Request>, r: Request)
    requires c.window > 0 && Ordered(front + [r])
    ensures Allows(c, front, r) <==>
            r.outcome.Answered? && Tally(c, front, r.key, Bucket(c, r.at)) + 1 <= c.limit
  {
    hide After, Run, Bucket, RedisKey;
    if r.outcome.Answered? {
      DecisionExact(c, front, r);
    }
  }

  lemma {:induction false} BucketBound(c: Config, trace: seq<Request>, key: string, b: nat)
    requires c.window > 0 && Ordered(trace)
    ensures AllowedInBucket(c, trace, key, b) <= Tally(c, trace, key, b)
    ensures AllowedInBucket(c, trace, key, b) <= Max(c.limit, 0)
  {
    hide Allows, Bucket;
    if trace != [] {
      var front, r := trace[..|trace| - 1], trace[|trace| - 1];
      assert front + [r] == trace;
      BucketBound(c, front, key, b);
      AllowedByTally(c, front, r);
    }
  }

  /** At most limit in any aligned bucket. */
  lemma BucketLimit(c: Config, trace: seq<Request>, key: string, b: nat)
    requires c.window > 0 && Ordered(trace)
    ensures AllowedWithin(c, trace, key, b * WindowSeconds(c) * SECOND, EndOf(c, b) - 1) <= Max(c.limit, 0)
  {
    WithinBucket(c, trace, key, b);
    BucketBound(c, trace, key, b);
  }

  lemma {:induction false} WithinBucket(c: Config, trace: seq<Request>, key: string, b: nat)
    ensures AllowedWithin(c, trace, key, b * WindowSeconds(c) * SECOND, EndOf(c, b) - 1)
            == AllowedInBucket(c, trace, key, b)
  {
    hide Allows, Bucket, EndOf;
    if trace != [] {
      var r := trace[|trace| - 1];
      WithinBucket(c, trace[..|trace| - 1], key, b);
      InBucket(c, r.at);
      if b * WindowSeconds(c) * SECOND <= r.at < EndOf(c, b) {
        BucketIs(c, r.at, b);
      }
    }
  }

  /** Buckets cover an interval: whatever is allowed in it is allowed in one of them. */
  lemma {:induction false} CoveredByTwo(c: Config, trace: seq<Request>, key: string, start: nat, end: nat, b: nat)
    requires forall at: nat :: start <= at <= end ==> Bucket(c, at) == b || Bucket(c, at) == b + 1
    ensures AllowedWithin(c, trace, key, start, end)
            <= AllowedInBucket(c, trace, key, b) + AllowedInBucket(c, trace, key, b + 1)
  {
    hide Allows, Bucket;
    if trace != [] {
      CoveredByTwo(c, trace[..|trace| - 1], key, start, end, b);
    }
  }

  lemma TwoBuckets(c: Config, start: nat, at: nat)
    requires start <= at <= start + WindowSeconds(c) * SECOND
    ensures Bucket(c, at) == Bucket(c, start) || Bucket(c, at) == Bucket(c, start) + 1
  {
    hide Bucket, WindowSeconds;
    var b, w := Bucket(c, start), WindowSeconds(c);
    InBucket(c, start);
    BucketMonotone(c, start, at);
    assert EndOf(c, b + 1) == EndOf(c, b) + w * SECOND by {
      assert (b + 2) * w == (b + 1) * w + w;
    }
    if at < EndOf(c, b) {
      BucketIs(c, at, b);
    } else {
      BucketIs(c, at, b + 1);
    }
  }

  /** No interval as long as a bucket sees more than twice the limit. */
  lemma SlidingBound(c: Config, trace: seq<Request>, key: string, start: nat)
    requires c.window > 0 && Ordered(trace)
    ensures AllowedWithin(c, trace, key, start, start + WindowSeconds(c) * SECOND) <= 2 * Max(c.limit, 0)
  {
    hide Bucket;
    var b := Bucket(c, start);
    forall at: nat | start <= at <= start + WindowSeconds(c) * SECOND
      ensures Bucket(c, at) == b || Bucket(c, at) == b + 1
    {
      TwoBuckets(c, start, at);
    }
    CoveredByTwo(c, trace, key, start, start + WindowSeconds(c) * SECOND, b);
    BucketBound(c, trace, key, b);
    BucketBound(c, trace, key, b + 1);
  }

  /** n requests of a key at one moment. */
  function Burst(key: string, at: nat, n: nat): (burst: seq<Request>)
    ensures |burst| == n && forall r <- burst :: r == Request(key, at, Answered)
  {
    if n == 0 then [] else Burst(key, at, n - 1) + [Request(key, at, Answered)]
  }

  lemma {:induction false} BurstTally(c: Config, front: seq<Request>, key: string, at: nat, n: nat, b: nat)
    ensures Tally(c, front + Burst(key, at, n), key, b)
            == Tally(c, front, key, b) + if b == Bucket(c, at) then n else 0
  {
    hide Bucket;
    if n > 0 {
      BurstTally(c, front, key, at, n - 1, b);
      TallySnoc(c, front + Burst(key, at, n - 1), Request(key, at, Answered), key, b);
      assert front + Burst(key, at, n) == front + Burst(key, at, n - 1) + [Request(key, at, Answered)];
    } else {
      assert front + Burst(key, at, 0) == front;
    }
  }

  /** The trace is in order and over by the time given. */
  predicate OrderedUntil(trace: seq<Request>, at: nat) {
    Ordered(trace) && forall i :: 0 <= i < |trace| ==> trace[i].at <= at
  }

  lemma BurstOrdered(front: seq<Request>, key: string, at: nat, n: nat)
    requires OrderedUntil(front, at)
    ensures OrderedUntil(front + Burst(key, at, n), at)
  {
    var burst := Burst(key, at, n);
    forall i | 0 <= i < |burst| ensures burst[i].at == at {
      assert burst[i] in burst;
    }
  }

  lemma AllowedSnoc(c: Config, front: seq<Request>, r: Request, start: nat, end: nat)
    requires c.window > 0 && OrderedUntil(front, r.at) && r.outcome.Answered?
    requires start <= r.at <= end && Tally(c, front, r.key, Bucket(c, r.at)) < c.limit
    ensures AllowedWithin(c, front + [r], r.key, start, end) == AllowedWithin(c, front, r.key, start, end) + 1
  {
    hide Bucket, Allows;
    AllowedByTally(c, front, r);
    assert (front + [r])[..|front|] == front;
  }

  /** A burst of up to the limit in a fresh bucket is allowed altogether. */
  lemma {:induction false} BurstAllowed(c: Config, front: seq<Request>, key: string, at: nat, n: nat, start: nat,
                                        end: nat)
    requires c.window > 0 && n <= c.limit && start <= at <= end
    requires OrderedUntil(front, at) && Tally(c, front, key, Bucket(c, at)) == 0
    ensures AllowedWithin(c, front + Burst(key, at, n), key, start, end) == AllowedWithin(c, front, key, start, end) + n
  {
    hide Bucket, Allows, AllowedWithin, Tally, OrderedUntil;
    if n > 0 {
      var earlier, r := front + Burst(key, at, n - 1), Request(key, at, Answered);
      BurstAllowed(c, front, key, at, n - 1, start, end);
      BurstTally(c, front, key, at, n - 1, Bucket(c, at));
      BurstOrdered(front, key, at, n - 1);
      AllowedSnoc(c, earlier, r, start, end);
      assert front + Burst(key, at, n) == earlier + [r];
    } else {
      assert front + Burst(key, at, 0) == front;
    }
  }

  /** Bursts of limit requests at moments of different buckets. */
  function Bursts(key: string, limit: nat, times: seq<nat>): seq<Request> {
    if times == [] then [] else Bursts(key, limit, times[..|times| - 1]) + Burst(key, times[|times| - 1], limit)
  }

  predicate Ascending(c: Config, times: seq<nat>) {
    forall i, j :: 0 <= i < j < |times| ==> times[i] <= times[j] && Bucket(c, times[i]) != Bucket(c, times[j])
  }

  lemma {:induction false} BurstsTally(c: Config, key: string, times: seq<nat>, b: nat)
    requires c.limit >= 0 && forall i :: 0 <= i < |times| ==> Bucket(c, times[i]) != b
    ensures Tally(c, Bursts(key, c.limit, times), key, b) == 0
  {
    hide Bucket, Tally;
    if times != [] {
      BurstsTally(c, key, times[..|times| - 1], b);
      BurstTally(c, Bursts(key, c.limit, times[..|times| - 1]), key, times[|times| - 1], c.limit, b);
    } else {
      NothingCounted(c, key, b);
    }
  }

  lemma {:induction false} BurstsOrdered(c: Config, key: string, times: seq<nat>, at: nat)
    requires c.limit >= 0 && Ascending(c, times) && (times != [] ==> times[|times| - 1] <= at)
    ensures OrderedUntil(Bursts(key, c.limit, times), at)
  {
    hide Bucket;
    if times != [] {
      var front, t := times[..|times| - 1], times[|times| - 1];
      BurstsOrdered(c, key, front, t);
      BurstOrdered(Bursts(key, c.limit, front), key, t, c.limit);
    }
  }

  lemma OneMore(n: nat, k: int)
    ensures (n + 1) * k == n * k + k
  {
  }

  lemma NothingAllowed(c: Config, key: string, start: nat, end: nat)
    ensures AllowedWithin(c, [], key, start, end) == 0
  {
  }

  lemma {:induction false} BurstsAllowed(c: Config, key: string, times: seq<nat>, start: nat, end: nat)
    requires c.window > 0 && c.limit >= 0 && Ascending(c, times)
    requires forall i :: 0 <= i < |times| ==> start <= times[i] <= end
    ensures AllowedWithin(c, Bursts(key, c.limit, times), key, start, end) == |times| * c.limit
    ensures Ordered(Bursts(key, c.limit, times))
  {
    hide Bucket, Tally, AllowedWithin;
    if times != [] {
      var front, t := times[..|times| - 1], times[|times| - 1];
      BurstsAllowed(c, key, front, start, end);
      BurstsOrdered(c, key, front, t);
      BurstsTally(c, key, front, Bucket(c, t));
      BurstAllowed(c, Bursts(key, c.limit, front), key, t, c.limit, start, end);
      BurstOrdered(Bursts(key, c.limit, front), key, t, c.limit);
      OneMore(|front|, c.limit);
    } else {
      NothingAllowed(c, key, start, end);
    }
  }

  /** Twice the limit is reached, by two bursts around a bucket's end. */
  lemma SlidingBoundIsTight(c: Config, key: string) returns (trace: seq<Request>, start: nat)
    requires c.window > 0 && c.limit >= 0
    ensures Ordered(trace)
    ensures AllowedWithin(c, trace, key, start, start + WindowSeconds(c) * SECOND) == 2 * c.limit
  {
    hide Bucket, WindowSeconds, AllowedWithin;
    start := EndOf(c, 0) - 1;
    BucketIs(c, start, 0);
    BucketIs(c, start + 1, 1);
    BurstsAllowed(c, key, [start, start + 1], start, start + WindowSeconds(c) * SECOND);
    trace := Bursts(key, c.limit, [start, start + 1]);
  }

  /** No interval as long as the configured window sees more than twice the limit. */
  ghost predicate WindowHolds(c: Config, key: string)
    requires c.window >= 0
  {
    forall trace, start: nat :: Ordered(trace) ==> WithinWindow(c, trace, key, start) <= 2 * c.limit
  }

  function WithinWindow(c: Config, trace: seq<Request>, key: string, start: nat): nat
    requires c.window >= 0
  {
    AllowedWithin(c, trace, key, start, start + c.window)
  }

  lemma {:induction false} Narrower(c: Config, trace: seq<Request>, key: string, start: nat, end: nat, end': nat)
    requires end <= end'
    ensures AllowedWithin(c, trace, key, start, end) <= AllowedWithin(c, trace, key, start, end')
  {
    hide Allows;
    if trace != [] {
      Narrower(c, trace[..|trace| - 1], key, start, end, end');
    }
  }

  /**
   Buckets are whole seconds, so a window with a fraction beyond its first second is cut short, and an interval as long
   as the configured window can touch three buckets.
   */
  lemma FractionBreaksWindow(c: Config, key: string) returns (trace: seq<Request>, start: nat)
    requires c.window > SECOND && c.window % SECOND != 0 && c.limit >= 1
    ensures Ordered(trace) && WithinWindow(c, trace, key, start) == 3 * c.limit
  {
    hide Bucket, AllowedWithin;
    start := EndOf(c, 0) - 1;
    var third := EndOf(c, 1);
    assert third == start + 1 + WindowSeconds(c) * SECOND <= start + c.window;
    BucketIs(c, start, 0);
    BucketIs(c, start + 1, 1);
    BucketIs(c, third, 2);
    BurstsAllowed(c, key, [start, start + 1, third], start, start + c.window);
    trace := Bursts(key, c.limit, [start, start + 1, third]);
  }

  /** Exactly which configured windows keep the promise over every interval of their own length. */
  lemma WindowHoldsExactly(c: Config, key: string)
    requires c.window > 0 && c.limit >= 1
    ensures WindowHolds(c, key) <==> c.window <= SECOND || c.window % SECOND == 0
  {
    hide AllowedWithin;
    if c.window <= SECOND || c.window % SECOND == 0 {
      assert c.window <= WindowSeconds(c) * SECOND;
      forall trace, start: nat | Ordered(trace) ensures WithinWindow(c, trace, key, start) <= 2 * c.limit {
        SlidingBound(c, trace, key, start);
        Narrower(c, trace, key, start, start + c.window, start + WindowSeconds(c) * SECOND);
      }
    } else {
      var trace, start := FractionBreaksWindow(c, key);
      assert Ordered(trace) && WithinWindow(c, trace, key, start) == 3 * c.limit;
    }
  }

  lemma {:induction false} EarlierBuckets(c: Config, trace: seq<Request>, key: string, b: nat)
    requires forall i :: 0 <= i < |trace| && trace[i].key == key ==> Bucket(c, trace[i].at) < b
    ensures Tally(c, trace, key, b) == 0
  {
    hide Bucket;
    if trace != [] {
      EarlierBuckets(c, trace[..|trace| - 1], key, b);
    }
  }

  /**
   Retry-After keeps its word: it lies in 1..window, and a blocked key that is left alone for that long is allowed on
   its next request, whatever other keys do meanwhile.
   */
  lemma {:induction false} RetryAfterSuffices(c: Config, trace: seq<Request>, blocked: Request, others: seq<Request>,
                                              next: Request)
    requires c.window > 0 && c.limit >= 1 && Ordered(trace + [blocked] + others + [next])
    requires blocked.key == next.key && blocked.outcome.Answered? && next.outcome.Answered?
    requires forall r <- others :: r.key != blocked.key
    requires !Allows(c, trace, blocked)
    requires next.at >= blocked.at + Verdict(c, Run(c, trace), blocked).reset * SECOND
    ensures 1 <= Verdict(c, Run(c, trace), blocked).reset <= WindowSeconds(c)
    ensures Allows(c, trace + [blocked] + others, next)
  {
    hide Bucket, After, Run;
    var all := trace + [blocked] + others;
    ResetWithinWindow(c, blocked.at);
    ResetReachesEnd(c, blocked.at);
    InBucket(c, next.at);
    var b := Bucket(c, next.at);
    if b <= Bucket(c, blocked.at) {
      Product(b + 1, Bucket(c, blocked.at) + 1, WindowSeconds(c));
    }
    OrderedFront(all, next);
    forall i | |trace| < i < |all| ensures all[i].key != next.key {
      assert all[i] in others;
    }
    forall i | 0 <= i < |all| && all[i].key == next.key ensures Bucket(c, all[i].at) < b {
      assert all[|trace|] == blocked;
      BucketMonotone(c, all[i].at, blocked.at);
    }
    EarlierBuckets(c, all, next.key, b);
    AllowedByTally(c, all, next);
  }

  lemma ResetReachesEnd(c: Config, at: nat)
    ensures at + ((Bucket(c, at) + 1) * WindowSeconds(c) - UnixTime(at)) * SECOND >= EndOf(c, Bucket(c, at))
  {
    hide Bucket, WindowSeconds;
    BucketBounds(at, SECOND);
    var n, m := (Bucket(c, at) + 1) * WindowSeconds(c), UnixTime(at);
    assert (n - m) * SECOND == n * SECOND - m * SECOND;
  }
}
