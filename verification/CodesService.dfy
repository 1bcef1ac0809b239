/**
 The guarded writes as their methods run on their own: backend/internal/codes/service.go and
 backend/internal/safety/service.go.
 */
module CodesService {
  import opened Basics
  import opened Rfc3339
  import opened Cursor
  import opened Tables
  import opened Paging
  import opened Listing
  import opened Safety
  import opened Protocol
  import opened CodesRepository
  import opened RedirectService

  datatype CachedReport = CachedReport(report: Report, expires: Instant)

  /** The verdict cache in front of the checker; Redis keys are SHA-256 sums, taken never to collide. */
  class SafetyService {
    const checker: Checker
    var verdicts: map<string, CachedReport>
    var now: Instant

    constructor (checker: Checker, start: Instant)
      ensures this.checker == checker && now == start && Valid()
    {
      this.checker, verdicts, now := checker, map[], start;
    }

    ghost predicate IsReport(url: string, report: Report) {
      && report.url == url
      && report.reasons == Applicable(checker, url)
      && report.verdict == VerdictOf(checker, url)
    }

    /** The cache holds only what the checker said. */
    ghost predicate Valid()
      reads this
    {
      forall url <- verdicts :: IsReport(url, verdicts[url].report)
    }

    /** Never an error: a cache that fails costs a fresh check. The report is the checker's either way. */
    method Check(url: string, get: Fault, set_: Fault) returns (report: Report, cached: bool)
      requires Valid()
      modifies this`verdicts
      ensures Valid() && IsReport(url, report)
      ensures cached <==> get.Fine? && url in old(verdicts) && now < old(verdicts)[url].expires
      ensures verdicts == if cached || set_.Failed? then old(verdicts)
                          else old(verdicts)[url := CachedReport(report, now + 21_600_000_000_000)]
      ensures report.verdict.Malicious? <==> MaliciousUrl(checker, url)
    {
      if get.Fine? && url in verdicts && now < verdicts[url].expires {
        VerdictIs(checker, url);
        return verdicts[url].report, true;
      }
      VerdictIs(checker, url);
      report := Safety.Check(checker, url);
      if !set_.Failed? {
        verdicts := verdicts[url := CachedReport(report, now + VERDICT_TTL)];
      }
      cached := false;
    }
  }

  datatype ServiceError =
    | DynamicUnsupported | DynamicUrlRequired | NotDynamic | SlugGenerationFailed | UnsafeDestination | CodeMissing
    | InternalError

  /** What the n-th attempt of Create meets: the slug generated (None when random bytes run out), the id, the fault. */
  datatype Attempt = Attempt(slug: Option<string>, id: Uuid, fault: Fault)

  predicate Collides(db: Db, a: Attempt) {
    a.slug.Some? && !a.fault.Failed? && a.slug.value in db.bySlug
  }

  /** The attempt that decides Create: the first that does not collide; MAX_SLUG_ATTEMPTS when all five do. */
  function Deciding(db: Db, attempts: seq<Attempt>, k: nat): (n: nat)
    requires |attempts| == MAX_SLUG_ATTEMPTS && k <= MAX_SLUG_ATTEMPTS
    ensures k <= n <= MAX_SLUG_ATTEMPTS
    ensures forall i :: k <= i < n ==> Collides(db, attempts[i])
    ensures n < MAX_SLUG_ATTEMPTS ==> !Collides(db, attempts[n])
    decreases MAX_SLUG_ATTEMPTS - k
  {
    if k == MAX_SLUG_ATTEMPTS || !Collides(db, attempts[k]) then k else Deciding(db, attempts, k + 1)
  }

  /** Whether Create reports success. */
  ghost predicate Creates(c: Checker, db: Db, draft: Draft, isDynamic: bool, payloadUrl: Option<string>,
                          attempts: seq<Attempt>)
    requires |attempts| == MAX_SLUG_ATTEMPTS
  {
    if !isDynamic then attempts[0].fault.Fine? && KnownKind(draft.kind)
    else
      && draft.kind == "url" && payloadUrl.Some? && payloadUrl.value != ""
      && !VerdictOf(c, payloadUrl.value).Malicious?
      && var n := Deciding(db, attempts, 0);
         n < MAX_SLUG_ATTEMPTS && attempts[n].slug.Some? && attempts[n].fault.Fine?
  }

  /** The tables after a Create. */
  ghost function AfterCreate(c: Checker, db: Db, draft: Draft, isDynamic: bool, payloadUrl: Option<string>,
                             attempts: seq<Attempt>, now: Instant): Db
    requires |attempts| == MAX_SLUG_ATTEMPTS
  {
    if !isDynamic then
      if attempts[0].fault.Failed? then db else Apply(db, InsertStatic(attempts[0].id, draft, now))
    else if draft.kind == "url" && payloadUrl.Some? && payloadUrl.value != ""
            && !VerdictOf(c, payloadUrl.value).Malicious?
    then Stored(db, draft, payloadUrl.value, attempts, 0, now)
    else db
  }

  /** The tables after the attempts from the k-th on. */
  function Stored(db: Db, draft: Draft, destination: string, attempts: seq<Attempt>, k: nat, now: Instant): Db
    requires |attempts| == MAX_SLUG_ATTEMPTS && k <= MAX_SLUG_ATTEMPTS
  {
    var n := Deciding(db, attempts, k);
    if n == MAX_SLUG_ATTEMPTS || attempts[n].slug.None? || attempts[n].fault.Failed? then db
    else Apply(db, InsertDynamic(attempts[n].id, draft, attempts[n].slug.value, destination, now))
  }

  /** The n-th attempt stores the code: its slug is free, and all those before it were taken. */
  predicate Wins(db: Db, attempts: seq<Attempt>, n: nat) {
    && n < |attempts| && attempts[n].slug.Some? && attempts[n].slug.value !in db.bySlug && attempts[n].fault.Fine?
    && forall i :: 0 <= i < n ==>
         attempts[i].slug.Some? && attempts[i].slug.value in db.bySlug && !attempts[i].fault.Failed?
  }

  /** When a Create succeeds, in terms of the request and its five attempts. */
  lemma CreatesIs(c: Checker, db: Db, draft: Draft, isDynamic: bool, payloadUrl: Option<string>,
                  attempts: seq<Attempt>)
    requires |attempts| == MAX_SLUG_ATTEMPTS
    ensures |attempts| == 5
    ensures !isDynamic ==>
              (Creates(c, db, draft, isDynamic, payloadUrl, attempts) <==>
                 draft.kind in ["url", "wifi", "vcard", "email", "text", "sms"] && attempts[0].fault == Fine)
    ensures isDynamic ==>
              (Creates(c, db, draft, isDynamic, payloadUrl, attempts) <==>
                 && draft.kind == "url" && payloadUrl.Some? && payloadUrl.value != ""
                 && !MaliciousUrl(c, payloadUrl.value) && exists n: nat :: Wins(db, attempts, n))
    ensures forall n: nat :: Wins(db, attempts, n) ==> Deciding(db, attempts, 0) == n
  {
    hide VerdictOf, MaliciousUrl;
    if payloadUrl.Some? {
      VerdictIs(c, payloadUrl.value);
    }
    var n := Deciding(db, attempts, 0);
    if n < MAX_SLUG_ATTEMPTS && attempts[n].slug.Some? && attempts[n].fault.Fine? {
      assert Collides(db, attempts[n]) <==> attempts[n].slug.value in db.bySlug;
      forall i | 0 <= i < n
        ensures attempts[i].slug.Some? && attempts[i].slug.value in db.bySlug && !attempts[i].fault.Failed?
      {
        assert Collides(db, attempts[i]);
      }
      assert Wins(db, attempts, n);
    }
    forall m: nat | Wins(db, attempts, m) ensures n == m {
    }
  }

  /** How the calls an Update makes go: loading, the verdict cache, the two writes with the invalidation, reloading. */
  datatype UpdateFaults = UpdateFaults(load: Fault, get: Fault, set_: Fault, write: Fault, invalidate: Fault,
                                       relabel: Fault, reload: Fault)

  /** The destination half comes through: there is none, or it may be written and the write is acknowledged. */
  ghost predicate Moves(c: Checker, db: Db, id: Uuid, destination: Option<string>, write: Fault) {
    destination.Some? ==> id in db.dynamics && !VerdictOf(c, destination.value).Malicious? && write.Fine?
  }

  /** Whether Update reports success. */
  ghost predicate Updates(c: Checker, db: Db, user: Uuid, id: Uuid, caption: Option<string>,
                          destination: Option<string>, f: UpdateFaults)
  {
    && f.load.Fine? && Owned(db, user, id)
    && Moves(c, db, id, destination, f.write)
    && (caption.Some? ==> f.relabel.Fine?)
    && f.reload.Fine?
  }

  /** When an Update succeeds, in terms of the request, the code and the calls it makes. */
  lemma UpdatesIs(c: Checker, db: Db, user: Uuid, id: Uuid, caption: Option<string>, destination: Option<string>,
                  f: UpdateFaults)
    ensures Updates(c, db, user, id, caption, destination, f) <==>
            && f.load == Fine && id in db.codes && db.codes[id].user == user && f.reload == Fine
            && (destination.Some? ==> id in db.dynamics && f.write == Fine && !MaliciousUrl(c, destination.value))
            && (caption.Some? ==> f.relabel == Fine)
  {
    hide VerdictOf, MaliciousUrl;
    if destination.Some? {
      VerdictIs(c, destination.value);
    }
  }

  /** The tables once the destination half is through, or has failed. */
  ghost function AfterMove(c: Checker, db: Db, id: Uuid, destination: Option<string>, write: Fault, now: Instant): Db {
    if destination.Some? && id in db.dynamics && !VerdictOf(c, destination.value).Malicious? && !write.Failed?
    then Apply(db, UpdateDestination(id, destination.value, now)) else db
  }

  /** The tables after the writes of Update: the label is written only behind a destination that came through. */
  ghost function AfterChange(c: Checker, db: Db, user: Uuid, id: Uuid, caption: Option<string>,
                             destination: Option<string>, f: UpdateFaults, now: Instant): Db
  {
    var moved := AfterMove(c, db, id, destination, f.write, now);
    if caption.Some? && Moves(c, db, id, destination, f.write) && !f.relabel.Failed?
    then Apply(moved, UpdateLabel(user, id, caption, now)) else moved
  }

  /** What an Update that succeeds leaves in the tables. */
  function Changed(db: Db, user: Uuid, id: Uuid, caption: Option<string>, destination: Option<string>, now: Instant): Db
  {
    var moved := if destination.Some? then Apply(db, UpdateDestination(id, destination.value, now)) else db;
    if caption.Some? then Apply(moved, UpdateLabel(user, id, caption, now)) else moved
  }

  /** What a successful Update leaves, row by row: the label and the destination asked for, and nothing else changed. */
  lemma ChangedIs(db: Db, user: Uuid, id: Uuid, caption: Option<string>, destination: Option<string>, now: Instant)
    requires id in db.codes && db.codes[id].user == user && (destination.Some? ==> id in db.dynamics)
    ensures var after := Changed(db, user, id, caption, destination, now);
            && after.codes == (if caption.Some? then db.codes[id := db.codes[id].(caption := caption, updatedAt := now)]
                               else db.codes)
            && after.dynamics == (if destination.Some?
                                  then db.dynamics[id := DynamicRow(db.dynamics[id].slug, destination.value, now)]
                                  else db.dynamics)
            && after.bySlug == db.bySlug && after.issued == db.issued
  {
  }

  lemma OtherSlugsStay(db: Db, w: Write)
    requires Sound(db)
    ensures forall slug :: Affects(db, w) != Some(slug) ==> ResolveSlug(Apply(db, w), slug) == ResolveSlug(db, slug)
  {
    forall slug | Affects(db, w) != Some(slug) ensures ResolveSlug(Apply(db, w), slug) == ResolveSlug(db, slug) {
      ResolveAfter(db, w, slug);
    }
  }

  lemma OnlyDynamics(db: Db, id: Uuid, destination: string, now: Instant)
    ensures Apply(db, UpdateDestination(id, destination, now)).codes == db.codes
  {
  }

  class Service {
    const repo: Repository
    const cache: RedisCache
    const safety: SafetyService

    constructor (repo: Repository, cache: RedisCache, safety: SafetyService)
      ensures this.repo == repo && this.cache == cache && this.safety == safety
    {
      this.repo, this.cache, this.safety := repo, cache, safety;
    }

    ghost predicate Valid()
      reads repo, cache, safety
    {
      && safety.Valid()
      && Sound(repo.db)
      && forall id <- repo.db.dynamics :: !VerdictOf(safety.checker, repo.db.dynamics[id].destination).Malicious?
    }

    /** guardDestination: only a malicious verdict blocks. */
    method GuardDestination(url: string, get: Fault, set_: Fault) returns (blocked: bool)
      requires safety.Valid()
      modifies safety`verdicts
      ensures safety.Valid()
      ensures blocked <==> VerdictOf(safety.checker, url).Malicious?
      ensures blocked <==> MaliciousUrl(safety.checker, url)
    {
      var report, _ := safety.Check(url, get, set_);
      blocked := report.verdict.Malicious?;
    }

    /**
     Create. A static code is one insert. A dynamic code is stored under the first of five slugs that is free, or not at
     all; whatever is reported as failed has changed nothing, except a commit whose acknowledgement was lost.
     */
    method Create(draft: Draft, isDynamic: bool, payloadUrl: Option<string>, get: Fault, set_: Fault,
                  attempts: seq<Attempt>)
      returns (r: Result<CodeRecord, ServiceError>)
      requires Valid() && |attempts| == MAX_SLUG_ATTEMPTS
      requires forall a <- attempts :: a.id !in repo.db.issued
      modifies repo`db, safety`verdicts
      ensures Valid()
      ensures r.Ok? <==> Creates(safety.checker, old(repo.db), draft, isDynamic, payloadUrl, attempts)
      ensures repo.db == AfterCreate(safety.checker, old(repo.db), draft, isDynamic, payloadUrl, attempts, repo.now)
      ensures isDynamic && draft.kind != "url" ==> r == Err(DynamicUnsupported)
      ensures isDynamic && draft.kind == "url" && (payloadUrl.None? || payloadUrl.value == "") ==>
                r == Err(DynamicUrlRequired)
      ensures isDynamic && draft.kind == "url" && payloadUrl.Some? && payloadUrl.value != "" ==>
                (r == Err(UnsafeDestination) <==> MaliciousUrl(safety.checker, payloadUrl.value))
      ensures r.Ok? ==> fresh(r.value) && r.value.id in repo.db.codes
                        && r.value.AsCode() == Joined(repo.db, r.value.id) && r.value.DraftOf() == draft
      ensures r.Ok? && !isDynamic ==>
                var w := InsertStatic(r.value.id, draft, repo.now);
                Accepts(old(repo.db), w) && repo.db == Apply(old(repo.db), w)
      ensures r.Ok? && isDynamic ==>
                && r.value.dynamic.Some? && payloadUrl.Some? && draft.kind == "url"
                && var w := InsertDynamic(r.value.id, draft, r.value.dynamic.value.slug, payloadUrl.value, repo.now);
                   Accepts(old(repo.db), w) && repo.db == Apply(old(repo.db), w)
      ensures r.Ok? ==>
                && r.value.id in repo.db.codes
                && repo.db.codes[r.value.id] == CodeRow(draft.user, draft.kind, draft.payload, isDynamic, draft.caption,
                                                        repo.now, repo.now)
      ensures r.Ok? && !isDynamic ==> repo.db.dynamics == old(repo.db.dynamics)
      ensures r == Err(SlugGenerationFailed) ==>
                forall i :: 0 <= i < 5 ==> attempts[i].slug.Some? && attempts[i].slug.value in old(repo.db.bySlug)
      ensures r.Ok? && isDynamic ==>
                && r.value.id in repo.db.dynamics && r.value.dynamic == Some(repo.db.dynamics[r.value.id])
                && repo.db.dynamics[r.value.id].destination == payloadUrl.value
                && ResolveSlug(repo.db, repo.db.dynamics[r.value.id].slug)
                   == Some(Target(payloadUrl.value, r.value.id))
      ensures isDynamic && r.Err? && r.error != InternalError ==> repo.db == old(repo.db)
      ensures isDynamic && draft.kind == "url" && payloadUrl.Some? && payloadUrl.value != "" ==>
                var blocked := VerdictOf(safety.checker, payloadUrl.value).Malicious?;
                var n := Deciding(old(repo.db), attempts, 0);
                if blocked then r == Err(UnsafeDestination)
                else if n == MAX_SLUG_ATTEMPTS then r == Err(SlugGenerationFailed)
                else if attempts[n].slug.None? || attempts[n].fault.Failed? then r == Err(InternalError)
                else
                  && repo.db.codes.Keys == old(repo.db.codes.Keys) + {attempts[n].id}
                  && repo.db.bySlug.Keys == old(repo.db.bySlug.Keys) + {attempts[n].slug.value}
    {
      hide VerdictOf, Sound, MaliciousUrl, Apply;
      if isDynamic && draft.kind != "url" {
        return Err(DynamicUnsupported);
      }
      var c := new CodeRecord(draft, isDynamic);
      if !isDynamic {
        var err := repo.Create(c, attempts[0].id, attempts[0].fault);
        return if err.Some? then Err(InternalError) else Ok(c);
      }
      if payloadUrl.None? || payloadUrl.value == "" {
        return Err(DynamicUrlRequired);
      }
      var dest := payloadUrl.value;
      var blocked := GuardDestination(dest, get, set_);
      if blocked {
        return Err(UnsafeDestination);
      }
      for attempt := 0 to MAX_SLUG_ATTEMPTS
        invariant Valid() && repo.db == old(repo.db)
        invariant c.DraftOf() == draft && c.dynamic.None?
        invariant Deciding(repo.db, attempts, 0) == Deciding(repo.db, attempts, attempt)
      {
        var slug := attempts[attempt].slug;
        if slug.None? {
          return Err(InternalError);
        }
        var err := repo.CreateDynamic(c, slug.value, dest, attempts[attempt].id, attempts[attempt].fault);
        if err.None? {
          return Ok(c);
        }
        if err != Some(SlugTaken) {
          return Err(InternalError);
        }
      }
      return Err(SlugGenerationFailed);
    }

    /**
     Update: destination first, with the cache invalidated once it is written, then the label, then a fresh read. If the
     cache agreed with the tables and the invalidation takes effect whenever the write does, it still agrees.
     */
    method Update(user: Uuid, id: Uuid, caption: Option<string>, destination: Option<string>, f: UpdateFaults)
      returns (r: Result<Code, ServiceError>)
      requires Valid()
      modifies repo`db, cache`entries, safety`verdicts
      ensures Valid()
      ensures r.Ok? <==> Updates(safety.checker, old(repo.db), user, id, caption, destination, f)
      ensures r.Ok? ==> repo.db == Changed(old(repo.db), user, id, caption, destination, repo.now)
                        && GetByID(repo.db, user, id) == Some(r.value)
      ensures r.Ok? && caption.Some? ==>
                && id in old(repo.db.codes)
                && repo.db.codes == old(repo.db.codes)[id := old(repo.db.codes)[id].(caption := caption,
                                                                                  updatedAt := repo.now)]
                && r.value.row.caption == caption
      ensures r.Ok? && caption.None? ==> repo.db.codes == old(repo.db.codes)
      ensures r.Ok? && destination.Some? ==>
                && id in old(repo.db.dynamics)
                && repo.db.dynamics == old(repo.db.dynamics)[id := old(repo.db.dynamics)[id].(
                                         destination := destination.value, updatedAt := repo.now)]
                && r.value.dynamic.Some? && r.value.dynamic.value.destination == destination.value
      ensures r.Ok? && destination.None? ==> repo.db.dynamics == old(repo.db.dynamics)
      ensures r.Err? && r.error in {CodeMissing, NotDynamic, UnsafeDestination} ==>
                repo.db == old(repo.db) && cache.entries == old(cache.entries)
      ensures r == Err(UnsafeDestination) <==>
                && f.load.Fine? && id in old(repo.db.codes) && old(repo.db.codes)[id].user == user
                && destination.Some? && id in old(repo.db.dynamics) && MaliciousUrl(safety.checker, destination.value)
      ensures destination.Some? && !f.write.Fine? ==> repo.db.codes == old(repo.db.codes)
      ensures var db := old(repo.db); var found := f.load.Fine? && Owned(db, user, id);
              && repo.db == (if found then AfterChange(safety.checker, db, user, id, caption, destination, f, repo.now)
                             else db)
              && cache.entries == (if found && destination.Some? && Moves(safety.checker, db, id, destination, f.write)
                                      && !f.invalidate.Failed?
                                   then old(cache.entries) - {db.dynamics[id].slug} else old(cache.entries))
              && (f.load.Fine? && !found ==> r == Err(CodeMissing))
              && (found && destination.Some? && id !in db.dynamics ==> r == Err(NotDynamic))
              && (found && destination.Some? && id in db.dynamics ==>
                    VerdictOf(safety.checker, destination.value).Malicious? ==> r == Err(UnsafeDestination))
      ensures old(cache.CoherentWith(repo.db)) && !f.invalidate.Failed? && !f.write.Unreported? ==>
                cache.CoherentWith(repo.db)
    {
      hide Apply, Sound, VerdictOf, ResolveSlug, MaliciousUrl;
      if destination.Some? {
        VerdictIs(safety.checker, destination.value);
      }
      OnlyDynamics(repo.db, id, if destination.Some? then destination.value else "", repo.now);
      var code := repo.Get(user, id, f.load);
      if code.Err? {
        return Err(if code.error.Missing? then CodeMissing else InternalError);
      }
      var err := Change(code.value, user, caption, destination, f);
      if err.Some? {
        return Err(err.value);
      }
      ChangedIs(old(repo.db), user, id, caption, destination, repo.now);
      var updated := repo.Get(user, id, f.reload);
      if updated.Err? {
        return Err(if updated.error.Missing? then CodeMissing else InternalError);
      }
      r := Ok(updated.value);
    }

    /** The writes of Update, on the code just read. */
    method Change(code: Code, user: Uuid, caption: Option<string>, destination: Option<string>, f: UpdateFaults)
      returns (err: Option<ServiceError>)
      requires Valid() && Owned(repo.db, user, code.id) && code == Joined(repo.db, code.id)
      modifies repo`db, cache`entries, safety`verdicts
      ensures Valid() && Owned(repo.db, user, code.id)
      ensures err.Some? ==> err.value in {NotDynamic, UnsafeDestination, InternalError}
      ensures err.Some? && err.value.UnsafeDestination? ==>
                destination.Some? && code.id in old(repo.db.dynamics)
                && VerdictOf(safety.checker, destination.value).Malicious?
      ensures err == Some(NotDynamic) ==> destination.Some? && code.id !in old(repo.db.dynamics)
      ensures var db, c := old(repo.db), safety.checker;
              && (err.None? <==> Moves(c, db, code.id, destination, f.write) && (caption.Some? ==> f.relabel.Fine?))
              && repo.db == AfterChange(c, db, user, code.id, caption, destination, f, repo.now)
              && cache.entries == (if destination.Some? && Moves(c, db, code.id, destination, f.write)
                                      && !f.invalidate.Failed?
                                   then old(cache.entries) - {db.dynamics[code.id].slug} else old(cache.entries))
              && (destination.Some? && code.id !in db.dynamics ==> err == Some(NotDynamic))
              && (destination.Some? && code.id in db.dynamics && VerdictOf(c, destination.value).Malicious? ==>
                    err == Some(UnsafeDestination))
      ensures old(cache.CoherentWith(repo.db)) && !f.invalidate.Failed? && !f.write.Unreported? ==>
                cache.CoherentWith(repo.db)
    {
      hide Apply, Sound, VerdictOf, ResolveSlug;
      err := None;
      if destination.Some? {
        err := Retarget(code, user, destination.value, f.get, f.set_, f.write, f.invalidate);
        if err.Some? {
          return;
        }
      }
      if caption.Some? {
        err := Relabel(user, code.id, caption, f.relabel);
      }
    }

    /** The label half of Update: nothing a redirect sees changes. */
    method Relabel(user: Uuid, id: Uuid, caption: Option<string>, fault: Fault) returns (err: Option<ServiceError>)
      requires Valid() && Owned(repo.db, user, id)
      modifies repo`db
      ensures Valid() && Owned(repo.db, user, id)
      ensures repo.db == if fault.Failed? then old(repo.db)
                         else Apply(old(repo.db), UpdateLabel(user, id, caption, repo.now))
      ensures err == if fault.Fine? then None else Some(InternalError)
      ensures err.None? ==>
                && repo.db.codes == old(repo.db.codes)[id := old(repo.db.codes)[id].(caption := caption,
                                                                                  updatedAt := repo.now)]
                && repo.db.dynamics == old(repo.db.dynamics) && repo.db.bySlug == old(repo.db.bySlug)
      ensures old(cache.CoherentWith(repo.db)) ==> cache.CoherentWith(repo.db)
    {
      hide Sound, VerdictOf;
      ApplySound(repo.db, UpdateLabel(user, id, caption, repo.now));
      var failed := repo.UpdateLabel(user, id, caption, fault);
      err := if failed.None? then None else Some(if failed.value.Missing? then CodeMissing else InternalError);
    }

    /** The destination half of Update, on the code just read: guarded, written, then dropped from the cache. */
    method Retarget(code: Code, user: Uuid, destination: string, get: Fault, set_: Fault, write: Fault,
                    invalidate: Fault)
      returns (err: Option<ServiceError>)
      requires Valid() && Owned(repo.db, user, code.id) && code == Joined(repo.db, code.id)
      modifies repo`db, cache`entries, safety`verdicts
      ensures Valid() && Owned(repo.db, user, code.id)
      ensures var passes := code.id in old(repo.db.dynamics) && !VerdictOf(safety.checker, destination).Malicious?;
              && repo.db == (if passes && !write.Failed?
                             then Apply(old(repo.db), UpdateDestination(code.id, destination, repo.now))
                             else old(repo.db))
              && (err.None? <==> passes && write.Fine?)
              && cache.entries == (if err.None? && !invalidate.Failed?
                                   then old(cache.entries) - {old(repo.db.dynamics)[code.id].slug}
                                   else old(cache.entries))
      ensures err.None? ==>
                && repo.db.dynamics == old(repo.db.dynamics)[code.id := old(repo.db.dynamics)[code.id].(
                                         destination := destination, updatedAt := repo.now)]
                && repo.db.codes == old(repo.db.codes) && repo.db.bySlug == old(repo.db.bySlug)
      ensures err.Some? ==> err.value in {NotDynamic, UnsafeDestination, InternalError}
      ensures err == Some(NotDynamic) ==> code.id !in old(repo.db.dynamics)
      ensures err == Some(UnsafeDestination) ==> VerdictOf(safety.checker, destination).Malicious?
      ensures err == Some(UnsafeDestination) <==>
                code.id in old(repo.db.dynamics) && MaliciousUrl(safety.checker, destination)
      ensures code.id !in old(repo.db.dynamics) ==> err == Some(NotDynamic)
      ensures code.id in old(repo.db.dynamics) && VerdictOf(safety.checker, destination).Malicious? ==>
                err == Some(UnsafeDestination)
      ensures old(cache.CoherentWith(repo.db)) && !invalidate.Failed? && !write.Unreported? ==>
                cache.CoherentWith(repo.db)
    {
      hide VerdictOf, MaliciousUrl, ResolveSlug, Apply;
      if !code.row.isDynamic || code.dynamic.None? {
        return Some(NotDynamic);
      }
      var blocked := GuardDestination(destination, get, set_);
      if blocked {
        return Some(UnsafeDestination);
      }
      var w := UpdateDestination(code.id, destination, repo.now);
      OtherSlugsStay(repo.db, w);
      ApplySound(repo.db, w);
      var failed := repo.UpdateDestination(code.id, destination, write);
      if failed.Some? {
        return Some(if failed.value.Missing? then CodeMissing else InternalError);
      }
      var _ := cache.Invalidate(code.dynamic.value.slug, invalidate);
      err := None;
    }

    /** Delete: the row goes, its dynamic row with it, and the slug's entry if there was one. */
    method Delete(user: Uuid, id: Uuid, load: Fault, write: Fault, invalidate: Fault)
      returns (err: Option<ServiceError>)
      requires Valid()
      modifies repo`db, cache`entries
      ensures Valid()
      ensures var passes := load.Fine? && old(Owned(repo.db, user, id));
              && repo.db == (if passes && !write.Failed? then Apply(old(repo.db), DeleteCode(user, id))
                             else old(repo.db))
              && (err.None? <==> passes && write.Fine?)
              && cache.entries == (if err.None? && id in old(repo.db.dynamics) && !invalidate.Failed?
                                   then old(cache.entries) - {old(repo.db.dynamics)[id].slug}
                                   else old(cache.entries))
      ensures load.Fine? && !old(Owned(repo.db, user, id)) ==> err == Some(CodeMissing)
      ensures err.None? ==>
                && repo.db.codes == old(repo.db.codes) - {id} && repo.db.dynamics == old(repo.db.dynamics) - {id}
                && (id in old(repo.db.dynamics) ==> ResolveSlug(repo.db, old(repo.db.dynamics)[id].slug) == None)
      ensures old(cache.CoherentWith(repo.db)) && !invalidate.Failed? && !write.Unreported? ==>
                cache.CoherentWith(repo.db)
    {
      hide VerdictOf;
      var code := repo.Get(user, id, load);
      if code.Err? {
        return Some(if code.error.Missing? then CodeMissing else InternalError);
      }
      var w := DeleteCode(user, id);
      OtherSlugsStay(repo.db, w);
      ApplySound(repo.db, w);
      var failed := repo.Delete(user, id, write);
      if failed.Some? {
        return Some(if failed.value.Missing? then CodeMissing else InternalError);
      }
      if code.value.row.isDynamic && code.value.dynamic.Some? {
        var _ := cache.Invalidate(code.value.dynamic.value.slug, invalidate);
      }
      err := None;
    }

    /** List fetches one row more than the page holds, to learn whether there is a next page. */
    method List(user: Uuid, token: string, limit: int, fault: Fault) returns (r: Result<ListResult, ListError>)
      requires InRange(repo.db)
      ensures CursorOf(token).Err? ==> r == Err(InvalidCursor)
      ensures CursorOf(token).Ok? && !fault.Fine? ==> r == Err(QueryFailed)
      ensures CursorOf(token).Ok? && fault.Fine? ==>
                r == Ok(Listed(repo.db, user, CursorOf(token).value, PageLimit(limit)))
    {
      hide Decode, Encode, Page;
      var n := limit;
      if n <= 0 {
        n := DEFAULT_LIST_LIMIT;
      }
      if n > MAX_LIST_LIMIT {
        n := MAX_LIST_LIMIT;
      }
      var cur := None;
      if token != "" {
        cur := Decode(token);
        if cur.None? {
          return Err(InvalidCursor);
        }
      }
      var items := repo.List(user, cur, n + 1, fault);
      if items.Err? {
        return Err(QueryFailed);
      }
      Trimmed(repo.db, user, cur, n, items.value);
      if |items.value| > n {
        var last := items.value[n - 1];
        return Ok(ListResult(items.value[..n], Encode(Key(last.row.createdAt, last.id))));
      }
      r := Ok(ListResult(items.value, ""));
    }
  }
}
