/**
 Every request of the redirect service as a small program over Postgres, the redirect cache and the verdict cache,
 interleaved one atomic step at a time: backend/internal/codes/redirect.go and service.go,
 backend/internal/safety/service.go.

 A run is any sequence of labels. Postgres and Redis calls fail as the label says, entries vanish early, time passes,
 requests are cut off; a label that does not fit the state changes nothing.
 */
module Protocol {
  import opened Basics
  import opened Rfc3339
  import opened Cursor
  import opened Tables
  import opened Safety

  const REDIRECT_TTL: int := 3600 * SECOND
  const VERDICT_TTL: int := 6 * 3600 * SECOND
  const MAX_SLUG_ATTEMPTS := 5

  /** How a call to a store went: done, not done, or done although the caller saw an error. */
  datatype Fault = Fine | Failed | Unreported

  /** When and from which table version a cached target was read, and when and at which step it was stored. */
  datatype Stamp = Stamp(version: nat, readAt: Instant, storedAt: Instant, step: nat)

  /** A redirect cache entry; the stamp is bookkeeping that no step reads. */
  datatype Entry = Entry(target: Target, expires: Instant, stamp: Stamp)

  datatype CachedVerdict = CachedVerdict(verdict: Verdict, expires: Instant)

  /** What became of the invalidation a write owes the cache. */
  datatype Fate = NotNeeded | Pending(pid: nat) | Lost | Cleared(step: nat)

  /** One version of the tables: since when, by which statement, which slug it changed. */
  datatype Version = Version(db: Db, at: Instant, write: Option<Write>, slug: Option<string>, fate: Fate)

  datatype Request =
    | Redirect(slug: string)
    | Create(draft: Draft, isDynamic: bool, payloadUrl: Option<string>)
    | Update(user: Uuid, id: Uuid, caption: Option<string>, destination: Option<string>)
    | Delete(user: Uuid, id: Uuid)
    | ScanCheck(url: string)

  datatype Answer = Found(destination: string) | NotFound | Unavailable

  datatype AfterGate =
    | ToInsert(draft: Draft)
    | ToRetarget(user: Uuid, id: Uuid, caption: Option<string>, slug: string)
    | ToReport

  datatype AfterInvalidate = ToRelabel(user: Uuid, id: Uuid, caption: Option<string>) | ToReply

  /** A request's program counter, named after what it does next. */
  datatype Proc =
    | Looking(slug: string)
    | Querying(slug: string)
    | Storing(slug: string, target: Target, version: nat, readAt: Instant)
    | Resolved(slug: string, answer: Answer, at: Instant)
    | Gating(url: string, next: AfterGate)
    | Vetting(url: string, next: AfterGate)
    | Creating(draft: Draft, isDynamic: bool, payloadUrl: Option<string>)
    | Inserting(draft: Draft, destination: string, attempt: nat)
    | Loading(user: Uuid, id: Uuid, caption: Option<string>, change: Option<string>)
    | Retargeting(user: Uuid, id: Uuid, caption: Option<string>, slug: string, destination: string)
    | Relabelling(user: Uuid, id: Uuid, caption: Option<string>)
    | Reloading(user: Uuid, id: Uuid)
    | Finding(user: Uuid, id: Uuid)
    | Deleting(user: Uuid, id: Uuid, known: Option<string>)
    | Invalidating(slug: string, version: nat, after: AfterInvalidate)
    | Finished(ok: bool)
    | Aborted

  /** hist, steps and worstGap only record: hist every version of the tables, worstGap the longest read-to-store gap. */
  datatype State = State(now: Instant, db: Db, redis: map<string, Entry>, verdicts: map<string, CachedVerdict>,
                         procs: map<nat, Proc>, hist: seq<Version>, steps: nat, worstGap: int)

  /** id and slug are what gen_random_uuid and GenerateSlug would produce in this step. */
  datatype Label =
    | Tick(elapsed: nat)
    | Evict(key: string)
    | EvictVerdict(url: string)
    | Start(pid: nat, request: Request)
    | Advance(pid: nat, fault: Fault, id: Uuid, slug: string)
    | Abort(pid: nat)

  function Initial(t0: Instant): State {
    State(t0, EMPTY, map[], map[], map[], [Version(EMPTY, t0, None, None, NotNeeded)], 0, 0)
  }

  function FirstStep(r: Request): Proc {
    match r
    case Redirect(slug) => Looking(slug)
    case Create(draft, isDynamic, url) => Creating(draft, isDynamic, url)
    case Update(user, id, caption, destination) => Loading(user, id, caption, destination)
    case Delete(user, id) => Finding(user, id)
    case ScanCheck(url) => Gating(url, ToReport)
  }

  function Goto(s: State, pid: nat, p: Proc): State {
    s.(procs := s.procs[pid := p])
  }

  /** Run a statement; fate is what its invalidation starts as, if it owes one. */
  function Commit(s: State, w: Write, fate: Fate): State {
    var slug := Affects(s.db, w);
    var db := Apply(s.db, w);
    s.(db := db,
       hist := s.hist + [Version(db, s.now, Some(w), slug,
                                 if slug.Some? && !w.InsertDynamic? then fate else NotNeeded)])
  }

  function SetFate(s: State, v: nat, fate: Fate): State {
    if v < |s.hist| then s.(hist := s.hist[v := s.hist[v].(fate := fate)]) else s
  }

  predicate Live(s: State, slug: string) {
    slug in s.redis && s.now < s.redis[slug].expires
  }

  /** RedirectService.Resolve: Redis first, then Postgres, then store; only a failed query is an error. */
  function ActResolve(s: State, pid: nat, p: Proc, fault: Fault): State
    requires p.Looking? || p.Querying? || p.Storing?
  {
    match p
    case Looking(slug) =>
      if fault.Fine? && Live(s, slug)
      then Goto(s, pid, Resolved(slug, Found(s.redis[slug].target.destination), s.now))
      else Goto(s, pid, Querying(slug))
    case Querying(slug) =>
      if !fault.Fine? then Goto(s, pid, Resolved(slug, Unavailable, s.now))
      else
        (match ResolveSlug(s.db, slug)
         case None => Goto(s, pid, Resolved(slug, NotFound, s.now))
         case Some(t) => Goto(s, pid, Storing(slug, t, if |s.hist| > 0 then |s.hist| - 1 else 0, s.now)))
    case Storing(slug, t, version, readAt) =>
      var s' := if fault.Failed? then s
                else s.(redis := s.redis[slug := Entry(t, s.now + REDIRECT_TTL,
                                                       Stamp(version, readAt, s.now, s.steps))],
                        worstGap := Max(s.worstGap, s.now - readAt));
      Goto(s', pid, Resolved(slug, Found(t.destination), readAt))
  }

  /** Where guardDestination lets a request go on to. */
  function Gated(url: string, next: AfterGate, verdict: Verdict): Proc {
    if next.ToReport? then Finished(true)
    else if verdict.Malicious? then Finished(false)
    else
      match next
      case ToInsert(draft) => Inserting(draft, url, 1)
      case ToRetarget(user, id, caption, slug) => Retargeting(user, id, caption, slug, url)
      case ToReport => Finished(true)
  }

  /** safety.Service.Check in front of a write: a cached verdict, or a fresh one that is then cached. */
  ghost function ActGate(c: Checker, s: State, pid: nat, p: Proc, fault: Fault): State
    requires p.Gating? || p.Vetting?
  {
    match p
    case Gating(url, next) =>
      if fault.Fine? && url in s.verdicts && s.now < s.verdicts[url].expires
      then Goto(s, pid, Gated(url, next, s.verdicts[url].verdict))
      else Goto(s, pid, Vetting(url, next))
    case Vetting(url, next) =>
      var verdict := VerdictOf(c, url);
      var s' := if fault.Failed? then s
                else s.(verdicts := s.verdicts[url := CachedVerdict(verdict, s.now + VERDICT_TTL)]);
      Goto(s', pid, Gated(url, next, verdict))
  }

  /** Service.Create: static codes go straight in; dynamic ones try up to five slugs. */
  function ActCreate(s: State, pid: nat, p: Proc, fault: Fault, id: Uuid, slug: string): State
    requires p.Creating? || p.Inserting?
  {
    match p
    case Creating(draft, isDynamic, url) =>
      if isDynamic then
        if draft.kind != "url" || url.None? || url.value == "" then Goto(s, pid, Finished(false))
        else Goto(s, pid, Gating(url.value, ToInsert(draft)))
      else
        var w := InsertStatic(id, draft, s.now);
        if fault.Failed? || !Accepts(s.db, w) then Goto(s, pid, Finished(false))
        else Goto(Commit(s, w, NotNeeded), pid, Finished(fault.Fine?))
    case Inserting(draft, destination, attempt) =>
      var w := InsertDynamic(id, draft, slug, destination, s.now);
      if fault.Failed? then Goto(s, pid, Finished(false))
      else if slug in s.db.bySlug then
        Goto(s, pid, if attempt < MAX_SLUG_ATTEMPTS then Inserting(draft, destination, attempt + 1)
                     else Finished(false))
      else if !Accepts(s.db, w) then Goto(s, pid, Finished(false))
      else Goto(Commit(s, w, NotNeeded), pid, Finished(fault.Fine?))
  }

  /** Service.Update: read, check, write, invalidate, relabel, read again. */
  function ActUpdate(s: State, pid: nat, p: Proc, fault: Fault): State
    requires p.Loading? || p.Retargeting? || p.Relabelling? || p.Reloading?
  {
    match p
    case Loading(user, id, caption, change) =>
      var code := GetByID(s.db, user, id);
      if !fault.Fine? || code.None? then Goto(s, pid, Finished(false))
      else if change.None? then Goto(s, pid, Relabelling(user, id, caption))
      else if !code.value.row.isDynamic || code.value.dynamic.None? then Goto(s, pid, Finished(false))
      else Goto(s, pid, Gating(change.value, ToRetarget(user, id, caption, code.value.dynamic.value.slug)))
    case Retargeting(user, id, caption, slug, destination) =>
      var w := UpdateDestination(id, destination, s.now);
      if fault.Failed? || !Accepts(s.db, w) then Goto(s, pid, Finished(false))
      else if fault.Unreported? then Goto(Commit(s, w, Lost), pid, Finished(false))
      else Goto(Commit(s, w, Pending(pid)), pid, Invalidating(slug, |s.hist|, ToRelabel(user, id, caption)))
    case Relabelling(user, id, caption) =>
      var w := UpdateLabel(user, id, caption, s.now);
      if caption.None? then Goto(s, pid, Reloading(user, id))
      else if fault.Failed? || !Accepts(s.db, w) then Goto(s, pid, Finished(false))
      else Goto(Commit(s, w, NotNeeded), pid, if fault.Fine? then Reloading(user, id) else Finished(false))
    case Reloading(user, id) =>
      Goto(s, pid, Finished(fault.Fine? && GetByID(s.db, user, id).Some?))
  }

  /** Service.Delete: read, delete, invalidate if the row read was dynamic. */
  function ActDelete(s: State, pid: nat, p: Proc, fault: Fault): State
    requires p.Finding? || p.Deleting?
  {
    match p
    case Finding(user, id) =>
      var code := GetByID(s.db, user, id);
      if !fault.Fine? || code.None? then Goto(s, pid, Finished(false))
      else
        Goto(s, pid, Deleting(user, id, if code.value.row.isDynamic && code.value.dynamic.Some?
                                        then Some(code.value.dynamic.value.slug) else None))
    case Deleting(user, id, known) =>
      var w := DeleteCode(user, id);
      if fault.Failed? || !Accepts(s.db, w) then Goto(s, pid, Finished(false))
      else if fault.Unreported? then Goto(Commit(s, w, Lost), pid, Finished(false))
      else if known.None? then Goto(Commit(s, w, Lost), pid, Finished(true))
      else Goto(Commit(s, w, Pending(pid)), pid, Invalidating(known.value, |s.hist|, ToReply))
  }

  /** RedisCache.Invalidate; a failure is only logged. */
  function ActInvalidate(s: State, pid: nat, p: Proc, fault: Fault): State
    requires p.Invalidating?
  {
    var s' := if fault.Failed? then SetFate(s, p.version, Lost)
              else SetFate(s.(redis := s.redis - {p.slug}), p.version, Cleared(s.steps));
    match p.after
    case ToRelabel(user, id, caption) => Goto(s', pid, Relabelling(user, id, caption))
    case ToReply => Goto(s', pid, Finished(true))
  }

  ghost function Act(c: Checker, s: State, pid: nat, p: Proc, fault: Fault, id: Uuid, slug: string): (s': State)
    ensures pid in s.procs ==> pid in s'.procs
  {
    match p
    case Looking(_) => ActResolve(s, pid, p, fault)
    case Querying(_) => ActResolve(s, pid, p, fault)
    case Storing(_, _, _, _) => ActResolve(s, pid, p, fault)
    case Gating(_, _) => ActGate(c, s, pid, p, fault)
    case Vetting(_, _) => ActGate(c, s, pid, p, fault)
    case Creating(_, _, _) => ActCreate(s, pid, p, fault, id, slug)
    case Inserting(_, _, _) => ActCreate(s, pid, p, fault, id, slug)
    case Finding(_, _) => ActDelete(s, pid, p, fault)
    case Deleting(_, _, _) => ActDelete(s, pid, p, fault)
    case Invalidating(_, _, _) => ActInvalidate(s, pid, p, fault)
    case Resolved(_, _, _) => s
    case Finished(_) => s
    case Aborted => s
    case _ => ActUpdate(s, pid, p, fault)
  }

  /** A request cut off for good; an invalidation it still owed is lost. */
  function Cut(s: State, pid: nat): State {
    if pid !in s.procs then s
    else
      match s.procs[pid]
      case Resolved(_, _, _) => s
      case Finished(_) => s
      case Invalidating(_, v, _) => Goto(SetFate(s, v, Lost), pid, Aborted)
      case _ => Goto(s, pid, Aborted)
  }

  ghost function Effect(c: Checker, s: State, l: Label): State {
    match l
    case Tick(elapsed) => s.(now := s.now + elapsed)
    case Evict(slug) => s.(redis := s.redis - {slug})
    case EvictVerdict(url) => s.(verdicts := s.verdicts - {url})
    case Start(pid, request) => if pid in s.procs then s else Goto(s, pid, FirstStep(request))
    case Advance(pid, fault, id, slug) =>
      if pid in s.procs then Act(c, s, pid, s.procs[pid], fault, id, slug) else s
    case Abort(pid) => Cut(s, pid)
  }

  ghost function Step(c: Checker, s: State, l: Label): State {
    Effect(c, s, l).(steps := s.steps + 1)
  }

  /** The state after a run. */
  ghost function Run(c: Checker, t0: Instant, labels: seq<Label>): State {
    if labels == [] then Initial(t0)
    else Step(c, Run(c, t0, labels[..|labels| - 1]), labels[|labels| - 1])
  }
}
