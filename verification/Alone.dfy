/**
 The two views of the service agree: a request whose steps in the interleaved machine are not interrupted does what its
 method does, for Resolve, Create, Update and Delete and every combination of faults.
 */
module Alone {
  import opened Basics
  import opened Cursor
  import opened Tables
  import opened Safety
  import opened Protocol
  import RedirectService
  import CodesService

  /** What a step meets: how its call goes, and the id and slug drawn. */
  datatype Turn = Turn(fault: Fault, id: Uuid, slug: string)

  /** What each step of a request meets, by where the request is. */
  type Calls = Proc -> Turn

  /** n steps of pid with nothing in between. */
  ghost function Driven(c: Checker, s: State, pid: nat, calls: Calls, n: nat): State
    decreases n
  {
    if n == 0 || pid !in s.procs then s else Driven(c, Turned(c, s, pid, calls), pid, calls, n - 1)
  }

  ghost function Turned(c: Checker, s: State, pid: nat, calls: Calls): State
    requires pid in s.procs
  {
    var t := calls(s.procs[pid]);
    Step(c, s, Advance(pid, t.fault, t.id, t.slug))
  }

  /** The request starts and makes n steps, with nothing in between. */
  ghost function Uninterrupted(c: Checker, s: State, pid: nat, request: Request, calls: Calls, n: nat): State {
    Driven(c, Step(c, s, Start(pid, request)), pid, calls, n)
  }

  /** Tables, cache and clock are as before, and pid is at p. */
  predicate Moved(s: State, s': State, pid: nat, p: Proc) {
    s'.db == s.db && s'.redis == s.redis && s'.now == s.now && pid in s'.procs && s'.procs[pid] == p
  }

  lemma StartStep(c: Checker, s: State, pid: nat, request: Request)
    requires pid !in s.procs
    ensures Moved(s, Step(c, s, Start(pid, request)), pid, FirstStep(request))
    ensures Step(c, s, Start(pid, request)).verdicts == s.verdicts
  {
  }

  lemma DoneStep(c: Checker, s: State, pid: nat, calls: Calls)
    requires pid in s.procs && (s.procs[pid].Resolved? || s.procs[pid].Finished?)
    ensures Moved(s, Turned(c, s, pid, calls), pid, s.procs[pid])
  {
    hide ActResolve, ActGate, ActCreate, ActUpdate, ActDelete, ActInvalidate;
  }

  /** A request that is over stays over, and changes nothing more. */
  lemma {:induction false} DoneStays(c: Checker, s: State, pid: nat, calls: Calls, n: nat)
    requires pid in s.procs && (s.procs[pid].Resolved? || s.procs[pid].Finished?)
    ensures Moved(s, Driven(c, s, pid, calls, n), pid, s.procs[pid])
    decreases n
  {
    hide Turned;
    if n > 0 {
      DoneStep(c, s, pid, calls);
      DoneStays(c, Turned(c, s, pid, calls), pid, calls, n - 1);
    }
  }

  lemma OneTurn(c: Checker, s: State, pid: nat, calls: Calls, n: nat)
    requires n > 0 && pid in s.procs
    ensures Driven(c, s, pid, calls, n) == Driven(c, Turned(c, s, pid, calls), pid, calls, n - 1)
  {
    hide Turned;
  }

  // ---- Resolve ----

  /** A cached target that can still be served. */
  function Hit(s: State, slug: string): Option<Target> {
    if Live(s, slug) then Some(s.redis[slug].target) else None
  }

  /** Same entries as far as redirects can tell: targets and expiry. */
  predicate SameEntries(redis: map<string, Entry>, entries: map<string, RedirectService.Cached>) {
    && redis.Keys == entries.Keys
    && forall slug <- redis :: entries[slug] == RedirectService.Cached(redis[slug].target, redis[slug].expires)
  }

  function ResolveCalls(lookup: Fault, query: Fault, store: Fault): Calls {
    (p: Proc) => Turn(if p.Looking? then lookup else if p.Querying? then query else store, 0, "")
  }

  lemma LookStep(c: Checker, s: State, pid: nat, slug: string, calls: Calls)
    requires pid in s.procs && s.procs[pid] == Looking(slug)
    ensures Moved(s, Turned(c, s, pid, calls), pid,
                  if calls(Looking(slug)).fault.Fine? && Hit(s, slug).Some?
                  then Resolved(slug, Found(Hit(s, slug).value.destination), s.now)
                  else Querying(slug))
  {
    hide ActGate, ActCreate, ActUpdate, ActDelete, ActInvalidate, ResolveSlug;
  }

  lemma QueryStep(c: Checker, s: State, pid: nat, slug: string, calls: Calls)
    requires pid in s.procs && s.procs[pid] == Querying(slug)
    ensures var row := ResolveSlug(s.db, slug);
            Moved(s, Turned(c, s, pid, calls), pid,
                  if !calls(Querying(slug)).fault.Fine? then Resolved(slug, Unavailable, s.now)
                  else if row.None? then Resolved(slug, NotFound, s.now)
                  else Storing(slug, row.value, if |s.hist| > 0 then |s.hist| - 1 else 0, s.now))
  {
    hide ActGate, ActCreate, ActUpdate, ActDelete, ActInvalidate, ResolveSlug;
  }

  lemma StoreStep(c: Checker, s: State, pid: nat, calls: Calls, entries: map<string, RedirectService.Cached>)
    requires pid in s.procs && s.procs[pid].Storing? && SameEntries(s.redis, entries)
    ensures var s', p := Turned(c, s, pid, calls), s.procs[pid];
            && s'.db == s.db && pid in s'.procs
            && s'.procs[pid] == Resolved(p.slug, Found(p.target.destination), p.readAt)
            && SameEntries(s'.redis, if calls(p).fault.Failed? then entries
                                     else entries[p.slug := RedirectService.Cached(p.target, s.now + REDIRECT_TTL)])
  {
    hide ActGate, ActCreate, ActUpdate, ActDelete, ActInvalidate;
  }

  lemma SameHit(s: State, s': State, slug: string)
    requires s'.redis == s.redis && s'.now == s.now
    ensures Hit(s', slug) == Hit(s, slug)
  {
  }

  /** An uninterrupted Resolve in the machine is the method Resolve. */
  lemma {:induction false} ResolveAlone(c: Checker, s: State, pid: nat, slug: string, lookup: Fault, query: Fault,
                                        store: Fault, entries: map<string, RedirectService.Cached>)
    requires pid !in s.procs && SameEntries(s.redis, entries)
    ensures var s' := Uninterrupted(c, s, pid, Redirect(slug), ResolveCalls(lookup, query, store), 3);
            var hit, row := Hit(s, slug), ResolveSlug(s.db, slug);
            && s'.db == s.db && pid in s'.procs && s'.procs[pid].Resolved? && s'.procs[pid].slug == slug
            && s'.procs[pid].answer == RedirectService.AnswerOf(hit, lookup, row, query)
            && SameEntries(s'.redis, if RedirectService.Stores(hit, lookup, row, query, store)
                                     then entries[slug := RedirectService.Cached(row.value, s.now + REDIRECT_TTL)]
                                     else entries)
  {
    hide Step, Turned, Driven, ResolveSlug, Live, SameEntries;
    var calls := ResolveCalls(lookup, query, store);
    var s0 := Step(c, s, Start(pid, Redirect(slug)));
    StartStep(c, s, pid, Redirect(slug));
    SameHit(s, s0, slug);
    LookStep(c, s0, pid, slug, calls);
    OneTurn(c, s0, pid, calls, 3);
    var s1 := Turned(c, s0, pid, calls);
    if s1.procs[pid].Resolved? {
      DoneStays(c, s1, pid, calls, 2);
    } else {
      QueryStep(c, s1, pid, slug, calls);
      OneTurn(c, s1, pid, calls, 2);
      var s2 := Turned(c, s1, pid, calls);
      if s2.procs[pid].Resolved? {
        DoneStays(c, s2, pid, calls, 1);
      } else {
        StoreStep(c, s2, pid, calls, entries);
        OneTurn(c, s2, pid, calls, 1);
        DoneStays(c, Turned(c, s2, pid, calls), pid, calls, 0);
      }
    }
  }

  // ---- Delete ----

  function DeleteCalls(load: Fault, write: Fault, invalidate: Fault): Calls {
    (p: Proc) => Turn(if p.Finding? then load else if p.Deleting? then write else invalidate, 0, "")
  }

  lemma FindStep(c: Checker, s: State, pid: nat, user: Uuid, id: Uuid, calls: Calls)
    requires pid in s.procs && s.procs[pid] == Finding(user, id) && Sound(s.db)
    ensures Moved(s, Turned(c, s, pid, calls), pid,
                  if !calls(Finding(user, id)).fault.Fine? || !Owned(s.db, user, id) then Finished(false)
                  else Deleting(user, id, if id in s.db.dynamics then Some(s.db.dynamics[id].slug) else None))
  {
    hide ActResolve, ActGate, ActCreate, ActUpdate, ActInvalidate, Apply;
  }

  lemma DropStep(c: Checker, s: State, pid: nat, user: Uuid, id: Uuid, known: Option<string>, calls: Calls)
    requires pid in s.procs && s.procs[pid] == Deleting(user, id, known) && Owned(s.db, user, id)
    ensures var s', write := Turned(c, s, pid, calls), calls(Deleting(user, id, known)).fault;
            && s'.db == (if write.Failed? then s.db else Apply(s.db, DeleteCode(user, id))) && s'.redis == s.redis
            && pid in s'.procs
            && (if !write.Fine? then s'.procs[pid] == Finished(false)
                else if known.None? then s'.procs[pid] == Finished(true)
                else s'.procs[pid] == Invalidating(known.value, |s.hist|, ToReply))
  {
    hide ActResolve, ActGate, ActCreate, ActUpdate, ActInvalidate, Apply;
  }

  lemma ClearStep(c: Checker, s: State, pid: nat, calls: Calls)
    requires pid in s.procs && s.procs[pid].Invalidating?
    ensures var s', p := Turned(c, s, pid, calls), s.procs[pid];
            && s'.db == s.db && s'.now == s.now && pid in s'.procs
            && s'.procs[pid] == (if p.after.ToReply? then Finished(true)
                                 else Relabelling(p.after.user, p.after.id, p.after.caption))
            && s'.redis == if calls(p).fault.Failed? then s.redis else s.redis - {p.slug}
  {
    hide ActResolve, ActGate, ActCreate, ActUpdate, ActDelete;
  }

  /** An uninterrupted Delete in the machine leaves tables and cache as the method Delete does. */
  lemma {:induction false} DeleteAlone(c: Checker, s: State, pid: nat, user: Uuid, id: Uuid, load: Fault, write: Fault,
                                       invalidate: Fault)
    requires pid !in s.procs && Sound(s.db)
    ensures var s' := Uninterrupted(c, s, pid, Delete(user, id), DeleteCalls(load, write, invalidate), 3);
            var passes := load.Fine? && Owned(s.db, user, id);
            && s'.db == (if passes && !write.Failed? then Apply(s.db, DeleteCode(user, id)) else s.db)
            && s'.redis == (if passes && write.Fine? && id in s.db.dynamics && !invalidate.Failed?
                            then s.redis - {s.db.dynamics[id].slug} else s.redis)
            && pid in s'.procs && s'.procs[pid] == Finished(passes && write.Fine?)
  {
    hide Step, Turned, Driven, Apply, Sound;
    var calls := DeleteCalls(load, write, invalidate);
    var s0 := Step(c, s, Start(pid, Delete(user, id)));
    StartStep(c, s, pid, Delete(user, id));
    FindStep(c, s0, pid, user, id, calls);
    OneTurn(c, s0, pid, calls, 3);
    var s1 := Turned(c, s0, pid, calls);
    if s1.procs[pid].Finished? {
      DoneStays(c, s1, pid, calls, 2);
    } else {
      DropStep(c, s1, pid, user, id, s1.procs[pid].known, calls);
      OneTurn(c, s1, pid, calls, 2);
      var s2 := Turned(c, s1, pid, calls);
      if s2.procs[pid].Finished? {
        DoneStays(c, s2, pid, calls, 1);
      } else {
        ClearStep(c, s2, pid, calls);
        OneTurn(c, s2, pid, calls, 1);
        DoneStays(c, Turned(c, s2, pid, calls), pid, calls, 0);
      }
    }
  }

  // ---- the guard ----

  /** The verdict cache holds only what the checker said. */
  ghost predicate VerdictsHonest(c: Checker, s: State) {
    forall url <- s.verdicts :: s.verdicts[url].verdict == VerdictOf(c, url)
  }

  lemma GateStep(c: Checker, s: State, pid: nat, url: string, next: AfterGate, calls: Calls)
    requires pid in s.procs && s.procs[pid] == Gating(url, next) && VerdictsHonest(c, s)
    ensures var s' := Turned(c, s, pid, calls);
            Moved(s, s', pid, Gated(url, next, VerdictOf(c, url))) || Moved(s, s', pid, Vetting(url, next))
  {
    hide ActResolve, ActCreate, ActUpdate, ActDelete, ActInvalidate, VerdictOf;
  }

  lemma VetStep(c: Checker, s: State, pid: nat, url: string, next: AfterGate, calls: Calls)
    requires pid in s.procs && s.procs[pid] == Vetting(url, next)
    ensures Moved(s, Turned(c, s, pid, calls), pid, Gated(url, next, VerdictOf(c, url)))
  {
    hide ActResolve, ActCreate, ActUpdate, ActDelete, ActInvalidate, VerdictOf;
  }

  /** Whether the verdict comes from the cache or fresh, a request leaves the guard with the checker's verdict. */
  lemma ThroughGate(c: Checker, s: State, pid: nat, url: string, next: AfterGate, calls: Calls, n: nat)
    returns (s': State, rest: nat)
    requires pid in s.procs && s.procs[pid] == Gating(url, next) && VerdictsHonest(c, s) && n >= 2 && !next.ToReport?
    ensures Driven(c, s, pid, calls, n) == Driven(c, s', pid, calls, rest)
    ensures Moved(s, s', pid, Gated(url, next, VerdictOf(c, url))) && rest >= n - 2
  {
    hide Turned, Driven, VerdictOf;
    GateStep(c, s, pid, url, next, calls);
    OneTurn(c, s, pid, calls, n);
    s', rest := Turned(c, s, pid, calls), n - 1;
    if s'.procs[pid] == Vetting(url, next) {
      VetStep(c, s', pid, url, next, calls);
      OneTurn(c, s', pid, calls, rest);
      s', rest := Turned(c, s', pid, calls), rest - 1;
    }
  }

  // ---- Create ----

  /** An attempt for which no slug could be generated fails. */
  function AttemptTurn(a: CodesService.Attempt): Turn {
    if a.slug.Some? then Turn(a.fault, a.id, a.slug.value) else Turn(Failed, a.id, "")
  }

  function CreateCalls(get: Fault, set_: Fault, attempts: seq<CodesService.Attempt>): Calls
    requires |attempts| == MAX_SLUG_ATTEMPTS
  {
    (p: Proc) =>
      match p
      case Creating(_, _, _) => Turn(attempts[0].fault, attempts[0].id, "")
      case Inserting(_, _, k) => if 1 <= k <= MAX_SLUG_ATTEMPTS then AttemptTurn(attempts[k - 1]) else Turn(Fine, 0, "")
      case Gating(_, _) => Turn(get, 0, "")
      case _ => Turn(set_, 0, "")
  }

  lemma InsertStep(c: Checker, s: State, pid: nat, draft: Draft, destination: string, k: nat, calls: Calls)
    requires pid in s.procs && s.procs[pid] == Inserting(draft, destination, k) && draft.kind == "url"
    requires calls(Inserting(draft, destination, k)).id !in s.db.issued
    ensures var t, s' := calls(Inserting(draft, destination, k)), Turned(c, s, pid, calls);
            && s'.redis == s.redis && pid in s'.procs
            && (if t.fault.Failed? then s'.db == s.db && s'.procs[pid] == Finished(false)
                else if t.slug in s.db.bySlug then
                  s'.db == s.db && s'.now == s.now
                  && s'.procs[pid] == (if k < MAX_SLUG_ATTEMPTS then Inserting(draft, destination, k + 1)
                                       else Finished(false))
                else
                  && s'.db == Apply(s.db, InsertDynamic(t.id, draft, t.slug, destination, s.now))
                  && s'.procs[pid] == Finished(t.fault.Fine?))
  {
    hide ActResolve, ActGate, ActUpdate, ActDelete, ActInvalidate, Apply;
  }

  /** The attempts from the k-th on. */
  lemma {:induction false} InsertRuns(c: Checker, s: State, pid: nat, draft: Draft, destination: string, k: nat,
                                      attempts: seq<CodesService.Attempt>, calls: Calls, n: nat)
    requires |attempts| == MAX_SLUG_ATTEMPTS && 1 <= k <= MAX_SLUG_ATTEMPTS && n > MAX_SLUG_ATTEMPTS - k
    requires pid in s.procs && s.procs[pid] == Inserting(draft, destination, k) && draft.kind == "url"
    requires forall a <- attempts :: a.id !in s.db.issued
    requires forall j :: 1 <= j <= MAX_SLUG_ATTEMPTS ==>
               calls(Inserting(draft, destination, j)) == AttemptTurn(attempts[j - 1])
    ensures var s', m := Driven(c, s, pid, calls, n), CodesService.Deciding(s.db, attempts, k - 1);
            && s'.redis == s.redis && pid in s'.procs
            && s'.db == CodesService.Stored(s.db, draft, destination, attempts, k - 1, s.now)
            && s'.procs[pid] == Finished(m < MAX_SLUG_ATTEMPTS && attempts[m].slug.Some? && attempts[m].fault.Fine?)
    decreases MAX_SLUG_ATTEMPTS - k
  {
    hide Turned, Driven, Apply;
    assert attempts[k - 1] in attempts;
    InsertStep(c, s, pid, draft, destination, k, calls);
    OneTurn(c, s, pid, calls, n);
    var s1 := Turned(c, s, pid, calls);
    if s1.procs[pid].Finished? {
      DoneStays(c, s1, pid, calls, n - 1);
    } else {
      InsertRuns(c, s1, pid, draft, destination, k + 1, attempts, calls, n - 1);
    }
  }

  lemma CreatingStep(c: Checker, s: State, pid: nat, draft: Draft, isDynamic: bool, payloadUrl: Option<string>,
                     calls: Calls)
    requires pid in s.procs && s.procs[pid] == Creating(draft, isDynamic, payloadUrl)
    requires calls(s.procs[pid]).id !in s.db.issued
    ensures var t, s' := calls(s.procs[pid]), Turned(c, s, pid, calls);
            && s'.redis == s.redis && s'.now == s.now && s'.verdicts == s.verdicts && pid in s'.procs
            && (if isDynamic then
                  s'.db == s.db
                  && s'.procs[pid] == (if draft.kind == "url" && payloadUrl.Some? && payloadUrl.value != ""
                                       then Gating(payloadUrl.value, ToInsert(draft)) else Finished(false))
                else
                  && s'.db == (if t.fault.Failed? then s.db else Apply(s.db, InsertStatic(t.id, draft, s.now)))
                  && s'.procs[pid] == Finished(t.fault.Fine? && KnownKind(draft.kind)))
  {
    hide ActResolve, ActGate, ActUpdate, ActDelete, ActInvalidate, Affects;
  }

  /** A dynamic Create from the guard on. */
  lemma GuardedRuns(c: Checker, s: State, pid: nat, draft: Draft, url: string, get: Fault, set_: Fault,
                    attempts: seq<CodesService.Attempt>, n: nat)
    requires VerdictsHonest(c, s) && |attempts| == MAX_SLUG_ATTEMPTS && n >= 7
    requires pid in s.procs && s.procs[pid] == Gating(url, ToInsert(draft)) && draft.kind == "url"
    requires forall a <- attempts :: a.id !in s.db.issued
    ensures var s', m := Driven(c, s, pid, CreateCalls(get, set_, attempts), n),
                         CodesService.Deciding(s.db, attempts, 0);
            && s'.redis == s.redis && pid in s'.procs
            && s'.db == (if VerdictOf(c, url).Malicious? then s.db
                         else CodesService.Stored(s.db, draft, url, attempts, 0, s.now))
            && s'.procs[pid] == Finished(!VerdictOf(c, url).Malicious? && m < MAX_SLUG_ATTEMPTS
                                         && attempts[m].slug.Some? && attempts[m].fault.Fine?)
  {
    hide Turned, Driven, Apply, VerdictOf, CodesService.Stored, CodesService.Deciding;
    var calls := CreateCalls(get, set_, attempts);
    var s1, rest := ThroughGate(c, s, pid, url, ToInsert(draft), calls, n);
    if s1.procs[pid].Finished? {
      DoneStays(c, s1, pid, calls, rest);
    } else {
      InsertRuns(c, s1, pid, draft, url, 1, attempts, calls, rest);
    }
  }

  /** An uninterrupted Create in the machine leaves the tables, and reports success, as the method Create does. */
  lemma {:induction false} CreateAlone(c: Checker, s: State, pid: nat, draft: Draft, isDynamic: bool,
                                       payloadUrl: Option<string>, get: Fault, set_: Fault,
                                       attempts: seq<CodesService.Attempt>)
    requires pid !in s.procs && VerdictsHonest(c, s) && |attempts| == MAX_SLUG_ATTEMPTS
    requires forall a <- attempts :: a.id !in s.db.issued
    ensures var s' := Uninterrupted(c, s, pid, Create(draft, isDynamic, payloadUrl),
                                    CreateCalls(get, set_, attempts), 8);
            && s'.db == CodesService.AfterCreate(c, s.db, draft, isDynamic, payloadUrl, attempts, s.now)
            && s'.redis == s.redis && pid in s'.procs
            && s'.procs[pid] == Finished(CodesService.Creates(c, s.db, draft, isDynamic, payloadUrl, attempts))
  {
    hide Step, Turned, Driven, Apply, VerdictOf, CodesService.Stored, CodesService.Deciding;
    var request, calls := Create(draft, isDynamic, payloadUrl), CreateCalls(get, set_, attempts);
    var s0 := Step(c, s, Start(pid, request));
    StartStep(c, s, pid, request);
    assert attempts[0] in attempts;
    CreatingStep(c, s0, pid, draft, isDynamic, payloadUrl, calls);
    OneTurn(c, s0, pid, calls, 8);
    var s1 := Turned(c, s0, pid, calls);
    if s1.procs[pid].Finished? {
      DoneStays(c, s1, pid, calls, 7);
    } else {
      GuardedRuns(c, s1, pid, draft, payloadUrl.value, get, set_, attempts, 7);
    }
  }

  // ---- Update ----

  function UpdateCalls(f: CodesService.UpdateFaults): Calls {
    (p: Proc) =>
      match p
      case Loading(_, _, _, _) => Turn(f.load, 0, "")
      case Gating(_, _) => Turn(f.get, 0, "")
      case Vetting(_, _) => Turn(f.set_, 0, "")
      case Retargeting(_, _, _, _, _) => Turn(f.write, 0, "")
      case Invalidating(_, _, _) => Turn(f.invalidate, 0, "")
      case Relabelling(_, _, _) => Turn(f.relabel, 0, "")
      case _ => Turn(f.reload, 0, "")
  }

  lemma LoadStep(c: Checker, s: State, pid: nat, user: Uuid, id: Uuid, caption: Option<string>,
                 destination: Option<string>, calls: Calls)
    requires pid in s.procs && s.procs[pid] == Loading(user, id, caption, destination) && Sound(s.db)
    ensures var s' := Turned(c, s, pid, calls);
            && s'.verdicts == s.verdicts
            && Moved(s, s', pid,
                     if !calls(s.procs[pid]).fault.Fine? || !Owned(s.db, user, id) then Finished(false)
                     else if destination.None? then Relabelling(user, id, caption)
                     else if id !in s.db.dynamics then Finished(false)
                     else Gating(destination.value, ToRetarget(user, id, caption, s.db.dynamics[id].slug)))
  {
    hide ActResolve, ActGate, ActCreate, ActDelete, ActInvalidate, Apply, Accepts;
  }

  lemma WriteStep(c: Checker, s: State, pid: nat, user: Uuid, id: Uuid, caption: Option<string>, slug: string,
                  destination: string, calls: Calls)
    requires pid in s.procs && s.procs[pid] == Retargeting(user, id, caption, slug, destination) && id in s.db.dynamics
    ensures var s', write := Turned(c, s, pid, calls), calls(s.procs[pid]).fault;
            && s'.redis == s.redis && s'.now == s.now && pid in s'.procs
            && s'.db == (if write.Failed? then s.db else Apply(s.db, UpdateDestination(id, destination, s.now)))
            && s'.procs[pid] == (if write.Fine? then Invalidating(slug, |s.hist|, ToRelabel(user, id, caption))
                                 else Finished(false))
  {
    hide ActResolve, ActGate, ActCreate, ActDelete, ActInvalidate, Apply;
  }

  lemma LabelStep(c: Checker, s: State, pid: nat, user: Uuid, id: Uuid, caption: Option<string>, calls: Calls)
    requires pid in s.procs && s.procs[pid] == Relabelling(user, id, caption) && Owned(s.db, user, id)
    ensures var s', relabel := Turned(c, s, pid, calls), calls(s.procs[pid]).fault;
            && s'.redis == s.redis && pid in s'.procs
            && s'.db == (if caption.Some? && !relabel.Failed?
                         then Apply(s.db, UpdateLabel(user, id, caption, s.now)) else s.db)
            && s'.procs[pid] == if caption.None? || relabel.Fine? then Reloading(user, id) else Finished(false)
  {
    hide ActResolve, ActGate, ActCreate, ActDelete, ActInvalidate, Apply;
  }

  lemma ReloadStep(c: Checker, s: State, pid: nat, user: Uuid, id: Uuid, calls: Calls)
    requires pid in s.procs && s.procs[pid] == Reloading(user, id)
    ensures Moved(s, Turned(c, s, pid, calls), pid, Finished(calls(s.procs[pid]).fault.Fine? && Owned(s.db, user, id)))
  {
    hide ActResolve, ActGate, ActCreate, ActDelete, ActInvalidate, Apply, Accepts;
  }

  lemma StillOwned(db: Db, user: Uuid, id: Uuid, w: Write)
    requires Owned(db, user, id) && (w.UpdateLabel? || w.UpdateDestination?)
    ensures Owned(Apply(db, w), user, id)
  {
  }

  /** The label half of Update and the reload behind it. */
  lemma LabelRuns(c: Checker, s: State, pid: nat, user: Uuid, id: Uuid, caption: Option<string>,
                  f: CodesService.UpdateFaults, n: nat)
    requires pid in s.procs && s.procs[pid] == Relabelling(user, id, caption) && Owned(s.db, user, id) && n >= 2
    ensures var s' := Driven(c, s, pid, UpdateCalls(f), n);
            && s'.redis == s.redis && pid in s'.procs
            && s'.db == (if caption.Some? && !f.relabel.Failed?
                         then Apply(s.db, UpdateLabel(user, id, caption, s.now)) else s.db)
            && s'.procs[pid] == Finished((caption.Some? ==> f.relabel.Fine?) && f.reload.Fine?)
  {
    hide Turned, Driven, Apply;
    var calls := UpdateCalls(f);
    LabelStep(c, s, pid, user, id, caption, calls);
    OneTurn(c, s, pid, calls, n);
    StillOwned(s.db, user, id, UpdateLabel(user, id, caption, s.now));
    var s1 := Turned(c, s, pid, calls);
    if s1.procs[pid].Finished? {
      DoneStays(c, s1, pid, calls, n - 1);
    } else {
      ReloadStep(c, s1, pid, user, id, calls);
      OneTurn(c, s1, pid, calls, n - 1);
      DoneStays(c, Turned(c, s1, pid, calls), pid, calls, n - 2);
    }
  }

  /** What a request that has passed the guard still does. */
  lemma WriteRuns(c: Checker, s: State, pid: nat, user: Uuid, id: Uuid, caption: Option<string>, destination: string,
                  f: CodesService.UpdateFaults, n: nat)
    requires Owned(s.db, user, id) && id in s.db.dynamics && n >= 4 && pid in s.procs
    requires s.procs[pid] == Retargeting(user, id, caption, s.db.dynamics[id].slug, destination)
    ensures var s' := Driven(c, s, pid, UpdateCalls(f), n);
            var moved := if f.write.Failed? then s.db else Apply(s.db, UpdateDestination(id, destination, s.now));
            && pid in s'.procs
            && s'.db == (if f.write.Fine? && caption.Some? && !f.relabel.Failed?
                         then Apply(moved, UpdateLabel(user, id, caption, s.now)) else moved)
            && s'.redis == (if f.write.Fine? && !f.invalidate.Failed? then s.redis - {s.db.dynamics[id].slug}
                            else s.redis)
            && s'.procs[pid] == Finished(f.write.Fine? && (caption.Some? ==> f.relabel.Fine?) && f.reload.Fine?)
  {
    hide Turned, Driven, Apply;
    var calls, slug := UpdateCalls(f), s.db.dynamics[id].slug;
    WriteStep(c, s, pid, user, id, caption, slug, destination, calls);
    OneTurn(c, s, pid, calls, n);
    StillOwned(s.db, user, id, UpdateDestination(id, destination, s.now));
    var s1 := Turned(c, s, pid, calls);
    if s1.procs[pid].Finished? {
      DoneStays(c, s1, pid, calls, n - 1);
    } else {
      ClearStep(c, s1, pid, calls);
      OneTurn(c, s1, pid, calls, n - 1);
      LabelRuns(c, Turned(c, s1, pid, calls), pid, user, id, caption, f, n - 2);
    }
  }

  /** An uninterrupted Update in the machine leaves tables and cache, and reports success, as the method Update does. */
  lemma {:induction false} UpdateAlone(c: Checker, s: State, pid: nat, user: Uuid, id: Uuid, caption: Option<string>,
                                       destination: Option<string>, f: CodesService.UpdateFaults)
    requires pid !in s.procs && VerdictsHonest(c, s) && Sound(s.db)
    ensures var s' := Uninterrupted(c, s, pid, Update(user, id, caption, destination), UpdateCalls(f), 7);
            var found := f.load.Fine? && Owned(s.db, user, id);
            && s'.db == (if found then CodesService.AfterChange(c, s.db, user, id, caption, destination, f, s.now)
                         else s.db)
            && s'.redis == (if found && destination.Some? && CodesService.Moves(c, s.db, id, destination, f.write)
                               && !f.invalidate.Failed?
                            then s.redis - {s.db.dynamics[id].slug} else s.redis)
            && pid in s'.procs
            && s'.procs[pid] == Finished(CodesService.Updates(c, s.db, user, id, caption, destination, f))
  {
    hide Step, Turned, Driven, Apply, Sound, VerdictOf;
    var request, calls := Update(user, id, caption, destination), UpdateCalls(f);
    var s0 := Step(c, s, Start(pid, request));
    StartStep(c, s, pid, request);
    LoadStep(c, s0, pid, user, id, caption, destination, calls);
    OneTurn(c, s0, pid, calls, 7);
    var s1 := Turned(c, s0, pid, calls);
    if s1.procs[pid].Finished? {
      DoneStays(c, s1, pid, calls, 6);
    } else if destination.None? {
      LabelRuns(c, s1, pid, user, id, caption, f, 6);
    } else {
      var next := ToRetarget(user, id, caption, s.db.dynamics[id].slug);
      var s2, rest := ThroughGate(c, s1, pid, destination.value, next, calls, 6);
      if s2.procs[pid].Finished? {
        DoneStays(c, s2, pid, calls, rest);
      } else {
        WriteRuns(c, s2, pid, user, id, caption, destination.value, f, rest);
      }
    }
  }
}
