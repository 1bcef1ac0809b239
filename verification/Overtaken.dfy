/**
 The cache is not coherent in general: a store that is overtaken by an invalidation, and an invalidation that is lost,
 each leave a stale entry behind after every request has finished. Both are shown as runs.
 */
module Overtaken {
  import opened Basics
  import opened Rfc3339
  import opened Cursor
  import opened Tables
  import opened Safety
  import opened Protocol
  import opened Isolation
  import opened Gating
  import opened Sequential
  import opened Progress
  import opened Alone
  import CodesService

  /** No store call fails, no request is cut off, no entry is dropped and no time passes. */
  predicate Untroubled(labels: seq<Label>) {
    forall l <- labels :: l.Start? || (l.Advance? && l.fault.Fine?)
  }

  /** Each call is acknowledged. */
  ghost predicate AllFine(calls: Calls) {
    forall p :: calls(p).fault.Fine?
  }

  lemma RunMore(c: Checker, t0: Instant, labels: seq<Label>, l: Label)
    ensures Run(c, t0, labels + [l]) == Step(c, Run(c, t0, labels), l)
  {
    assert (labels + [l])[..|labels|] == labels;
  }

  /** Uninterrupted steps are part of a run. */
  lemma {:induction false} DrivenRuns(c: Checker, t0: Instant, labels: seq<Label>, pid: nat, calls: Calls, n: nat)
    returns (more: seq<Label>)
    ensures Run(c, t0, labels + more) == Driven(c, Run(c, t0, labels), pid, calls, n)
    ensures AllFine(calls) ==> Untroubled(more)
    decreases n
  {
    hide Run, Step;
    var s := Run(c, t0, labels);
    if n == 0 || pid !in s.procs {
      more := [];
      assert labels + [] == labels;
    } else {
      var t := calls(s.procs[pid]);
      var l := Advance(pid, t.fault, t.id, t.slug);
      RunMore(c, t0, labels, l);
      var rest := DrivenRuns(c, t0, labels + [l], pid, calls, n - 1);
      more := [l] + rest;
      assert labels + more == labels + [l] + rest;
    }
  }

  /** Steps of one request leave the others alone. */
  lemma {:induction false} OthersWait(c: Checker, s: State, pid: nat, calls: Calls, n: nat, q: nat)
    requires q != pid && q in s.procs
    ensures var s' := Driven(c, s, pid, calls, n); q in s'.procs && s'.procs[q] == s.procs[q]
    decreases n
  {
    hide Step;
    if n > 0 && pid in s.procs {
      TurnSpares(c, s, pid, calls, q);
      OthersWait(c, Turned(c, s, pid, calls), pid, calls, n - 1, q);
    }
  }

  lemma TurnSpares(c: Checker, s: State, pid: nat, calls: Calls, q: nat)
    requires q != pid && q in s.procs && pid in s.procs
    ensures var s' := Turned(c, s, pid, calls); q in s'.procs && s'.procs[q] == s.procs[q]
  {
    hide Act;
    var t := calls(s.procs[pid]);
    ActCloser(c, s, pid, s.procs[pid], t.fault, t.id, t.slug);
  }

  /** Steps of a request start nobody. */
  lemma {:induction false} SameRequests(c: Checker, s: State, pid: nat, calls: Calls, n: nat)
    ensures Driven(c, s, pid, calls, n).procs.Keys == s.procs.Keys
    decreases n
  {
    hide Step;
    if n > 0 && pid in s.procs {
      TurnKeeps(c, s, pid, calls);
      SameRequests(c, Turned(c, s, pid, calls), pid, calls, n - 1);
    }
  }

  lemma TurnKeeps(c: Checker, s: State, pid: nat, calls: Calls)
    requires pid in s.procs
    ensures Turned(c, s, pid, calls).procs.Keys == s.procs.Keys
  {
    hide Act;
    var t := calls(s.procs[pid]);
    ActCloser(c, s, pid, s.procs[pid], t.fault, t.id, t.slug);
  }

  lemma StartAdds(c: Checker, s: State, pid: nat, request: Request)
    requires pid !in s.procs
    ensures Step(c, s, Start(pid, request)).procs.Keys == s.procs.Keys + {pid}
  {
  }

  lemma StartSpares(c: Checker, s: State, pid: nat, request: Request, q: nat)
    requires q != pid && q in s.procs
    ensures var s' := Step(c, s, Start(pid, request)); q in s'.procs && s'.procs[q] == s.procs[q]
  {
  }

  /** A redirect that misses reads the tables and is ready to store. */
  lemma Reads(c: Checker, s: State, r: nat, slug: string, calls: Calls)
    requires r in s.procs && s.procs[r] == Looking(slug) && slug !in s.redis && ResolveSlug(s.db, slug).Some?
    requires AllFine(calls)
    ensures var s' := Driven(c, s, r, calls, 2);
            && s'.db == s.db && s'.redis == s.redis && r in s'.procs && s'.procs[r].Storing?
            && s'.procs[r].slug == slug && s'.procs[r].target == ResolveSlug(s.db, slug).value
  {
    hide Turned, Driven, ResolveSlug;
    LookStep(c, s, r, slug, calls);
    OneTurn(c, s, r, calls, 2);
    var s1 := Turned(c, s, r, calls);
    QueryStep(c, s1, r, slug, calls);
    OneTurn(c, s1, r, calls, 1);
    DrivenNone(c, Turned(c, s1, r, calls), r, calls);
  }

  /** A redirect that starts and misses, appended to a run: it has read and is about to store. */
  lemma RedirectReads(c: Checker, t0: Instant, labels: seq<Label>, r: nat, slug: string) returns (more: seq<Label>)
    requires var s := Run(c, t0, labels); r !in s.procs && slug !in s.redis && ResolveSlug(s.db, slug).Some?
    ensures var s, s' := Run(c, t0, labels), Run(c, t0, labels + more);
            && s'.db == s.db && s'.redis == s.redis && s'.procs.Keys == s.procs.Keys + {r}
            && s'.procs[r].Storing? && s'.procs[r].slug == slug && s'.procs[r].target == ResolveSlug(s.db, slug).value
            && forall q <- s.procs :: s'.procs[q] == s.procs[q]
    ensures Untroubled(more)
  {
    hide Run, Step, Driven, ResolveSlug;
    var s, l, calls := Run(c, t0, labels), Start(r, Redirect(slug)), ResolveCalls(Fine, Fine, Fine);
    RunMore(c, t0, labels, l);
    StartStep(c, s, r, Redirect(slug));
    StartAdds(c, s, r, l.request);
    Reads(c, Step(c, s, l), r, slug, calls);
    SameRequests(c, Step(c, s, l), r, calls, 2);
    var rest := DrivenRuns(c, t0, labels + [l], r, calls, 2);
    more := [l] + rest;
    assert labels + more == labels + [l] + rest;
    forall q | q in s.procs ensures Run(c, t0, labels + more).procs[q] == s.procs[q] {
      StartSpares(c, s, r, l.request, q);
      OthersWait(c, Step(c, s, l), r, calls, 2, q);
    }
  }

  lemma DrivenNone(c: Checker, s: State, pid: nat, calls: Calls)
    ensures Driven(c, s, pid, calls, 0) == s
  {
  }

  lemma Stores(c: Checker, s: State, r: nat)
    requires r in s.procs && s.procs[r].Storing?
    ensures var s', p := Step(c, s, Advance(r, Fine, 0, "")), s.procs[r];
            && s'.db == s.db && p.slug in s'.redis && s'.redis[p.slug].target == p.target
            && s'.procs == s.procs[r := Resolved(p.slug, Found(p.target.destination), p.readAt)]
  {
    hide ActGate, ActCreate, ActUpdate, ActDelete, ActInvalidate;
  }

  const FINE := CodesService.UpdateFaults(Fine, Fine, Fine, Fine, Fine, Fine, Fine)

  /** user's dynamic code resolves under its slug, to something other than dest, which may be set. */
  ghost predicate Movable(c: Checker, db: Db, user: Uuid, id: Uuid, dest: string) {
    Owned(db, user, id) && id in db.dynamics && db.dynamics[id].destination != dest && !VerdictOf(c, dest).Malicious?
  }

  lemma MovableResolves(c: Checker, db: Db, user: Uuid, id: Uuid, dest: string, now: Instant)
    requires Sound(db) && Movable(c, db, user, id, dest)
    ensures var slug := db.dynamics[id].slug;
            && ResolveSlug(db, slug) == Some(Target(db.dynamics[id].destination, id))
            && ResolveSlug(Apply(db, UpdateDestination(id, dest, now)), slug) == Some(Target(dest, id))
  {
    hide Apply, VerdictOf;
    ResolveAfter(db, UpdateDestination(id, dest, now), db.dynamics[id].slug);
  }

  /** A whole Update of the destination, appended to a run. */
  lemma UpdateRuns(c: Checker, t0: Instant, labels: seq<Label>, u: nat, user: Uuid, id: Uuid, dest: string,
                   f: CodesService.UpdateFaults)
    returns (more: seq<Label>)
    requires Movable(c, Run(c, t0, labels).db, user, id, dest) && u !in Run(c, t0, labels).procs
    requires f == FINE || f == FINE.(invalidate := Failed)
    ensures var s, s' := Run(c, t0, labels), Run(c, t0, labels + more);
            && s'.db == Apply(s.db, UpdateDestination(id, dest, s.now))
            && s'.redis == (if f.invalidate.Failed? then s.redis else s.redis - {s.db.dynamics[id].slug})
            && s'.procs.Keys == s.procs.Keys + {u} && s'.procs[u] == Finished(true)
            && forall q <- s.procs :: s'.procs[q] == s.procs[q]
    ensures f == FINE ==> Untroubled(more)
  {
    hide Run, Step, Apply, Sound, Driven, VerdictOf, AllClean;
    var s := Run(c, t0, labels);
    var l, calls := Start(u, Update(user, id, None, Some(dest))), UpdateCalls(f);
    TablesSound(c, t0, labels);
    CacheHonest(c, t0, labels);
    UpdateAlone(c, s, u, user, id, None, Some(dest), f);
    RunMore(c, t0, labels, l);
    var rest := DrivenRuns(c, t0, labels + [l], u, calls, 7);
    more := [l] + rest;
    assert labels + more == labels + [l] + rest;
    StartAdds(c, s, u, l.request);
    SameRequests(c, Step(c, s, l), u, calls, 7);
    forall q | q in s.procs ensures Run(c, t0, labels + more).procs[q] == s.procs[q] {
      StartSpares(c, s, u, l.request, q);
      OthersWait(c, Step(c, s, l), u, calls, 7, q);
    }
  }

  lemma CacheHonest(c: Checker, t0: Instant, labels: seq<Label>)
    ensures VerdictsHonest(c, Run(c, t0, labels))
  {
    hide Run, Clean, VerdictOf;
    RunClean(c, t0, labels);
  }

  /** The slug's entry holds a destination that is no longer what the tables say. */
  ghost predicate Stale(s: State, slug: string, old_: string, dest: string, id: Uuid) {
    && slug in s.redis && s.redis[slug].target == Target(old_, id)
    && ResolveSlug(s.db, slug) == Some(Target(dest, id)) && old_ != dest
  }

  /**
   The overtaken store. Every run that has come to an uncached dynamic code can go on, with nothing failing and no time
   passing, so that one redirect and one update have both finished and the code's former destination is cached: nobody
   undoes a store that a Resolve makes after an Invalidate.
   */
  lemma {:induction false} OvertakenStoreStays(c: Checker, t0: Instant, labels: seq<Label>, r: nat, u: nat, user: Uuid,
                                               id: Uuid, dest: string)
    returns (more: seq<Label>)
    requires var s := Run(c, t0, labels);
             && Movable(c, s.db, user, id, dest) && s.db.dynamics[id].slug !in s.redis
             && r !in s.procs && u !in s.procs && r != u
    ensures var s, s' := Run(c, t0, labels), Run(c, t0, labels + more);
            && Untroubled(more)
            && s'.procs.Keys == s.procs.Keys + {r, u} && s'.procs[r].Resolved? && s'.procs[u] == Finished(true)
            && (forall q <- s.procs :: s'.procs[q] == s.procs[q])
            && Stale(s', s.db.dynamics[id].slug, s.db.dynamics[id].destination, dest, id)
  {
    hide Run, Step, Apply, Sound, ResolveSlug, VerdictOf;
    var s := Run(c, t0, labels);
    TablesSound(c, t0, labels);
    MovableResolves(c, s.db, user, id, dest, s.now);
    var reading := RedirectReads(c, t0, labels, r, s.db.dynamics[id].slug);
    var first := labels + reading;
    var updating := UpdateRuns(c, t0, first, u, user, id, dest, FINE);
    MovableResolves(c, s.db, user, id, dest, Run(c, t0, first).now);
    var last := Advance(r, Fine, 0, "");
    Stores(c, Run(c, t0, first + updating), r);
    RunMore(c, t0, first + updating, last);
    more := reading + updating + [last];
    assert labels + more == first + updating + [last];
  }

  /**
   The lost invalidation. Every run that has come to a dynamic code with an entry can go on with a single request, not
   overlapping anything and reporting success, that leaves the former destination cached: all it takes is that its
   Invalidate fails, which is only logged.
   */
  lemma {:induction false} LostInvalidationStays(c: Checker, t0: Instant, labels: seq<Label>, u: nat, user: Uuid,
                                                 id: Uuid, dest: string)
    returns (more: seq<Label>)
    requires var s := Run(c, t0, labels);
             && Movable(c, s.db, user, id, dest) && u !in s.procs && s.db.dynamics[id].slug in s.redis
             && s.redis[s.db.dynamics[id].slug].target == Target(s.db.dynamics[id].destination, id)
    ensures var s, s' := Run(c, t0, labels), Run(c, t0, labels + more);
            && s'.procs.Keys == s.procs.Keys + {u} && s'.procs[u] == Finished(true)
            && (forall q <- s.procs :: s'.procs[q] == s.procs[q])
            && Stale(s', s.db.dynamics[id].slug, s.db.dynamics[id].destination, dest, id)
  {
    hide Run, Apply, Sound, ResolveSlug, VerdictOf;
    var s := Run(c, t0, labels);
    TablesSound(c, t0, labels);
    MovableResolves(c, s.db, user, id, dest, s.now);
    more := UpdateRuns(c, t0, labels, u, user, id, dest, FINE.(invalidate := Failed));
  }

  /** A Create whose first slug is free, on the empty tables. */
  lemma FirstTables(c: Checker, draft: Draft, url: string, a: CodesService.Attempt, attempts: seq<CodesService.Attempt>,
                    now: Instant)
    requires url != "" && !VerdictOf(c, url).Malicious? && draft.kind == "url" && a.slug.Some? && a.fault.Fine?
    requires |attempts| == MAX_SLUG_ATTEMPTS && attempts[0] == a
    ensures CodesService.Creates(c, EMPTY, draft, true, Some(url), attempts)
    ensures var db := CodesService.AfterCreate(c, EMPTY, draft, true, Some(url), attempts, now);
            Owned(db, draft.user, a.id) && db.dynamics == map[a.id := DynamicRow(a.slug.value, url, now)]
  {
    hide VerdictOf;
  }

  /** One Create on the empty tables. */
  lemma FirstCode(c: Checker, t0: Instant, user: Uuid, id: Uuid, slug: string, url: string) returns (labels: seq<Label>)
    requires url != "" && !VerdictOf(c, url).Malicious?
    ensures var s := Run(c, t0, labels);
            && Owned(s.db, user, id) && id in s.db.dynamics && s.db.dynamics[id].destination == url
            && s.db.dynamics[id].slug == slug && s.redis == map[] && s.procs == map[0 := Finished(true)]
    ensures Untroubled(labels)
  {
    hide Run, Step, Driven, VerdictOf, CodesService.Creates, CodesService.AfterCreate, Owned;
    var draft, a := Draft(user, "url", "", None), CodesService.Attempt(Some(slug), id, Fine);
    var attempts := [a, a, a, a, a];
    var s, l, calls := Run(c, t0, []), Start(0, Create(draft, true, Some(url))), CreateCalls(Fine, Fine, attempts);
    RunStarts(c, t0);
    FirstTables(c, draft, url, a, attempts, t0);
    CreateAlone(c, s, 0, draft, true, Some(url), Fine, Fine, attempts);
    RunMore(c, t0, [], l);
    assert [] + [l] == [l];
    var rest := DrivenRuns(c, t0, [l], 0, calls, 8);
    labels := [l] + rest;
    StartAdds(c, s, 0, l.request);
    SameRequests(c, Step(c, s, l), 0, calls, 8);
  }

  lemma RunStarts(c: Checker, t0: Instant)
    ensures Run(c, t0, []) == Initial(t0)
  {
  }

  /**
   Whenever two destinations pass the checker, there is a run, without any fault, to a stale entry with every request
   over.
   */
  lemma {:induction false} StaleIsReachable(c: Checker, t0: Instant, user: Uuid, id: Uuid, slug: string, url: string,
                                            dest: string)
    returns (labels: seq<Label>)
    requires url != "" && url != dest && !VerdictOf(c, url).Malicious? && !VerdictOf(c, dest).Malicious?
    ensures Untroubled(labels) && Quiet(Run(c, t0, labels)) && Stale(Run(c, t0, labels), slug, url, dest, id)
  {
    hide Run, ResolveSlug, VerdictOf;
    var first := FirstCode(c, t0, user, id, slug, url);
    var more := OvertakenStoreStays(c, t0, first, 1, 2, user, id, dest);
    labels := first + more;
  }
}
