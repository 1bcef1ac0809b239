/** Requests that do not overlap: the cache is then invisible, whatever lookups, stores and expiries do. */
module Sequential {
  import opened Basics
  import opened Rfc3339
  import opened Cursor
  import opened Tables
  import opened Safety
  import opened Protocol
  import opened History

  predicate Active(p: Proc) {
    !p.Resolved? && !p.Finished? && !p.Aborted?
  }

  predicate Quiet(s: State) {
    forall pid <- s.procs :: !Active(s.procs[pid])
  }

  /** A request starts only when none is under way, and a write that takes effect goes on to invalidate with effect. */
  predicate InTurn(s: State, l: Label) {
    match l
    case Start(pid, _) => pid in s.procs || Quiet(s)
    case Advance(pid, fault, _, _) =>
      pid in s.procs ==>
        && (s.procs[pid].Invalidating? ==> !fault.Failed?)
        && (s.procs[pid].Retargeting? || s.procs[pid].Deleting? ==> !fault.Unreported?)
    case Abort(pid) => pid in s.procs ==> !s.procs[pid].Invalidating?
    case _ => true
  }

  ghost predicate Orderly(c: Checker, t0: Instant, labels: seq<Label>) {
    forall k :: 0 <= k < |labels| ==> InTurn(Run(c, t0, labels[..k]), labels[k])
  }

  predicate OneAtATime(s: State) {
    forall p, q :: p in s.procs && q in s.procs && Active(s.procs[p]) && Active(s.procs[q]) ==> p == q
  }

  /** The slug whose entry is about to be invalidated, if the request under way is at that point. */
  predicate BeingInvalidated(s: State, slug: string) {
    exists pid <- s.procs :: s.procs[pid].Invalidating? && s.procs[pid].slug == slug
  }

  /** Entries agree with the tables, except the one the request under way will invalidate next. */
  predicate Coherent(s: State) {
    forall slug <- s.redis ::
      ResolveSlug(s.db, slug) == Some(s.redis[slug].target) || BeingInvalidated(s, slug)
  }

  predicate StoresCurrent(s: State) {
    forall pid <- s.procs :: s.procs[pid].Storing? ==>
      ResolveSlug(s.db, s.procs[pid].slug) == Some(s.procs[pid].target)
  }

  predicate InStep(s: State) {
    OneAtATime(s) && Coherent(s) && StoresCurrent(s)
  }

  /** What ResolveSlug would have said. */
  predicate Exact(db: Db, slug: string, answer: Answer) {
    match answer
    case Found(dest) => ResolveSlug(db, slug).Some? && ResolveSlug(db, slug).value.destination == dest
    case NotFound => ResolveSlug(db, slug).None?
    case Unavailable => true
  }

  /** While a request that is not invalidating is under way, or none is, every entry agrees with the tables. */
  lemma AllAgree(s: State, pid: nat)
    requires InStep(s)
    requires Quiet(s) || (pid in s.procs && Active(s.procs[pid]) && !s.procs[pid].Invalidating?)
    ensures forall slug <- s.redis :: ResolveSlug(s.db, slug) == Some(s.redis[slug].target)
  {
  }

  /** The only request under way moves on; tables and cache stay put or lose entries, or gain a current one. */
  lemma MoveInStep(s: State, s': State, pid: nat, p: Proc)
    requires InStep(s) && pid in s.procs && Active(s.procs[pid]) && !s.procs[pid].Invalidating?
    requires s'.procs == s.procs[pid := p] && s'.db == s.db
    requires p.Storing? ==> ResolveSlug(s.db, p.slug) == Some(p.target)
    requires forall slug <- s'.redis :: (slug in s.redis && s'.redis[slug] == s.redis[slug])
                                        || ResolveSlug(s.db, slug) == Some(s'.redis[slug].target)
    ensures InStep(s')
  {
    AllAgree(s, pid);
  }

  /** The only request under way changes the tables; if that changes a cached slug, it goes on to invalidate it. */
  lemma WriteInStep(s: State, s': State, pid: nat, w: Write, p: Proc)
    requires Honest(s) && InStep(s) && pid in s.procs && Active(s.procs[pid]) && !s.procs[pid].Invalidating?
    requires s'.procs == s.procs[pid := p] && s'.redis == s.redis && s'.db == Apply(s.db, w)
    requires !p.Storing?
    requires Affects(s.db, w).None? || w.InsertDynamic? || (p.Invalidating? && Affects(s.db, w) == Some(p.slug))
    ensures InStep(s')
  {
    AllAgree(s, pid);
    forall slug | slug in s'.redis && ResolveSlug(s'.db, slug) != Some(s'.redis[slug].target)
      ensures BeingInvalidated(s', slug)
    {
      SoundVersions(s, |s.hist| - 1);
      ResolveAfter(s.db, w, slug);
      assert s'.procs[pid] == p;
    }
  }

  /** The pending invalidation happens. */
  lemma InvalidateInStep(s: State, s': State, pid: nat, p: Proc)
    requires InStep(s) && pid in s.procs && s.procs[pid].Invalidating? && !p.Storing?
    requires s'.procs == s.procs[pid := p] && s'.db == s.db && s'.redis == s.redis - {s.procs[pid].slug}
    ensures InStep(s')
  {
  }

  /** A step by which a request settles gives ResolveSlug's answer, or reports that the tables could not be read. */
  lemma ResolveInTurn(s: State, pid: nat, p: Proc, fault: Fault)
    requires InStep(s) && pid in s.procs && s.procs[pid] == p && (p.Looking? || p.Querying? || p.Storing?)
    ensures InStep(ActResolve(s, pid, p, fault))
    ensures var p' := ActResolve(s, pid, p, fault).procs[pid];
            p'.Resolved? ==> p'.slug == p.slug && Exact(s.db, p.slug, p'.answer)
                             && (p'.answer.Unavailable? ==> p.Querying? && !fault.Fine?)
  {
    var s' := ActResolve(s, pid, p, fault);
    AllAgree(s, pid);
    MoveInStep(s, s', pid, s'.procs[pid]);
  }

  lemma CreatingInTurn(s: State, pid: nat, p: Proc, fault: Fault, id: Uuid, slug: string)
    requires Honest(s) && InStep(s) && pid in s.procs && s.procs[pid] == p && (p.Creating? || p.Inserting?)
    ensures InStep(ActCreate(s, pid, p, fault, id, slug))
  {
    hide InStep, Honest, Apply, ResolveSlug;
    var s' := ActCreate(s, pid, p, fault, id, slug);
    if s'.hist == s.hist {
      MoveInStep(s, s', pid, s'.procs[pid]);
    } else if p.Creating? {
      WriteInStep(s, s', pid, InsertStatic(id, p.draft, s.now), s'.procs[pid]);
    } else {
      WriteInStep(s, s', pid, InsertDynamic(id, p.draft, slug, p.destination, s.now), s'.procs[pid]);
    }
  }

  lemma RetargetInTurn(s: State, pid: nat, p: Proc, fault: Fault)
    requires Inv(s) && InStep(s) && pid in s.procs && s.procs[pid] == p && p.Retargeting? && !fault.Unreported?
    ensures InStep(ActUpdate(s, pid, p, fault))
  {
    var s' := ActUpdate(s, pid, p, fault);
    var w := UpdateDestination(p.id, p.destination, s.now);
    assert ProcOk(s, pid, p);
    DynamicIsCode(s);
    if fault.Failed? || !Accepts(s.db, w) {
      MoveInStep(s, s', pid, s'.procs[pid]);
    } else {
      WriteInStep(s, s', pid, w, s'.procs[pid]);
    }
  }

  lemma RelabelInTurn(s: State, pid: nat, p: Proc, fault: Fault)
    requires Honest(s) && InStep(s) && pid in s.procs && s.procs[pid] == p && p.Relabelling?
    ensures InStep(ActUpdate(s, pid, p, fault))
  {
    var s' := ActUpdate(s, pid, p, fault);
    var w := UpdateLabel(p.user, p.id, p.caption, s.now);
    if p.caption.None? || fault.Failed? || !Accepts(s.db, w) {
      MoveInStep(s, s', pid, s'.procs[pid]);
    } else {
      WriteInStep(s, s', pid, w, s'.procs[pid]);
    }
  }

  lemma DeleteInTurn(s: State, pid: nat, p: Proc, fault: Fault)
    requires Inv(s) && InStep(s) && pid in s.procs && s.procs[pid] == p && p.Deleting? && !fault.Unreported?
    ensures InStep(ActDelete(s, pid, p, fault))
  {
    var s' := ActDelete(s, pid, p, fault);
    var w := DeleteCode(p.user, p.id);
    assert ProcOk(s, pid, p);
    if fault.Failed? || !Accepts(s.db, w) {
      MoveInStep(s, s', pid, s'.procs[pid]);
    } else {
      WriteInStep(s, s', pid, w, s'.procs[pid]);
    }
  }

  lemma InvalidateInTurn(s: State, pid: nat, p: Proc, fault: Fault)
    requires InStep(s) && pid in s.procs && s.procs[pid] == p && p.Invalidating? && !fault.Failed?
    ensures InStep(ActInvalidate(s, pid, p, fault))
  {
    var s' := ActInvalidate(s, pid, p, fault);
    InvalidateInStep(s, s', pid, s'.procs[pid]);
  }

  /** Steps that only read: the guard, and loading a code. */
  lemma ReadInTurn(c: Checker, s: State, pid: nat, p: Proc, fault: Fault, id: Uuid, slug: string)
    requires InStep(s) && pid in s.procs && s.procs[pid] == p
    requires p.Gating? || p.Vetting? || p.Loading? || p.Reloading? || p.Finding?
    ensures InStep(Act(c, s, pid, p, fault, id, slug))
  {
    hide InStep, ResolveSlug;
    var s' := Act(c, s, pid, p, fault, id, slug);
    assert s'.db == s.db && s'.redis == s.redis && !s'.procs[pid].Storing?;
    MoveInStep(s, s', pid, s'.procs[pid]);
  }

  lemma ActInTurn(c: Checker, s: State, pid: nat, p: Proc, fault: Fault, id: Uuid, slug: string)
    requires Inv(s) && InStep(s) && pid in s.procs && s.procs[pid] == p
    requires InTurn(s, Advance(pid, fault, id, slug))
    ensures InStep(Act(c, s, pid, p, fault, id, slug))
  {
    match p
    case Looking(_) => ResolveInTurn(s, pid, p, fault);
    case Querying(_) => ResolveInTurn(s, pid, p, fault);
    case Storing(_, _, _, _) => ResolveInTurn(s, pid, p, fault);
    case Creating(_, _, _) => CreatingInTurn(s, pid, p, fault, id, slug);
    case Inserting(_, _, _) => CreatingInTurn(s, pid, p, fault, id, slug);
    case Retargeting(_, _, _, _, _) => RetargetInTurn(s, pid, p, fault);
    case Relabelling(_, _, _) => RelabelInTurn(s, pid, p, fault);
    case Deleting(_, _, _) => DeleteInTurn(s, pid, p, fault);
    case Invalidating(_, _, _) => InvalidateInTurn(s, pid, p, fault);
    case Resolved(_, _, _) => assert Act(c, s, pid, p, fault, id, slug) == s;
    case Finished(_) => assert Act(c, s, pid, p, fault, id, slug) == s;
    case Aborted => assert Act(c, s, pid, p, fault, id, slug) == s;
    case _ => ReadInTurn(c, s, pid, p, fault, id, slug);
  }

  lemma StartInTurn(c: Checker, s: State, pid: nat, request: Request)
    requires InStep(s) && Quiet(s) && pid !in s.procs
    ensures InStep(Step(c, s, Start(pid, request)))
  {
    AllAgree(s, pid);
  }

  lemma AdvanceInTurn(c: Checker, s: State, pid: nat, fault: Fault, id: Uuid, slug: string)
    requires Inv(s) && InStep(s) && InTurn(s, Advance(pid, fault, id, slug)) && pid in s.procs
    ensures InStep(Step(c, s, Advance(pid, fault, id, slug)))
  {
    ActInTurn(c, s, pid, s.procs[pid], fault, id, slug);
    Recount(Act(c, s, pid, s.procs[pid], fault, id, slug), Step(c, s, Advance(pid, fault, id, slug)));
  }

  lemma AbortInTurn(c: Checker, s: State, pid: nat)
    requires InStep(s) && InTurn(s, Abort(pid))
    ensures InStep(Step(c, s, Abort(pid)))
  {
    var s' := Step(c, s, Abort(pid));
    if s'.procs == s.procs {
      Recount(s, s');
    } else {
      MoveInStep(s, s', pid, Aborted);
    }
  }

  lemma StepInTurn(c: Checker, s: State, l: Label)
    requires Inv(s) && InStep(s) && InTurn(s, l)
    ensures InStep(Step(c, s, l))
  {
    var s' := Step(c, s, l);
    match l
    case Start(pid, request) =>
      if pid in s.procs {
        Recount(s, s');
      } else {
        StartInTurn(c, s, pid, request);
      }
    case Advance(pid, fault, id, slug) =>
      if pid in s.procs {
        AdvanceInTurn(c, s, pid, fault, id, slug);
      } else {
        Recount(s, s');
      }
    case Abort(pid) => AbortInTurn(c, s, pid);
    case _ => Recount(s, s');
  }

  /** The step counter, the clock and vanishing entries do not matter here. */
  lemma Recount(s: State, s': State)
    requires InStep(s) && s'.procs == s.procs && s'.db == s.db
    requires forall slug <- s'.redis :: slug in s.redis && s'.redis[slug] == s.redis[slug]
    ensures InStep(s')
  {
    forall slug | slug in s'.redis && BeingInvalidated(s, slug) ensures BeingInvalidated(s', slug) {}
  }

  lemma {:induction false} OrderlyRuns(c: Checker, t0: Instant, labels: seq<Label>)
    requires Orderly(c, t0, labels)
    ensures InStep(Run(c, t0, labels))
  {
    if labels != [] {
      var n := |labels| - 1;
      var front := labels[..n];
      forall k | 0 <= k < n ensures InTurn(Run(c, t0, front[..k]), front[k]) {
        assert front[..k] == labels[..k];
      }
      OrderlyRuns(c, t0, front);
      RunKeeps(c, t0, front);
      StepInTurn(c, Run(c, t0, front), labels[n]);
    }
  }

  /**
   Sequential refinement: when requests do not overlap and invalidations succeed, each Resolve settles on exactly what
   ResolveSlug returns at that moment, not-found included, while lookups and stores fail arbitrarily and entries
   vanish at any time.
   */
  lemma {:induction false} SequentialRefinement(c: Checker, t0: Instant, labels: seq<Label>, pid: nat, fault: Fault,
                                                id: Uuid, slug: string)
    requires Orderly(c, t0, labels)
    requires var s := Run(c, t0, labels);
             && pid in s.procs && !s.procs[pid].Resolved?
             && Act(c, s, pid, s.procs[pid], fault, id, slug).procs[pid].Resolved?
    ensures var s := Run(c, t0, labels); var p' := Act(c, s, pid, s.procs[pid], fault, id, slug).procs[pid];
            Exact(s.db, p'.slug, p'.answer) && (p'.answer.Unavailable? ==> !fault.Fine?)
  {
    OrderlyRuns(c, t0, labels);
    SettlesExactly(c, Run(c, t0, labels), pid, fault, id, slug);
  }

  lemma SettlesExactly(c: Checker, s: State, pid: nat, fault: Fault, id: Uuid, slug: string)
    requires InStep(s) && pid in s.procs && !s.procs[pid].Resolved?
    requires Act(c, s, pid, s.procs[pid], fault, id, slug).procs[pid].Resolved?
    ensures var p' := Act(c, s, pid, s.procs[pid], fault, id, slug).procs[pid];
            Exact(s.db, p'.slug, p'.answer) && (p'.answer.Unavailable? ==> !fault.Fine?)
  {
    hide InStep, ResolveSlug, Exact;
    OnlyResolvesSettle(c, s, pid, s.procs[pid], fault, id, slug);
    ResolveInTurn(s, pid, s.procs[pid], fault);
  }

  lemma OnlyResolvesSettle(c: Checker, s: State, pid: nat, p: Proc, fault: Fault, id: Uuid, slug: string)
    requires pid in s.procs && s.procs[pid] == p && !p.Resolved?
    requires Act(c, s, pid, p, fault, id, slug).procs[pid].Resolved?
    ensures p.Looking? || p.Querying? || p.Storing?
  {
  }
}
