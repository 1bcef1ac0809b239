/** When the redirect cache agrees with the tables although requests overlap. */
module Coherence {
  import opened Basics
  import opened Rfc3339
  import opened Cursor
  import opened Tables
  import opened Safety
  import opened Protocol
  import opened History
  import opened Isolation
  import Staleness

  /**
   What one label must not do to a slug: lose its invalidation (the call fails, the request is cut off before it, or the
   write it belongs to is not acknowledged), or store a target that is no longer the slug's.
   */
  predicate Spares(s: State, l: Label, slug: string) {
    match l
    case Advance(pid, fault, id, drawn) =>
      pid in s.procs ==>
        var p := s.procs[pid];
        && (p.Invalidating? && p.slug == slug ==> !fault.Failed?)
        && (p.Retargeting? && p.slug == slug ==> !fault.Unreported?)
        && (p.Deleting? && p.known == Some(slug) ==> !fault.Unreported?)
        && (p.Storing? && p.slug == slug && !fault.Failed? ==> ResolveSlug(s.db, slug) == Some(p.target))
    case Abort(pid) => pid in s.procs ==> !(s.procs[pid].Invalidating? && s.procs[pid].slug == slug)
    case _ => true
  }

  /** A store is in order in particular when no write has changed the slug since its Resolve read the tables. */
  lemma UnchangedIsCurrent(s: State, pid: nat)
    requires Inv(s) && pid in s.procs && s.procs[pid].Storing?
    requires forall v :: s.procs[pid].version < v < |s.hist| ==> s.hist[v].slug != Some(s.procs[pid].slug)
    ensures ResolveSlug(s.db, s.procs[pid].slug) == Some(s.procs[pid].target)
  {
    hide ResolveSlug;
    RequestOk(s, pid);
    Staleness.Unchanged(s, s.procs[pid].slug, s.procs[pid].version, |s.hist| - 1);
  }

  ghost predicate Calm(c: Checker, t0: Instant, labels: seq<Label>, slug: string) {
    forall k :: 0 <= k < |labels| ==> Spares(Run(c, t0, labels[..k]), labels[k], slug)
  }

  /** A request is about to invalidate the slug's entry. */
  predicate Owed(s: State, slug: string) {
    exists pid <- s.procs :: s.procs[pid].Invalidating? && s.procs[pid].slug == slug
  }

  predicate AgreesOrOwed(s: State, slug: string) {
    slug in s.redis ==> ResolveSlug(s.db, slug) == Some(s.redis[slug].target) || Owed(s, slug)
  }

  /** pid moves on to p; nobody stops owing this slug its invalidation. */
  lemma OwedStays(s: State, s': State, pid: nat, p: Proc, slug: string)
    requires s'.procs == s.procs[pid := p]
    requires pid in s.procs ==> !(s.procs[pid].Invalidating? && s.procs[pid].slug == slug)
    ensures Owed(s, slug) ==> Owed(s', slug)
  {
    if Owed(s, slug) {
      var q :| q in s.procs && s.procs[q].Invalidating? && s.procs[q].slug == slug;
      assert q in s'.procs && s'.procs[q] == s.procs[q];
    }
  }

  /** The slug resolves as before, and its entry, if there still is one, is the one there was. */
  lemma StillAgrees(s: State, s': State, pid: nat, p: Proc, slug: string)
    requires AgreesOrOwed(s, slug) && s'.procs == s.procs[pid := p]
    requires pid in s.procs ==> !(s.procs[pid].Invalidating? && s.procs[pid].slug == slug)
    requires ResolveSlug(s'.db, slug) == ResolveSlug(s.db, slug)
    requires slug in s'.redis ==> slug in s.redis && s'.redis[slug].target == s.redis[slug].target
    ensures AgreesOrOwed(s', slug)
  {
    hide ResolveSlug;
    OwedStays(s, s', pid, p, slug);
  }

  /** A statement: if it changes the slug of a code that was there, its request goes on to invalidate that slug. */
  lemma WriteAgrees(s: State, s': State, pid: nat, p: Proc, w: Write, slug: string)
    requires AgreesOrOwed(s, slug) && Sound(s.db) && pid in s.procs && !s.procs[pid].Invalidating?
    requires s'.procs == s.procs[pid := p] && s'.redis == s.redis && s'.db == Apply(s.db, w)
    requires Affects(s.db, w) == Some(slug) && !w.InsertDynamic? ==> p.Invalidating? && p.slug == slug
    ensures AgreesOrOwed(s', slug)
  {
    hide Apply, Sound, ResolveSlug;
    ResolveAfter(s.db, w, slug);
    OwedStays(s, s', pid, p, slug);
    if Affects(s.db, w) == Some(slug) && !w.InsertDynamic? {
      assert s'.procs[pid] == p;
    }
  }

  lemma ResolveAgrees(s: State, pid: nat, p: Proc, fault: Fault, slug: string)
    requires AgreesOrOwed(s, slug) && pid in s.procs && s.procs[pid] == p && (p.Looking? || p.Querying? || p.Storing?)
    requires p.Storing? && p.slug == slug && !fault.Failed? ==> ResolveSlug(s.db, slug) == Some(p.target)
    ensures AgreesOrOwed(ActResolve(s, pid, p, fault), slug)
  {
    hide Owed;
    var s' := ActResolve(s, pid, p, fault);
    OwedStays(s, s', pid, s'.procs[pid], slug);
  }

  lemma GateAgrees(c: Checker, s: State, pid: nat, p: Proc, fault: Fault, slug: string)
    requires AgreesOrOwed(s, slug) && pid in s.procs && s.procs[pid] == p && (p.Gating? || p.Vetting?)
    ensures AgreesOrOwed(ActGate(c, s, pid, p, fault), slug)
  {
    hide AgreesOrOwed, VerdictOf;
    var s' := ActGate(c, s, pid, p, fault);
    StillAgrees(s, s', pid, s'.procs[pid], slug);
  }

  lemma CreateAgrees(s: State, pid: nat, p: Proc, fault: Fault, id: Uuid, drawn: string, slug: string)
    requires AgreesOrOwed(s, slug) && Sound(s.db)
    requires pid in s.procs && s.procs[pid] == p && (p.Creating? || p.Inserting?)
    ensures AgreesOrOwed(ActCreate(s, pid, p, fault, id, drawn), slug)
  {
    hide AgreesOrOwed, Apply, Accepts, Sound;
    var s' := ActCreate(s, pid, p, fault, id, drawn);
    if s'.hist == s.hist {
      StillAgrees(s, s', pid, s'.procs[pid], slug);
    } else if p.Creating? {
      WriteAgrees(s, s', pid, s'.procs[pid], InsertStatic(id, p.draft, s.now), slug);
    } else {
      WriteAgrees(s, s', pid, s'.procs[pid], InsertDynamic(id, p.draft, drawn, p.destination, s.now), slug);
    }
  }

  lemma RetargetAgrees(s: State, pid: nat, p: Proc, fault: Fault, slug: string)
    requires AgreesOrOwed(s, slug) && Sound(s.db) && pid in s.procs && s.procs[pid] == p && p.Retargeting?
    requires SlugFixed(s.db, p.id, Some(p.slug)) && (p.slug == slug ==> !fault.Unreported?)
    ensures AgreesOrOwed(ActUpdate(s, pid, p, fault), slug)
  {
    hide AgreesOrOwed, Apply, ResolveSlug;
    var s', w := ActUpdate(s, pid, p, fault), UpdateDestination(p.id, p.destination, s.now);
    if fault.Failed? || !Accepts(s.db, w) {
      StillAgrees(s, s', pid, s'.procs[pid], slug);
    } else {
      WriteAgrees(s, s', pid, s'.procs[pid], w, slug);
    }
  }

  lemma LabelAgrees(s: State, pid: nat, p: Proc, fault: Fault, slug: string)
    requires AgreesOrOwed(s, slug) && Sound(s.db) && pid in s.procs && s.procs[pid] == p
    requires p.Loading? || p.Relabelling? || p.Reloading?
    ensures AgreesOrOwed(ActUpdate(s, pid, p, fault), slug)
  {
    hide AgreesOrOwed, Apply, Accepts, Sound, ResolveSlug;
    var s' := ActUpdate(s, pid, p, fault);
    if s'.hist == s.hist {
      StillAgrees(s, s', pid, s'.procs[pid], slug);
    } else {
      WriteAgrees(s, s', pid, s'.procs[pid], UpdateLabel(p.user, p.id, p.caption, s.now), slug);
    }
  }

  lemma DeleteAgrees(s: State, pid: nat, p: Proc, fault: Fault, slug: string)
    requires AgreesOrOwed(s, slug) && Sound(s.db) && pid in s.procs && s.procs[pid] == p && (p.Finding? || p.Deleting?)
    requires p.Deleting? ==> SlugFixed(s.db, p.id, p.known) && (p.known == Some(slug) ==> !fault.Unreported?)
    ensures AgreesOrOwed(ActDelete(s, pid, p, fault), slug)
  {
    hide AgreesOrOwed, Apply, ResolveSlug, Sound;
    var s' := ActDelete(s, pid, p, fault);
    if s'.hist == s.hist {
      StillAgrees(s, s', pid, s'.procs[pid], slug);
    } else {
      WriteAgrees(s, s', pid, s'.procs[pid], DeleteCode(p.user, p.id), slug);
    }
  }

  lemma InvalidateAgrees(s: State, pid: nat, p: Proc, fault: Fault, slug: string)
    requires AgreesOrOwed(s, slug) && pid in s.procs && s.procs[pid] == p && p.Invalidating?
    requires p.slug == slug ==> !fault.Failed?
    ensures AgreesOrOwed(ActInvalidate(s, pid, p, fault), slug)
  {
    hide ResolveSlug, Owed;
    var s' := ActInvalidate(s, pid, p, fault);
    if p.slug != slug {
      OwedStays(s, s', pid, s'.procs[pid], slug);
    }
  }

  lemma ActAgrees(c: Checker, s: State, pid: nat, p: Proc, fault: Fault, id: Uuid, drawn: string, slug: string)
    requires AgreesOrOwed(s, slug) && Sound(s.db) && pid in s.procs && s.procs[pid] == p && ProcOk(s, pid, p)
    requires Spares(s, Advance(pid, fault, id, drawn), slug)
    ensures AgreesOrOwed(Act(c, s, pid, p, fault, id, drawn), slug)
  {
    hide AgreesOrOwed, ActResolve, ActGate, ActCreate, ActUpdate, ActDelete, ActInvalidate, Sound, ResolveSlug;
    match p
    case Looking(_) => ResolveAgrees(s, pid, p, fault, slug);
    case Querying(_) => ResolveAgrees(s, pid, p, fault, slug);
    case Storing(_, _, _, _) => ResolveAgrees(s, pid, p, fault, slug);
    case Gating(_, _) => GateAgrees(c, s, pid, p, fault, slug);
    case Vetting(_, _) => GateAgrees(c, s, pid, p, fault, slug);
    case Creating(_, _, _) => CreateAgrees(s, pid, p, fault, id, drawn, slug);
    case Inserting(_, _, _) => CreateAgrees(s, pid, p, fault, id, drawn, slug);
    case Loading(_, _, _, _) => LabelAgrees(s, pid, p, fault, slug);
    case Retargeting(_, _, _, _, _) => RetargetAgrees(s, pid, p, fault, slug);
    case Relabelling(_, _, _) => LabelAgrees(s, pid, p, fault, slug);
    case Reloading(_, _) => LabelAgrees(s, pid, p, fault, slug);
    case Finding(_, _) => DeleteAgrees(s, pid, p, fault, slug);
    case Deleting(_, _, _) => DeleteAgrees(s, pid, p, fault, slug);
    case Invalidating(_, _, _) => InvalidateAgrees(s, pid, p, fault, slug);
    case _ => assert Act(c, s, pid, p, fault, id, drawn) == s;
  }

  /** Tables and requests as they were, entries perhaps fewer. */
  lemma IdleAgrees(s: State, s': State, slug: string)
    requires AgreesOrOwed(s, slug) && s'.db == s.db && s'.procs == s.procs
    requires slug in s'.redis ==> slug in s.redis && s'.redis[slug] == s.redis[slug]
    ensures AgreesOrOwed(s', slug)
  {
    hide ResolveSlug;
  }

  lemma StepAgrees(c: Checker, s: State, l: Label, slug: string)
    requires AgreesOrOwed(s, slug) && Inv(s) && Sound(s.db) && Spares(s, l, slug)
    ensures AgreesOrOwed(Step(c, s, l), slug)
  {
    hide AgreesOrOwed, Act, Inv, Sound, ResolveSlug, ProcOk;
    var s' := Step(c, s, l);
    match l
    case Advance(pid, fault, id, drawn) =>
      if pid in s.procs {
        RequestOk(s, pid);
        ActAgrees(c, s, pid, s.procs[pid], fault, id, drawn, slug);
        IdleAgrees(Act(c, s, pid, s.procs[pid], fault, id, drawn), s', slug);
      } else {
        IdleAgrees(s, s', slug);
      }
    case Start(pid, request) =>
      if pid in s.procs {
        IdleAgrees(s, s', slug);
      } else {
        StillAgrees(s, s', pid, FirstStep(request), slug);
      }
    case Abort(pid) =>
      if s'.procs == s.procs {
        IdleAgrees(s, s', slug);
      } else {
        StillAgrees(s, s', pid, Aborted, slug);
      }
    case _ => IdleAgrees(s, s', slug);
  }

  /**
   Coherence under overlapping requests: in every run in which no invalidation of a slug is lost, and no Resolve stores
   a target that is no longer the slug's, its entry agrees with the tables whenever no invalidation of it is pending.
   */
  lemma {:induction false} CalmRunsAgree(c: Checker, t0: Instant, labels: seq<Label>, slug: string)
    requires Calm(c, t0, labels, slug)
    ensures AgreesOrOwed(Run(c, t0, labels), slug)
  {
    hide Step, Spares, AgreesOrOwed, Inv, Sound;
    if labels != [] {
      var n := |labels| - 1;
      var front := labels[..n];
      forall k | 0 <= k < n ensures Spares(Run(c, t0, front[..k]), front[k], slug) {
        assert front[..k] == labels[..k];
      }
      CalmRunsAgree(c, t0, front, slug);
      RunKeeps(c, t0, front);
      TablesSound(c, t0, front);
      StepAgrees(c, Run(c, t0, front), labels[n], slug);
    } else {
      NothingCached(c, t0, slug);
    }
  }

  lemma NothingCached(c: Checker, t0: Instant, slug: string)
    ensures AgreesOrOwed(Run(c, t0, []), slug)
  {
  }
}
