/** No run, however interleaved, serves a destination the checker calls malicious. */
module Gating {
  import opened Cursor
  import opened Rfc3339
  import opened Tables
  import opened Safety
  import opened Protocol

  ghost predicate Clean(c: Checker, url: string) {
    !VerdictOf(c, url).Malicious?
  }

  /** What a request carries towards the tables or the client has passed the checker. */
  ghost predicate Carries(c: Checker, p: Proc) {
    match p
    case Storing(_, t, _, _) => Clean(c, t.destination)
    case Resolved(_, answer, _) => answer.Found? ==> Clean(c, answer.destination)
    case Inserting(_, destination, _) => Clean(c, destination)
    case Retargeting(_, _, _, _, destination) => Clean(c, destination)
    case _ => true
  }

  ghost predicate CleanTables(c: Checker, db: Db) {
    forall id <- db.dynamics :: Clean(c, db.dynamics[id].destination)
  }

  ghost predicate AllClean(c: Checker, s: State) {
    && CleanTables(c, s.db)
    && (forall slug <- s.redis :: Clean(c, s.redis[slug].target.destination))
    && (forall url <- s.verdicts :: s.verdicts[url].verdict == VerdictOf(c, url))
    && (forall pid <- s.procs :: Carries(c, s.procs[pid]))
  }

  lemma WriteClean(c: Checker, db: Db, w: Write)
    requires CleanTables(c, db)
    requires w.InsertDynamic? || w.UpdateDestination? ==> Clean(c, w.destination)
    ensures CleanTables(c, Apply(db, w))
  {
  }

  lemma ResolveClean(c: Checker, s: State, pid: nat, p: Proc, fault: Fault)
    requires AllClean(c, s) && Carries(c, p) && (p.Looking? || p.Querying? || p.Storing?)
    ensures AllClean(c, ActResolve(s, pid, p, fault))
  {
  }

  lemma GateClean(c: Checker, s: State, pid: nat, p: Proc, fault: Fault)
    requires AllClean(c, s) && (p.Gating? || p.Vetting?)
    ensures AllClean(c, ActGate(c, s, pid, p, fault))
  {
  }

  lemma CreatingClean(c: Checker, s: State, pid: nat, p: Proc, fault: Fault, id: Uuid, slug: string)
    requires AllClean(c, s) && p.Creating?
    ensures AllClean(c, ActCreate(s, pid, p, fault, id, slug))
  {
    hide Apply, CleanTables, Clean, VerdictOf;
    WriteClean(c, s.db, InsertStatic(id, p.draft, s.now));
  }

  lemma InsertingClean(c: Checker, s: State, pid: nat, p: Proc, fault: Fault, id: Uuid, slug: string)
    requires AllClean(c, s) && Carries(c, p) && p.Inserting?
    ensures AllClean(c, ActCreate(s, pid, p, fault, id, slug))
  {
    hide Apply, CleanTables, Clean, VerdictOf;
    WriteClean(c, s.db, InsertDynamic(id, p.draft, slug, p.destination, s.now));
  }

  lemma RetargetClean(c: Checker, s: State, pid: nat, p: Proc, fault: Fault)
    requires AllClean(c, s) && Carries(c, p) && p.Retargeting?
    ensures AllClean(c, ActUpdate(s, pid, p, fault))
  {
    hide Apply, CleanTables, Clean, VerdictOf;
    WriteClean(c, s.db, UpdateDestination(p.id, p.destination, s.now));
  }

  lemma RelabelClean(c: Checker, s: State, pid: nat, p: Proc, fault: Fault)
    requires AllClean(c, s) && p.Relabelling?
    ensures AllClean(c, ActUpdate(s, pid, p, fault))
  {
    hide Apply, CleanTables, Clean, VerdictOf;
    WriteClean(c, s.db, UpdateLabel(p.user, p.id, p.caption, s.now));
  }

  lemma LoadClean(c: Checker, s: State, pid: nat, p: Proc, fault: Fault)
    requires AllClean(c, s) && (p.Loading? || p.Reloading?)
    ensures AllClean(c, ActUpdate(s, pid, p, fault))
  {
    hide Apply, CleanTables, Clean, VerdictOf;
  }

  lemma DeleteClean(c: Checker, s: State, pid: nat, p: Proc, fault: Fault)
    requires AllClean(c, s) && (p.Finding? || p.Deleting?)
    ensures AllClean(c, ActDelete(s, pid, p, fault))
  {
    hide Apply, CleanTables, Clean, VerdictOf;
    WriteClean(c, s.db, DeleteCode(p.user, p.id));
  }

  lemma InvalidateClean(c: Checker, s: State, pid: nat, p: Proc, fault: Fault)
    requires AllClean(c, s) && p.Invalidating?
    ensures AllClean(c, ActInvalidate(s, pid, p, fault))
  {
  }

  lemma ActClean(c: Checker, s: State, pid: nat, p: Proc, fault: Fault, id: Uuid, slug: string)
    requires AllClean(c, s) && Carries(c, p)
    ensures AllClean(c, Act(c, s, pid, p, fault, id, slug))
  {
    hide ActResolve, ActGate, ActCreate, ActUpdate, ActDelete, ActInvalidate, AllClean, Clean;
    match p
    case Looking(_) => ResolveClean(c, s, pid, p, fault);
    case Querying(_) => ResolveClean(c, s, pid, p, fault);
    case Storing(_, _, _, _) => ResolveClean(c, s, pid, p, fault);
    case Gating(_, _) => GateClean(c, s, pid, p, fault);
    case Vetting(_, _) => GateClean(c, s, pid, p, fault);
    case Creating(_, _, _) => CreatingClean(c, s, pid, p, fault, id, slug);
    case Inserting(_, _, _) => InsertingClean(c, s, pid, p, fault, id, slug);
    case Loading(_, _, _, _) => LoadClean(c, s, pid, p, fault);
    case Retargeting(_, _, _, _, _) => RetargetClean(c, s, pid, p, fault);
    case Relabelling(_, _, _) => RelabelClean(c, s, pid, p, fault);
    case Reloading(_, _) => LoadClean(c, s, pid, p, fault);
    case Finding(_, _) => DeleteClean(c, s, pid, p, fault);
    case Deleting(_, _, _) => DeleteClean(c, s, pid, p, fault);
    case Invalidating(_, _, _) => InvalidateClean(c, s, pid, p, fault);
    case _ => assert Act(c, s, pid, p, fault, id, slug) == s;
  }

  /** Steps that add nothing to the tables or the caches. */
  lemma StillClean(c: Checker, s: State, s': State)
    requires AllClean(c, s) && s'.db == s.db
    requires forall slug <- s'.redis :: slug in s.redis && s'.redis[slug] == s.redis[slug]
    requires forall url <- s'.verdicts :: url in s.verdicts && s'.verdicts[url] == s.verdicts[url]
    requires forall pid <- s'.procs :: (pid in s.procs && s'.procs[pid] == s.procs[pid]) || Carries(c, s'.procs[pid])
    ensures AllClean(c, s')
  {
  }

  lemma StepClean(c: Checker, s: State, l: Label)
    requires AllClean(c, s)
    ensures AllClean(c, Step(c, s, l))
  {
    hide Act, AllClean, Clean;
    match l
    case Advance(pid, fault, id, slug) =>
      if pid in s.procs {
        RequestCarries(c, s, pid);
        ActClean(c, s, pid, s.procs[pid], fault, id, slug);
        StillClean(c, Act(c, s, pid, s.procs[pid], fault, id, slug), Step(c, s, l));
      } else {
        StillClean(c, s, Step(c, s, l));
      }
    case Abort(pid) => CutClean(c, s, pid);
    case _ => StillClean(c, s, Step(c, s, l));
  }

  lemma CutClean(c: Checker, s: State, pid: nat)
    requires AllClean(c, s)
    ensures AllClean(c, Step(c, s, Abort(pid)))
  {
    hide AllClean, Clean, Cut;
    CutChanges(s, pid);
    StillClean(c, s, Step(c, s, Abort(pid)));
  }

  lemma CutChanges(s: State, pid: nat)
    ensures var s' := Cut(s, pid);
            && s'.db == s.db && s'.redis == s.redis && s'.verdicts == s.verdicts
            && (s'.procs == s.procs || s'.procs == s.procs[pid := Aborted])
  {
  }

  lemma RequestCarries(c: Checker, s: State, pid: nat)
    requires AllClean(c, s) && pid in s.procs
    ensures Carries(c, s.procs[pid])
  {
  }

  lemma {:induction false} RunClean(c: Checker, t0: Instant, labels: seq<Label>)
    ensures AllClean(c, Run(c, t0, labels))
  {
    if labels != [] {
      var front := labels[..|labels| - 1];
      RunClean(c, t0, front);
      StepClean(c, Run(c, t0, front), labels[|labels| - 1]);
    }
  }

  /**
   Gating, end to end: through verdict cache, guard, tables and redirect cache, whatever fails or overlaps, no redirect
   settles on a malicious destination, in the written-out sense, and none is ever stored.
   */
  lemma NothingMaliciousServed(c: Checker, t0: Instant, labels: seq<Label>, pid: nat, id: Uuid)
    ensures var s := Run(c, t0, labels);
            && (pid in s.procs && s.procs[pid].Resolved? && s.procs[pid].answer.Found? ==>
                  !MaliciousUrl(c, s.procs[pid].answer.destination))
            && (id in s.db.dynamics ==> !MaliciousUrl(c, s.db.dynamics[id].destination))
  {
    hide Run, VerdictOf, MaliciousUrl;
    RunClean(c, t0, labels);
    var s := Run(c, t0, labels);
    if pid in s.procs {
      assert Carries(c, s.procs[pid]);
      if s.procs[pid].Resolved? && s.procs[pid].answer.Found? {
        VerdictIs(c, s.procs[pid].answer.destination);
      }
    }
    if id in s.db.dynamics {
      VerdictIs(c, s.db.dynamics[id].destination);
    }
  }
}
