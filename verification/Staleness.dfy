/**
 What the redirect cache promises over every run: how old an answer can be, and exactly how a cached entry can come to
 disagree with the tables.
 */
module Staleness {
  import opened Basics
  import opened Rfc3339
  import opened Cursor
  import opened Tables
  import opened Safety
  import opened Protocol
  import opened History

  /** How long the target stored in this step had been in hand. */
  function StoreGap(s: State, l: Label): int {
    if l.Advance? && l.pid in s.procs && s.procs[l.pid].Storing? && !l.fault.Failed?
    then s.now - s.procs[l.pid].readAt else 0
  }

  /** Every Resolve that stores does so within d of its read. */
  ghost predicate StoresWithin(c: Checker, t0: Instant, labels: seq<Label>, d: int) {
    forall k :: 0 <= k < |labels| ==> StoreGap(Run(c, t0, labels[..k]), labels[k]) <= d
  }

  lemma StepGap(c: Checker, s: State, l: Label)
    ensures Step(c, s, l).worstGap <= Max(s.worstGap, StoreGap(s, l))
  {
  }

  lemma {:induction false} GapBound(c: Checker, t0: Instant, labels: seq<Label>, d: int)
    requires d >= 0 && StoresWithin(c, t0, labels, d)
    ensures Run(c, t0, labels).worstGap <= d
  {
    if labels != [] {
      var n := |labels| - 1;
      var front := labels[..n];
      forall k | 0 <= k < n ensures StoreGap(Run(c, t0, front[..k]), front[k]) <= d {
        assert front[..k] == labels[..k];
      }
      GapBound(c, t0, front, d);
      StepGap(c, Run(c, t0, front), labels[n]);
    }
  }

  lemma StepExtends(c: Checker, s: State, l: Label)
    ensures Extends(s.hist, Step(c, s, l).hist, s.now) && s.now <= Step(c, s, l).now
  {
    if l.Advance? && l.pid in s.procs {
      ActExtends(c, s, l.pid, s.procs[l.pid], l.fault, l.id, l.slug);
    }
  }

  lemma CommitExtends(s: State, w: Write, fate: Fate)
    ensures Extends(s.hist, Commit(s, w, fate).hist, s.now) && Commit(s, w, fate).now == s.now
    ensures |Commit(s, w, fate).hist| <= |s.hist| + 1
  {
  }

  lemma CreateExtends(s: State, pid: nat, p: Proc, fault: Fault, id: Uuid, slug: string)
    requires p.Creating? || p.Inserting?
    ensures Extends(s.hist, ActCreate(s, pid, p, fault, id, slug).hist, s.now)
    ensures ActCreate(s, pid, p, fault, id, slug).now == s.now
    ensures |ActCreate(s, pid, p, fault, id, slug).hist| <= |s.hist| + 1
  {
    CommitExtends(s, if p.Creating? then InsertStatic(id, p.draft, s.now)
                     else InsertDynamic(id, p.draft, slug, p.destination, s.now), NotNeeded);
  }

  lemma UpdateExtends(s: State, pid: nat, p: Proc, fault: Fault)
    requires p.Retargeting? || p.Relabelling?
    ensures Extends(s.hist, ActUpdate(s, pid, p, fault).hist, s.now)
    ensures ActUpdate(s, pid, p, fault).now == s.now
    ensures |ActUpdate(s, pid, p, fault).hist| <= |s.hist| + 1
  {
    if p.Retargeting? {
      CommitExtends(s, UpdateDestination(p.id, p.destination, s.now), Lost);
      CommitExtends(s, UpdateDestination(p.id, p.destination, s.now), Pending(pid));
    } else {
      CommitExtends(s, UpdateLabel(p.user, p.id, p.caption, s.now), NotNeeded);
    }
  }

  lemma DeleteExtends(s: State, pid: nat, p: Proc, fault: Fault)
    requires p.Deleting?
    ensures Extends(s.hist, ActDelete(s, pid, p, fault).hist, s.now)
    ensures ActDelete(s, pid, p, fault).now == s.now
    ensures |ActDelete(s, pid, p, fault).hist| <= |s.hist| + 1
  {
    CommitExtends(s, DeleteCode(p.user, p.id), Lost);
    CommitExtends(s, DeleteCode(p.user, p.id), Pending(pid));
  }

  lemma InvalidateExtends(s: State, pid: nat, p: Proc, fault: Fault)
    requires p.Invalidating?
    ensures Extends(s.hist, ActInvalidate(s, pid, p, fault).hist, s.now)
    ensures ActInvalidate(s, pid, p, fault).now == s.now
    ensures |ActInvalidate(s, pid, p, fault).hist| <= |s.hist| + 1
  {
  }

  lemma SameExtends(hist: seq<Version>, now: Instant)
    ensures Extends(hist, hist, now)
  {
  }

  lemma ActExtends(c: Checker, s: State, pid: nat, p: Proc, fault: Fault, id: Uuid, slug: string)
    ensures Extends(s.hist, Act(c, s, pid, p, fault, id, slug).hist, s.now)
    ensures Act(c, s, pid, p, fault, id, slug).now == s.now
    ensures |Act(c, s, pid, p, fault, id, slug).hist| <= |s.hist| + 1
  {
    hide Extends, Commit, SetFate;
    match p
    case Creating(_, _, _) => CreateExtends(s, pid, p, fault, id, slug);
    case Inserting(_, _, _) => CreateExtends(s, pid, p, fault, id, slug);
    case Retargeting(_, _, _, _, _) => UpdateExtends(s, pid, p, fault);
    case Relabelling(_, _, _) => UpdateExtends(s, pid, p, fault);
    case Deleting(_, _, _) => DeleteExtends(s, pid, p, fault);
    case Invalidating(_, _, _) => InvalidateExtends(s, pid, p, fault);
    case _ =>
      assert Act(c, s, pid, p, fault, id, slug).hist == s.hist;
      SameExtends(s.hist, s.now);
  }

  lemma ExtendsThrough(a: seq<Version>, b: seq<Version>, c: seq<Version>, t: Instant, u: Instant)
    requires Extends(a, b, t) && Extends(b, c, u) && t <= u
    ensures Extends(a, c, t)
  {
    forall i | 0 <= i < |a| ensures c[i].(fate := a[i].fate) == a[i] {
      assert b[i].(fate := a[i].fate) == a[i];
      assert c[i].(fate := b[i].fate) == b[i];
    }
    if |a| < |b| {
      assert c[|a|].(fate := b[|a|].fate) == b[|a|];
    }
  }

  lemma {:induction false} RunExtends(c: Checker, t0: Instant, labels: seq<Label>, k: nat)
    requires k <= |labels|
    ensures Extends(Run(c, t0, labels[..k]).hist, Run(c, t0, labels).hist, Run(c, t0, labels[..k]).now)
    ensures Run(c, t0, labels[..k]).now <= Run(c, t0, labels).now
  {
    if k == |labels| {
      assert labels[..k] == labels;
    } else {
      var front := labels[..|labels| - 1];
      assert front[..k] == labels[..k];
      RunExtends(c, t0, front, k);
      StepExtends(c, Run(c, t0, front), labels[|labels| - 1]);
      ExtendsThrough(Run(c, t0, labels[..k]).hist, Run(c, t0, front).hist, Run(c, t0, labels).hist,
                     Run(c, t0, labels[..k]).now, Run(c, t0, front).now);
    }
  }

  /** The record is the run's own past: what the tables held after any prefix is the version current at that moment. */
  lemma RecordIsPast(c: Checker, t0: Instant, labels: seq<Label>, k: nat)
    requires k <= |labels|
    ensures var past, s := Run(c, t0, labels[..k]), Run(c, t0, labels);
            exists v: nat :: CurrentAt(s.hist, v, past.now) && s.hist[v].db == past.db
  {
    RunKeeps(c, t0, labels[..k]);
    RunExtends(c, t0, labels, k);
    var past, s := Run(c, t0, labels[..k]), Run(c, t0, labels);
    var v := |past.hist| - 1;
    assert s.hist[v].(fate := past.hist[v].fate) == past.hist[v];
    assert CurrentAt(s.hist, v, past.now);
  }

  lemma OneVersionAtMost(c: Checker, s: State, l: Label)
    ensures |Step(c, s, l).hist| <= |s.hist| + 1
    ensures |Step(c, s, l).hist| > |s.hist| ==> Step(c, s, l).now == s.now
  {
    hide Act;
    if l.Advance? && l.pid in s.procs {
      ActExtends(c, s, l.pid, s.procs[l.pid], l.fault, l.id, l.slug);
    }
  }

  /** The state after the first k labels is the one that holds at time t. */
  ghost predicate InForce(c: Checker, t0: Instant, labels: seq<Label>, k: nat, t: Instant) {
    && k <= |labels|
    && Run(c, t0, labels[..k]).now <= t
    && (k < |labels| ==> t <= Run(c, t0, labels[..k + 1]).now)
  }

  lemma InForceLater(c: Checker, t0: Instant, front: seq<Label>, l: Label, k: nat, t: Instant)
    requires InForce(c, t0, front, k, t) && t <= Run(c, t0, front).now
    ensures InForce(c, t0, front + [l], k, t)
  {
    hide Step;
    var labels := front + [l];
    assert labels[..k] == front[..k];
    if k < |front| {
      assert labels[..k + 1] == front[..k + 1];
    } else {
      assert front[..k] == front && labels[..k + 1] == labels && labels[..|front|] == front;
      StepExtends(c, Run(c, t0, front), l);
    }
  }

  /** What one label does to the record. */
  lemma VersionBefore(c: Checker, t0: Instant, front: seq<Label>, l: Label, v: nat, t: Instant)
    requires CurrentAt(Run(c, t0, front + [l]).hist, v, t)
    ensures var s, s' := Run(c, t0, front), Run(c, t0, front + [l]);
            v < |s.hist| ==> CurrentAt(s.hist, v, t) && s.hist[v].db == s'.hist[v].db
    ensures var s, s' := Run(c, t0, front), Run(c, t0, front + [l]);
            v >= |s.hist| ==> v == |s'.hist| - 1 && s'.hist[v].at == s'.now
  {
    hide Step;
    var s, s' := Run(c, t0, front), Run(c, t0, front + [l]);
    assert (front + [l])[..|front|] == front;
    StepExtends(c, s, l);
    OneVersionAtMost(c, s, l);
    RunKeeps(c, t0, front + [l]);
    if v < |s.hist| {
      assert s'.hist[v].(fate := s.hist[v].fate) == s.hist[v];
      if v + 1 < |s.hist| {
        assert s'.hist[v + 1].(fate := s.hist[v + 1].fate) == s.hist[v + 1];
      }
    }
  }

  /** Every recorded version is the tables after some prefix of the run, in force whenever the version is current. */
  lemma {:induction false} VersionWasHeld(c: Checker, t0: Instant, labels: seq<Label>, v: nat, t: Instant)
    returns (k: nat)
    requires CurrentAt(Run(c, t0, labels).hist, v, t) && t <= Run(c, t0, labels).now
    ensures InForce(c, t0, labels, k, t) && Run(c, t0, labels[..k]).db == Run(c, t0, labels).hist[v].db
    decreases |labels|
  {
    hide Step;
    var s := Run(c, t0, labels);
    RunKeeps(c, t0, labels);
    if labels == [] {
      k := 0;
      assert labels[..0] == [];
    } else {
      var front, l := labels[..|labels| - 1], labels[|labels| - 1];
      var s0 := Run(c, t0, front);
      assert front + [l] == labels;
      VersionBefore(c, t0, front, l, v, t);
      RunKeeps(c, t0, front);
      if v >= |s0.hist| {
        k := |labels|;
        assert labels[..k] == labels;
      } else if t <= s0.now {
        k := VersionWasHeld(c, t0, front, v, t);
        InForceLater(c, t0, front, l, k, t);
        assert labels[..k] == front[..k];
      } else {
        k := |front|;
        assert labels[..k] == front && labels[..k + 1] == labels;
      }
    }
  }

  /** dest was the slug's destination in the run's own tables at some moment of [from, to]. */
  ghost predicate WasHeld(c: Checker, t0: Instant, labels: seq<Label>, slug: string, dest: string, from: Instant,
                          to: Instant)
  {
    exists k: nat, t :: from <= t <= to && InForce(c, t0, labels, k, t)
                        && ResolvedTo(Run(c, t0, labels[..k]).db, slug, dest)
  }

  predicate ResolvedTo(db: Db, slug: string, dest: string) {
    ResolveSlug(db, slug).Some? && ResolveSlug(db, slug).value.destination == dest
  }

  /**
   Bounded staleness over every interleaving, fault and expiry: a destination a Resolve settles on at time t was the
   slug's destination in the tables at some moment of [t - 1h - d, t].
   */
  lemma {:induction false} BoundedStaleness(c: Checker, t0: Instant, labels: seq<Label>, d: int, pid: nat)
    requires d >= 0 && StoresWithin(c, t0, labels, d)
    requires pid in Run(c, t0, labels).procs
    requires Run(c, t0, labels).procs[pid].Resolved? && Run(c, t0, labels).procs[pid].answer.Found?
    ensures var p := Run(c, t0, labels).procs[pid];
            WasHeld(c, t0, labels, p.slug, p.answer.destination, p.at - 3_600_000_000_000 - d, p.at)
  {
    hide Run, ReadFrom, StoresWithin;
    RunKeeps(c, t0, labels);
    GapBound(c, t0, labels, d);
    var s := Run(c, t0, labels);
    var p := s.procs[pid];
    RequestOk(s, pid);
    var v: nat, t, id :| p.at - REDIRECT_TTL - s.worstGap <= t <= p.at
                         && ReadFrom(s.hist, p.slug, Target(p.answer.destination, id), v, t);
    ReadTells(s.hist, p.slug, Target(p.answer.destination, id), v, t);
    var k := VersionWasHeld(c, t0, labels, v, t);
  }

  lemma ReadTells(hist: seq<Version>, slug: string, target: Target, v: nat, t: Instant)
    requires ReadFrom(hist, slug, target, v, t)
    ensures CurrentAt(hist, v, t) && ResolvedTo(hist[v].db, slug, target.destination)
  {
  }

  /** A Resolve that reports not found is right about the moment it looked. */
  lemma {:induction false} NotFoundWasTrue(c: Checker, t0: Instant, labels: seq<Label>, pid: nat) returns (k: nat)
    requires pid in Run(c, t0, labels).procs
    requires Run(c, t0, labels).procs[pid].Resolved? && Run(c, t0, labels).procs[pid].answer.NotFound?
    ensures var p := Run(c, t0, labels).procs[pid];
            InForce(c, t0, labels, k, p.at) && ResolveSlug(Run(c, t0, labels[..k]).db, p.slug).None?
  {
    hide Run;
    RunKeeps(c, t0, labels);
    var s := Run(c, t0, labels);
    var p := s.procs[pid];
    RequestOk(s, pid);
    var v: nat :| CurrentAt(s.hist, v, p.at) && ResolveSlug(s.hist[v].db, p.slug).None?;
    k := VersionWasHeld(c, t0, labels, v, p.at);
  }

  /** A slug that has been absent for 1h + d is reported as not found, unless the tables could not be read. */
  lemma {:induction false} AbsentIsNotFound(c: Checker, t0: Instant, labels: seq<Label>, d: int, pid: nat)
    requires d >= 0 && StoresWithin(c, t0, labels, d)
    requires pid in Run(c, t0, labels).procs && Run(c, t0, labels).procs[pid].Resolved?
    requires var p := Run(c, t0, labels).procs[pid];
             forall k: nat, t :: p.at - 3_600_000_000_000 - d <= t <= p.at && InForce(c, t0, labels, k, t)
                                 ==> ResolveSlug(Run(c, t0, labels[..k]).db, p.slug).None?
    ensures var p := Run(c, t0, labels).procs[pid]; p.answer == NotFound || p.answer == Unavailable
  {
    hide Run, StoresWithin;
    if Run(c, t0, labels).procs[pid].answer.Found? {
      BoundedStaleness(c, t0, labels, d, pid);
    }
  }

  /** The first version after `from` that changed the slug's target; |hist| if none did. */
  function FirstChange(hist: seq<Version>, slug: string, from: nat): (v: nat)
    requires from < |hist|
    ensures from < v <= |hist|
    ensures forall i :: from < i < v ==> hist[i].slug != Some(slug)
    ensures v < |hist| ==> hist[v].slug == Some(slug)
    decreases |hist| - from
  {
    if from + 1 == |hist| || hist[from + 1].slug == Some(slug) then from + 1 else FirstChange(hist, slug, from + 1)
  }

  /** A slug's target changes only in versions that say so. */
  lemma {:induction false} Unchanged(s: State, slug: string, first: nat, last: nat)
    requires Honest(s) && first <= last < |s.hist|
    requires forall i :: first < i <= last ==> s.hist[i].slug != Some(slug)
    ensures ResolveSlug(s.hist[last].db, slug) == ResolveSlug(s.hist[first].db, slug)
    decreases last
  {
    if first < last {
      Unchanged(s, slug, first, last - 1);
      SoundVersions(s, last - 1);
      assert Follows(s.hist, last);
      ResolveAfter(s.hist[last - 1].db, s.hist[last].write.value, slug);
    }
  }

  /** Version v came of an update or a delete whose invalidation is still to come, was lost, or came too early. */
  predicate Unpaid(s: State, slug: string, v: nat, storedStep: nat) {
    && v < |s.hist| && s.hist[v].write.Some?
    && (s.hist[v].write.value.UpdateDestination? || s.hist[v].write.value.DeleteCode?)
    && match s.hist[v].fate
       case NotNeeded => false
       case Pending(pid) =>
         pid in s.procs && s.procs[pid].Invalidating? && s.procs[pid].slug == slug && s.procs[pid].version == v
       case Lost => true
       case Cleared(step) => step < storedStep
  }

  /** A change of a slug that resolved before it was no creation, and its invalidation is accounted for. */
  lemma ChangeOwes(s: State, slug: string, v: nat)
    requires Inv(s) && 0 < v < |s.hist| && s.hist[v].slug == Some(slug)
    requires ResolveSlug(s.hist[v - 1].db, slug).Some?
    ensures s.hist[v].fate.Cleared? || Unpaid(s, slug, v, 0)
    ensures s.hist[v].write.Some?
    ensures s.hist[v].write.value.UpdateDestination? || s.hist[v].write.value.DeleteCode?
  {
    assert FateOk(s, v) && Follows(s.hist, v);
    WasNoCreation(s, slug, v);
    if s.hist[v].fate.Pending? {
      assert ProcOk(s, s.hist[v].fate.pid, s.procs[s.hist[v].fate.pid]);
    }
  }

  lemma WasNoCreation(s: State, slug: string, v: nat)
    requires Honest(s) && 0 < v < |s.hist| && s.hist[v].slug == Some(slug) && Follows(s.hist, v)
    requires ResolveSlug(s.hist[v - 1].db, slug).Some?
    ensures s.hist[v].write.value.UpdateDestination? || s.hist[v].write.value.DeleteCode?
  {
    SoundVersions(s, v - 1);
    ResolveAfter(s.hist[v - 1].db, s.hist[v].write.value, slug);
  }

  lemma ChangedSince(s: State, slug: string, e: Entry)
    requires Honest(s) && EntryOk(s, slug, e) && ResolveSlug(s.db, slug) != Some(e.target)
    ensures var v := FirstChange(s.hist, slug, e.stamp.version);
            v < |s.hist| && ResolveSlug(s.hist[v - 1].db, slug).Some?
  {
    var v := FirstChange(s.hist, slug, e.stamp.version);
    Unchanged(s, slug, e.stamp.version, v - 1);
  }

  lemma DisagreementIn(s: State, slug: string)
    requires Inv(s) && slug in s.redis && ResolveSlug(s.db, slug) != Some(s.redis[slug].target)
    ensures var stamp := s.redis[slug].stamp;
            stamp.version < |s.hist| && Unpaid(s, slug, FirstChange(s.hist, slug, stamp.version), stamp.step)
  {
    var e := s.redis[slug];
    ChangedSince(s, slug, e);
    ChangeOwes(s, slug, FirstChange(s.hist, slug, e.stamp.version));
  }

  /**
   The exact account of disagreement: when an entry differs from the tables, then for the first change after the read
   that produced it, the writer's invalidation is still pending, was lost, or was carried out before the entry was
   stored. That first change is never a creation, also when the slug was deleted and created again.
   */
  lemma {:induction false} ExactDisagreement(c: Checker, t0: Instant, labels: seq<Label>, slug: string)
    requires slug in Run(c, t0, labels).redis
    requires var s := Run(c, t0, labels); ResolveSlug(s.db, slug) != Some(s.redis[slug].target)
    ensures var s := Run(c, t0, labels); var stamp := s.redis[slug].stamp;
            stamp.version < |s.hist| && Unpaid(s, slug, FirstChange(s.hist, slug, stamp.version), stamp.step)
  {
    RunKeeps(c, t0, labels);
    DisagreementIn(Run(c, t0, labels), slug);
  }

  /** No store of the slug was overtaken: none put back a target read before a change whose invalidation it missed. */
  predicate NotOvertaken(s: State, slug: string) {
    slug in s.redis ==>
      forall v :: s.redis[slug].stamp.version < v < |s.hist| && s.hist[v].slug == Some(slug)
                  ==> !s.hist[v].fate.Cleared? || s.hist[v].fate.step > s.redis[slug].stamp.step
  }

  /** Once every owed invalidation of a slug has been carried out and no store was overtaken, cache and tables agree. */
  lemma QuiescentCoherence(c: Checker, t0: Instant, labels: seq<Label>, slug: string)
    requires slug in Run(c, t0, labels).redis && NotOvertaken(Run(c, t0, labels), slug)
    requires var s := Run(c, t0, labels);
             forall v :: 0 <= v < |s.hist| && s.hist[v].slug == Some(slug)
                         ==> !s.hist[v].fate.Pending? && !s.hist[v].fate.Lost?
    ensures var s := Run(c, t0, labels); ResolveSlug(s.db, slug) == Some(s.redis[slug].target)
  {
    var s := Run(c, t0, labels);
    if ResolveSlug(s.db, slug) != Some(s.redis[slug].target) {
      ExactDisagreement(c, t0, labels, slug);
    }
  }

  /** No store call fails and no request is cut off. */
  predicate FaultFree(labels: seq<Label>) {
    forall l <- labels :: !l.Abort? && (l.Advance? ==> l.fault.Fine?)
  }

  ghost predicate NothingLost(s: State) {
    forall v :: 0 <= v < |s.hist| && s.hist[v].slug.Some? ==> !s.hist[v].fate.Lost?
  }

  /** One more version, or one fate decided; not by losing an invalidation. */
  lemma StillNothingLost(s: State, s': State, v: Version, n: nat, fate: Fate)
    requires NothingLost(s) && !fate.Lost?
    requires s'.hist == s.hist || s'.hist == SetFate(s, n, fate).hist
             || (s'.hist == s.hist + [v] && (v.slug.Some? ==> !v.fate.Lost?))
    ensures NothingLost(s')
  {
  }

  lemma FineCreateLosesNothing(s: State, pid: nat, p: Proc, id: Uuid, slug: string)
    requires NothingLost(s) && (p.Creating? || p.Inserting?)
    ensures NothingLost(ActCreate(s, pid, p, Fine, id, slug))
  {
    hide NothingLost, Apply, Accepts;
    var s' := ActCreate(s, pid, p, Fine, id, slug);
    StillNothingLost(s, s', if |s'.hist| > 0 then s'.hist[|s'.hist| - 1] else Version(s.db, 0, None, None, NotNeeded),
                     0, NotNeeded);
  }

  lemma FineUpdateLosesNothing(s: State, pid: nat, p: Proc)
    requires NothingLost(s) && (p.Retargeting? || p.Relabelling?)
    ensures NothingLost(ActUpdate(s, pid, p, Fine))
  {
    hide NothingLost, Apply, Accepts;
    var s' := ActUpdate(s, pid, p, Fine);
    StillNothingLost(s, s', if |s'.hist| > 0 then s'.hist[|s'.hist| - 1] else Version(s.db, 0, None, None, NotNeeded),
                     0, NotNeeded);
  }

  lemma FineDeleteLosesNothing(s: State, pid: nat, p: Proc)
    requires Honest(s) && NothingLost(s) && p.Deleting? && SlugFixed(s.db, p.id, p.known)
    ensures NothingLost(ActDelete(s, pid, p, Fine))
  {
    hide NothingLost, Apply;
    var s' := ActDelete(s, pid, p, Fine);
    StillNothingLost(s, s', if |s'.hist| > 0 then s'.hist[|s'.hist| - 1] else Version(s.db, 0, None, None, NotNeeded),
                     0, NotNeeded);
  }

  lemma FineActLosesNothing(c: Checker, s: State, pid: nat, p: Proc, id: Uuid, slug: string)
    requires Inv(s) && NothingLost(s) && pid in s.procs && s.procs[pid] == p
    ensures NothingLost(Act(c, s, pid, p, Fine, id, slug))
  {
    hide Inv, Honest, NothingLost, Apply, Accepts;
    RequestOk(s, pid);
    match p
    case Creating(_, _, _) => FineCreateLosesNothing(s, pid, p, id, slug);
    case Inserting(_, _, _) => FineCreateLosesNothing(s, pid, p, id, slug);
    case Retargeting(_, _, _, _, _) => FineUpdateLosesNothing(s, pid, p);
    case Relabelling(_, _, _) => FineUpdateLosesNothing(s, pid, p);
    case Deleting(_, _, _) => FineDeleteLosesNothing(s, pid, p);
    case Invalidating(_, v, _) =>
      StillNothingLost(s, Act(c, s, pid, p, Fine, id, slug), s.hist[v].(fate := NotNeeded), v, Cleared(s.steps));
    case _ =>
      assert Act(c, s, pid, p, Fine, id, slug).hist == s.hist;
      StillNothingLost(s, Act(c, s, pid, p, Fine, id, slug), Version(s.db, 0, None, None, NotNeeded), 0, NotNeeded);
  }

  lemma FineStepLosesNothing(c: Checker, s: State, l: Label)
    requires Inv(s) && NothingLost(s) && !l.Abort? && (l.Advance? ==> l.fault.Fine?)
    ensures NothingLost(Step(c, s, l))
  {
    hide Inv, Act;
    if l.Advance? && l.pid in s.procs {
      FineActLosesNothing(c, s, l.pid, s.procs[l.pid], l.id, l.slug);
    }
  }

  /** Updates and deletes do invalidate: without faults every change of an existing slug is pending or cleared. */
  lemma {:induction false} FaultFreeLosesNothing(c: Checker, t0: Instant, labels: seq<Label>)
    requires FaultFree(labels)
    ensures NothingLost(Run(c, t0, labels))
  {
    if labels != [] {
      var front := labels[..|labels| - 1];
      FaultFreeLosesNothing(c, t0, front);
      RunKeeps(c, t0, front);
      FineStepLosesNothing(c, Run(c, t0, front), labels[|labels| - 1]);
    }
  }

  /** A completed invalidation really removes the entry. */
  lemma InvalidationClears(c: Checker, s: State, pid: nat, fault: Fault, id: Uuid, slug: string)
    requires Inv(s) && pid in s.procs && s.procs[pid].Invalidating? && !fault.Failed?
    ensures var p := s.procs[pid]; var s' := Step(c, s, Advance(pid, fault, id, slug));
            p.slug !in s'.redis && s'.hist[p.version].fate == Cleared(s.steps)
  {
    assert ProcOk(s, pid, s.procs[pid]);
  }
}
