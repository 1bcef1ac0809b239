/** What every reachable state keeps: an honest record of the tables, and where each cached target came from. */
module History {
  import opened Basics
  import opened Rfc3339
  import opened Cursor
  import opened Tables
  import opened Safety
  import opened Protocol

  /** Version i of the tables follows from version i - 1 by its statement. */
  predicate Follows(hist: seq<Version>, i: nat)
    requires 0 < i < |hist|
  {
    && hist[i].write.Some? && UrlWhenDynamic(hist[i].write.value)
    && hist[i - 1].at <= hist[i].at
    && hist[i].db == Apply(hist[i - 1].db, hist[i].write.value)
    && hist[i].slug == Affects(hist[i - 1].db, hist[i].write.value)
  }

  /** The versions form the true past of the tables. */
  ghost predicate Honest(s: State) {
    && |s.hist| > 0
    && s.hist[0].slug.None? && s.hist[0].db == EMPTY
    && s.hist[|s.hist| - 1].db == s.db
    && (forall i :: 0 <= i < |s.hist| ==> s.hist[i].at <= s.now)
    && (forall i :: 0 < i < |s.hist| ==> Follows(s.hist, i))
  }

  /** Every version of the tables was sound. */
  lemma {:induction false} SoundVersions(s: State, i: nat)
    requires Honest(s) && i < |s.hist|
    ensures Sound(s.hist[i].db)
  {
    if i > 0 {
      SoundVersions(s, i - 1);
      assert Follows(s.hist, i);
      ApplySound(s.hist[i - 1].db, s.hist[i].write.value);
    }
  }

  /** Version v was what the tables held at time t. */
  predicate CurrentAt(hist: seq<Version>, v: nat, t: Instant) {
    v < |hist| && hist[v].at <= t && (v + 1 < |hist| ==> t <= hist[v + 1].at)
  }

  /** The target was read from version v of the tables at time t. */
  predicate ReadFrom(hist: seq<Version>, slug: string, target: Target, v: nat, t: Instant) {
    CurrentAt(hist, v, t) && ResolveSlug(hist[v].db, slug) == Some(target)
  }

  /** An entry's stamp tells where it came from, and no completed invalidation of a later write has seen it. */
  ghost predicate EntryOk(s: State, slug: string, e: Entry) {
    && ReadFrom(s.hist, slug, e.target, e.stamp.version, e.stamp.readAt)
    && e.stamp.readAt <= e.stamp.storedAt <= s.now
    && e.stamp.storedAt - e.stamp.readAt <= s.worstGap
    && e.expires == e.stamp.storedAt + REDIRECT_TTL
    && e.stamp.step < s.steps
    && forall v :: e.stamp.version < v < |s.hist| && s.hist[v].slug == Some(slug) && s.hist[v].fate.Cleared?
                   ==> s.hist[v].fate.step < e.stamp.step
  }

  /** dest was the slug's destination in the tables at some moment of [from, to]. */
  ghost predicate WasDestination(hist: seq<Version>, slug: string, dest: string, from: Instant, to: Instant) {
    exists v: nat, t, id :: from <= t <= to && ReadFrom(hist, slug, Target(dest, id), v, t)
  }

  /** A settled redirect tells the truth about a moment not too long ago. */
  ghost predicate AnswerOk(s: State, slug: string, answer: Answer, at: Instant) {
    && at <= s.now
    && (answer.Found? ==>
          WasDestination(s.hist, slug, answer.destination, at - REDIRECT_TTL - s.worstGap, at))
    && (answer.NotFound? ==>
          exists v: nat :: CurrentAt(s.hist, v, at) && ResolveSlug(s.hist[v].db, slug).None?)
  }

  /** A code keeps the slug it was created with, or keeps having none, for as long as it exists. */
  predicate SlugFixed(db: Db, id: Uuid, slug: Option<string>) {
    && id in db.issued
    && (id in db.codes ==> slug == if id in db.dynamics then Some(db.dynamics[id].slug) else None)
  }

  predicate NextOk(db: Db, next: AfterGate) {
    match next
    case ToInsert(draft) => draft.kind == "url"
    case ToRetarget(_, id, _, slug) => SlugFixed(db, id, Some(slug))
    case ToReport => true
  }

  ghost predicate ProcOk(s: State, pid: nat, p: Proc) {
    match p
    case Storing(slug, t, v, readAt) => ReadFrom(s.hist, slug, t, v, readAt) && readAt <= s.now
    case Resolved(slug, answer, at) => AnswerOk(s, slug, answer, at)
    case Gating(_, next) => NextOk(s.db, next)
    case Vetting(_, next) => NextOk(s.db, next)
    case Inserting(draft, _, attempt) => draft.kind == "url" && 1 <= attempt <= MAX_SLUG_ATTEMPTS
    case Retargeting(_, id, _, slug, _) => SlugFixed(s.db, id, Some(slug))
    case Deleting(_, id, known) => SlugFixed(s.db, id, known)
    case Invalidating(slug, v, _) =>
      v < |s.hist| && s.hist[v].slug == Some(slug) && s.hist[v].fate == Pending(pid)
    case _ => true
  }

  /** Every write that changed an existing slug's target waits to invalidate, has done so, or has lost its chance. */
  predicate FateOk(s: State, v: nat)
    requires 0 < v < |s.hist|
  {
    && s.hist[v].write.Some?
    && (s.hist[v].slug.Some? && !s.hist[v].write.value.InsertDynamic? ==> !s.hist[v].fate.NotNeeded?)
    && (s.hist[v].fate.Pending? ==>
          && s.hist[v].fate.pid in s.procs
          && s.procs[s.hist[v].fate.pid].Invalidating?
          && s.procs[s.hist[v].fate.pid].version == v)
    && (s.hist[v].fate.Cleared? ==> s.hist[v].fate.step < s.steps)
  }

  ghost predicate Inv(s: State) {
    && Honest(s)
    && s.worstGap >= 0
    && (forall slug <- s.redis :: EntryOk(s, slug, s.redis[slug]))
    && (forall pid <- s.procs :: ProcOk(s, pid, s.procs[pid]))
    && (forall v :: 0 < v < |s.hist| ==> FateOk(s, v))
  }

  /** hist' is hist with a later version perhaps added and fates perhaps decided. */
  ghost predicate Extends(hist: seq<Version>, hist': seq<Version>, now: Instant) {
    && |hist| <= |hist'|
    && (forall i :: 0 <= i < |hist| ==> hist'[i].(fate := hist[i].fate) == hist[i])
    && (|hist| < |hist'| ==> now <= hist'[|hist|].at)
  }

  lemma ReadKept(hist: seq<Version>, hist': seq<Version>, now: Instant, slug: string, target: Target, v: nat,
                 t: Instant)
    requires Extends(hist, hist', now) && ReadFrom(hist, slug, target, v, t) && t <= now
    ensures ReadFrom(hist', slug, target, v, t)
  {
    assert hist'[v].(fate := hist[v].fate) == hist[v];
    if v + 1 < |hist| {
      assert hist'[v + 1].(fate := hist[v + 1].fate) == hist[v + 1];
    }
  }

  lemma AnswerKept(s: State, s': State, slug: string, answer: Answer, at: Instant)
    requires AnswerOk(s, slug, answer, at)
    requires Extends(s.hist, s'.hist, s.now) && s.now <= s'.now && s.worstGap <= s'.worstGap
    ensures AnswerOk(s', slug, answer, at)
  {
    if answer.Found? {
      var v: nat, t, id :| at - REDIRECT_TTL - s.worstGap <= t <= at
                           && ReadFrom(s.hist, slug, Target(answer.destination, id), v, t);
      ReadKept(s.hist, s'.hist, s.now, slug, Target(answer.destination, id), v, t);
    } else if answer.NotFound? {
      var v: nat :| CurrentAt(s.hist, v, at) && ResolveSlug(s.hist[v].db, slug).None?;
      assert s'.hist[v].(fate := s.hist[v].fate) == s.hist[v];
      assert CurrentAt(s'.hist, v, at) by {
        if v + 1 < |s.hist| {
          assert s'.hist[v + 1].(fate := s.hist[v + 1].fate) == s.hist[v + 1];
        }
      }
    }
  }

  /** Later statements never give a code a different slug. */
  lemma SlugStaysFixed(db: Db, w: Write, id: Uuid, slug: Option<string>)
    requires SlugFixed(db, id, slug)
    ensures SlugFixed(Apply(db, w), id, slug)
  {
  }

  /** A waiting request stays in order across any step of another one. */
  lemma ProcKept(s: State, s': State, pid: nat, p: Proc, w: Option<Write>)
    requires Honest(s) && ProcOk(s, pid, p)
    requires Extends(s.hist, s'.hist, s.now) && s.now <= s'.now && s.worstGap <= s'.worstGap
    requires s'.db == if w.Some? then Apply(s.db, w.value) else s.db
    requires p.Invalidating? ==> s'.hist[p.version].fate == s.hist[p.version].fate
    ensures ProcOk(s', pid, p)
  {
    hide Apply, ResolveSlug;
    match p
    case Storing(slug, t, v, readAt) => ReadKept(s.hist, s'.hist, s.now, slug, t, v, readAt);
    case Resolved(slug, answer, at) => AnswerKept(s, s', slug, answer, at);
    case Invalidating(slug, v, _) => assert s'.hist[v].(fate := s.hist[v].fate) == s.hist[v];
    case Gating(_, next) => NextKept(s.db, w, next);
    case Vetting(_, next) => NextKept(s.db, w, next);
    case Retargeting(_, id, _, slug, _) => if w.Some? { SlugStaysFixed(s.db, w.value, id, Some(slug)); }
    case Deleting(_, id, known) => if w.Some? { SlugStaysFixed(s.db, w.value, id, known); }
    case _ =>
  }

  lemma NextKept(db: Db, w: Option<Write>, next: AfterGate)
    requires NextOk(db, next)
    ensures NextOk(if w.Some? then Apply(db, w.value) else db, next)
  {
    hide Apply, SlugFixed;
    if next.ToRetarget? && w.Some? {
      SlugStaysFixed(db, w.value, next.id, Some(next.slug));
    }
  }

  lemma EntryKept(s: State, s': State, slug: string, e: Entry)
    requires EntryOk(s, slug, e)
    requires Extends(s.hist, s'.hist, s.now) && s.now <= s'.now && s.worstGap <= s'.worstGap && s.steps <= s'.steps
    requires forall v :: 0 <= v < |s'.hist| && s'.hist[v].slug == Some(slug) && s'.hist[v].fate.Cleared?
                         ==> v < |s.hist| && s.hist[v].fate == s'.hist[v].fate
    ensures EntryOk(s', slug, e)
  {
    ReadKept(s.hist, s'.hist, s.now, slug, e.target, e.stamp.version, e.stamp.readAt);
    forall v | e.stamp.version < v < |s'.hist| && s'.hist[v].slug == Some(slug) && s'.hist[v].fate.Cleared?
      ensures s'.hist[v].fate.step < e.stamp.step
    {
      assert s'.hist[v].(fate := s.hist[v].fate) == s.hist[v];
    }
  }

  /** One request moving on, with the tables and their record untouched. */
  lemma GotoKeeps(s: State, s': State, pid: nat, p: Proc)
    requires Inv(s) && s'.procs == s.procs[pid := p]
    requires s'.db == s.db && s'.hist == s.hist && s.now == s'.now
    requires s.worstGap <= s'.worstGap && s.steps < s'.steps
    requires pid in s.procs ==> !s.procs[pid].Invalidating?
    requires ProcOk(s', pid, p)
    requires forall slug <- s'.redis :: (slug in s.redis && s'.redis[slug] == s.redis[slug])
                                        || EntryOk(s', slug, s'.redis[slug])
    ensures Inv(s')
  {
    forall slug | slug in s'.redis ensures EntryOk(s', slug, s'.redis[slug]) {
      if slug in s.redis && s'.redis[slug] == s.redis[slug] {
        EntryKept(s, s', slug, s.redis[slug]);
      }
    }
    forall q | q in s'.procs ensures ProcOk(s', q, s'.procs[q]) {
      if q != pid {
        ProcKept(s, s', q, s.procs[q], None);
      }
    }
    forall v | 0 < v < |s'.hist| ensures FateOk(s', v) {
      assert FateOk(s, v);
    }
  }

  /** s' is s with one more version, written by w. */
  ghost predicate Wrote(s: State, s': State, w: Write, fate: Fate) {
    && s'.now == s.now && s'.redis == s.redis && s'.worstGap == s.worstGap && s.steps < s'.steps
    && s'.db == Apply(s.db, w)
    && s'.hist == s.hist + [Version(s'.db, s.now, Some(w), Affects(s.db, w), fate)]
  }

  lemma WriteHonest(s: State, s': State, w: Write, fate: Fate)
    requires Honest(s) && UrlWhenDynamic(w) && Wrote(s, s', w, fate)
    ensures Honest(s') && Extends(s.hist, s'.hist, s.now)
  {
    forall i | 0 < i < |s'.hist| ensures Follows(s'.hist, i) {
      if i < |s.hist| {
        assert Follows(s.hist, i);
      }
    }
  }

  lemma WriteEntries(s: State, s': State, w: Write, fate: Fate)
    requires Inv(s) && Wrote(s, s', w, fate) && Extends(s.hist, s'.hist, s.now) && !fate.Cleared?
    ensures forall slug <- s'.redis :: EntryOk(s', slug, s'.redis[slug])
  {
    forall slug | slug in s'.redis ensures EntryOk(s', slug, s'.redis[slug]) {
      EntryKept(s, s', slug, s.redis[slug]);
    }
  }

  lemma WriteProcs(s: State, s': State, pid: nat, w: Write, fate: Fate, p: Proc)
    requires Inv(s) && Wrote(s, s', w, fate) && Extends(s.hist, s'.hist, s.now)
    requires s'.procs == s.procs[pid := p] && ProcOk(s', pid, p)
    ensures forall q <- s'.procs :: ProcOk(s', q, s'.procs[q])
  {
    forall q | q in s'.procs ensures ProcOk(s', q, s'.procs[q]) {
      if q != pid {
        ProcKept(s, s', q, s.procs[q], Some(w));
      }
    }
  }

  lemma WriteFates(s: State, s': State, pid: nat, w: Write, fate: Fate, p: Proc)
    requires Inv(s) && Wrote(s, s', w, fate) && s'.procs == s.procs[pid := p]
    requires pid in s.procs && !s.procs[pid].Invalidating?
    requires !fate.Cleared?
    requires Affects(s.db, w).Some? && !w.InsertDynamic? ==> !fate.NotNeeded?
    requires fate.Pending? ==> fate.pid == pid && p.Invalidating? && p.version == |s.hist|
    ensures forall v :: 0 < v < |s'.hist| ==> FateOk(s', v)
  {
    forall v | 0 < v < |s'.hist| ensures FateOk(s', v) {
      if v < |s.hist| {
        assert FateOk(s, v);
      }
    }
  }

  /** One request running a statement that takes effect. */
  lemma WriteKeeps(s: State, s': State, pid: nat, w: Write, fate: Fate, p: Proc)
    requires Inv(s) && pid in s.procs && !s.procs[pid].Invalidating?
    requires UrlWhenDynamic(w) && Wrote(s, s', w, fate) && s'.procs == s.procs[pid := p]
    requires !fate.Cleared?
    requires Affects(s.db, w).Some? && !w.InsertDynamic? ==> !fate.NotNeeded?
    requires fate.Pending? ==> fate.pid == pid && p.Invalidating? && p.version == |s.hist|
    requires ProcOk(s', pid, p)
    ensures Inv(s')
  {
    WriteHonest(s, s', w, fate);
    WriteEntries(s, s', w, fate);
    WriteProcs(s, s', pid, w, fate, p);
    WriteFates(s, s', pid, w, fate, p);
  }

  lemma HitOk(s: State, slug: string)
    requires Inv(s) && Live(s, slug)
    ensures AnswerOk(s, slug, Found(s.redis[slug].target.destination), s.now)
  {
    var e := s.redis[slug];
    assert EntryOk(s, slug, e);
    assert e.target == Target(e.target.destination, e.target.codeId);
    assert ReadFrom(s.hist, slug, Target(e.target.destination, e.target.codeId), e.stamp.version, e.stamp.readAt);
  }

  lemma MissOk(s: State, slug: string)
    requires Inv(s)
    ensures var v := |s.hist| - 1;
            && CurrentAt(s.hist, v, s.now)
            && (ResolveSlug(s.db, slug).None? ==> AnswerOk(s, slug, NotFound, s.now))
            && (ResolveSlug(s.db, slug).Some? ==>
                  ReadFrom(s.hist, slug, ResolveSlug(s.db, slug).value, v, s.now))
  {
  }

  lemma ResolveKeeps(s: State, pid: nat, fault: Fault)
    requires Inv(s) && pid in s.procs
    requires s.procs[pid].Looking? || s.procs[pid].Querying?
    ensures Inv(ActResolve(s, pid, s.procs[pid], fault).(steps := s.steps + 1))
  {
    var p := s.procs[pid];
    var s' := ActResolve(s, pid, p, fault).(steps := s.steps + 1);
    MissOk(s, p.slug);
    if p.Looking? && fault.Fine? && Live(s, p.slug) {
      HitOk(s, p.slug);
      AnswerKept(s, s', p.slug, s'.procs[pid].answer, s.now);
    } else if s'.procs[pid].Resolved? {
      AnswerKept(s, s', p.slug, s'.procs[pid].answer, s.now);
    }
    GotoKeeps(s, s', pid, s'.procs[pid]);
  }

  lemma StoreKeeps(s: State, pid: nat, fault: Fault)
    requires Inv(s) && pid in s.procs && s.procs[pid].Storing?
    ensures Inv(ActResolve(s, pid, s.procs[pid], fault).(steps := s.steps + 1))
  {
    var p := s.procs[pid];
    var s' := ActResolve(s, pid, p, fault).(steps := s.steps + 1);
    assert ProcOk(s, pid, p);
    assert p.target == Target(p.target.destination, p.target.codeId);
    assert ReadFrom(s.hist, p.slug, Target(p.target.destination, p.target.codeId), p.version, p.readAt);
    assert AnswerOk(s', p.slug, Found(p.target.destination), p.readAt);
    if !fault.Failed? {
      forall v | p.version < v < |s.hist| && s.hist[v].slug == Some(p.slug) && s.hist[v].fate.Cleared?
        ensures s.hist[v].fate.step < s.steps
      {
        assert FateOk(s, v);
      }
      assert EntryOk(s', p.slug, s'.redis[p.slug]);
    }
    GotoKeeps(s, s', pid, s'.procs[pid]);
  }

  lemma RequestOk(s: State, pid: nat)
    requires Inv(s) && pid in s.procs
    ensures Honest(s) && ProcOk(s, pid, s.procs[pid])
  {
  }

  lemma GateKeeps(c: Checker, s: State, pid: nat, fault: Fault)
    requires Inv(s) && pid in s.procs && (s.procs[pid].Gating? || s.procs[pid].Vetting?)
    ensures Inv(ActGate(c, s, pid, s.procs[pid], fault).(steps := s.steps + 1))
  {
    hide Inv, Honest, VerdictOf;
    RequestOk(s, pid);
    var s' := ActGate(c, s, pid, s.procs[pid], fault).(steps := s.steps + 1);
    GotoKeeps(s, s', pid, s'.procs[pid]);
  }

  /** A statement run by a request that then moves on without owing an invalidation, or to its invalidation. */
  lemma CommitKeeps(s: State, pid: nat, w: Write, fate: Fate, p: Proc)
    requires Inv(s) && pid in s.procs && !s.procs[pid].Invalidating?
    requires UrlWhenDynamic(w) && !fate.Cleared?
    requires fate.NotNeeded? ==> w.InsertDynamic? || Affects(s.db, w).None?
    requires fate.Pending? ==> fate.pid == pid && p.Invalidating? && p.version == |s.hist|
                               && !w.InsertDynamic? && Affects(s.db, w) == Some(p.slug)
    requires p.Finished? || p.Reloading? || (p.Invalidating? && fate.Pending?)
    ensures Inv(Goto(Commit(s, w, fate), pid, p).(steps := s.steps + 1))
  {
    var s' := Goto(Commit(s, w, fate), pid, p).(steps := s.steps + 1);
    WriteKeeps(s, s', pid, w, s'.hist[|s.hist|].fate, p);
  }

  lemma StayKeeps(s: State, pid: nat, p: Proc)
    requires Inv(s) && pid in s.procs && !s.procs[pid].Invalidating?
    requires ProcOk(s, pid, p) && !p.Storing? && !p.Resolved? && !p.Invalidating?
    ensures Inv(Goto(s, pid, p).(steps := s.steps + 1))
  {
    GotoKeeps(s, Goto(s, pid, p).(steps := s.steps + 1), pid, p);
  }

  lemma CreatingKeeps(s: State, pid: nat, fault: Fault, id: Uuid, slug: string)
    requires Inv(s) && pid in s.procs && s.procs[pid].Creating?
    ensures Inv(ActCreate(s, pid, s.procs[pid], fault, id, slug).(steps := s.steps + 1))
  {
    hide Inv, Honest;
    RequestOk(s, pid);
    var p := s.procs[pid];
    var w := InsertStatic(id, p.draft, s.now);
    if p.isDynamic || fault.Failed? || !Accepts(s.db, w) {
      StayKeeps(s, pid, ActCreate(s, pid, p, fault, id, slug).procs[pid]);
    } else {
      CommitKeeps(s, pid, w, NotNeeded, Finished(fault.Fine?));
    }
  }

  lemma InsertingKeeps(s: State, pid: nat, fault: Fault, id: Uuid, slug: string)
    requires Inv(s) && pid in s.procs && s.procs[pid].Inserting?
    ensures Inv(ActCreate(s, pid, s.procs[pid], fault, id, slug).(steps := s.steps + 1))
  {
    hide Inv, Honest;
    RequestOk(s, pid);
    var p := s.procs[pid];
    var w := InsertDynamic(id, p.draft, slug, p.destination, s.now);
    if fault.Failed? || !Accepts(s.db, w) {
      StayKeeps(s, pid, ActCreate(s, pid, p, fault, id, slug).procs[pid]);
    } else {
      CommitKeeps(s, pid, w, NotNeeded, Finished(fault.Fine?));
    }
  }

  /** Reading a code tells its slug, or that it has none, for good. */
  lemma ReadTellsSlug(db: Db, user: Uuid, id: Uuid)
    requires Sound(db) && GetByID(db, user, id).Some?
    ensures var code := GetByID(db, user, id).value;
            && (code.row.isDynamic <==> code.dynamic.Some?)
            && SlugFixed(db, id, if code.dynamic.Some? then Some(code.dynamic.value.slug) else None)
  {
  }

  lemma LoadedSlug(s: State, user: Uuid, id: Uuid)
    requires Honest(s) && GetByID(s.db, user, id).Some?
    ensures var code := GetByID(s.db, user, id).value;
            && (code.row.isDynamic <==> code.dynamic.Some?)
            && SlugFixed(s.db, id, if code.dynamic.Some? then Some(code.dynamic.value.slug) else None)
  {
    SoundVersions(s, |s.hist| - 1);
    ReadTellsSlug(s.db, user, id);
  }

  lemma LoadingKeeps(s: State, pid: nat, fault: Fault)
    requires Inv(s) && pid in s.procs && (s.procs[pid].Loading? || s.procs[pid].Reloading?)
    ensures Inv(ActUpdate(s, pid, s.procs[pid], fault).(steps := s.steps + 1))
  {
    hide Inv, Honest;
    RequestOk(s, pid);
    var p := s.procs[pid];
    if GetByID(s.db, p.user, p.id).Some? {
      LoadedSlug(s, p.user, p.id);
    }
    StayKeeps(s, pid, ActUpdate(s, pid, p, fault).procs[pid]);
  }

  lemma DynamicIsCode(s: State)
    requires Honest(s)
    ensures s.db.dynamics.Keys <= s.db.codes.Keys
  {
    SoundVersions(s, |s.hist| - 1);
  }

  lemma RetargetingKeeps(s: State, pid: nat, fault: Fault)
    requires Inv(s) && pid in s.procs && s.procs[pid].Retargeting?
    ensures Inv(ActUpdate(s, pid, s.procs[pid], fault).(steps := s.steps + 1))
  {
    hide Inv, Honest;
    RequestOk(s, pid);
    var p := s.procs[pid];
    var w := UpdateDestination(p.id, p.destination, s.now);
    DynamicIsCode(s);
    if fault.Failed? || !Accepts(s.db, w) {
      StayKeeps(s, pid, Finished(false));
    } else if fault.Unreported? {
      CommitKeeps(s, pid, w, Lost, Finished(false));
    } else {
      CommitKeeps(s, pid, w, Pending(pid), Invalidating(p.slug, |s.hist|, ToRelabel(p.user, p.id, p.caption)));
    }
  }

  lemma RelabellingKeeps(s: State, pid: nat, fault: Fault)
    requires Inv(s) && pid in s.procs && s.procs[pid].Relabelling?
    ensures Inv(ActUpdate(s, pid, s.procs[pid], fault).(steps := s.steps + 1))
  {
    hide Inv, Honest;
    RequestOk(s, pid);
    var p := s.procs[pid];
    var w := UpdateLabel(p.user, p.id, p.caption, s.now);
    if p.caption.None? || fault.Failed? || !Accepts(s.db, w) {
      StayKeeps(s, pid, ActUpdate(s, pid, p, fault).procs[pid]);
    } else {
      CommitKeeps(s, pid, w, NotNeeded, if fault.Fine? then Reloading(p.user, p.id) else Finished(false));
    }
  }

  lemma DeleteKeeps(s: State, pid: nat, fault: Fault)
    requires Inv(s) && pid in s.procs && (s.procs[pid].Finding? || s.procs[pid].Deleting?)
    ensures Inv(ActDelete(s, pid, s.procs[pid], fault).(steps := s.steps + 1))
  {
    hide Inv, Honest;
    RequestOk(s, pid);
    var p := s.procs[pid];
    var w := DeleteCode(p.user, p.id);
    if GetByID(s.db, p.user, p.id).Some? {
      LoadedSlug(s, p.user, p.id);
    }
    if p.Finding? || fault.Failed? || !Accepts(s.db, w) {
      StayKeeps(s, pid, ActDelete(s, pid, p, fault).procs[pid]);
    } else if fault.Unreported? {
      CommitKeeps(s, pid, w, Lost, Finished(false));
    } else if p.known.None? {
      CommitKeeps(s, pid, w, Lost, Finished(true));
    } else {
      CommitKeeps(s, pid, w, Pending(pid), Invalidating(p.known.value, |s.hist|, ToReply));
    }
  }

  /** s' decides the fate of the invalidation pid was about to make, the slug's entry gone if it was made. */
  ghost predicate Decided(s: State, s': State, pid: nat, fate: Fate, p: Proc) {
    && pid in s.procs && s.procs[pid].Invalidating?
    && (fate == Lost || fate == Cleared(s.steps))
    && s'.procs == s.procs[pid := p]
    && s'.hist == SetFate(s, s.procs[pid].version, fate).hist
    && s'.db == s.db && s'.now == s.now && s'.worstGap == s.worstGap && s.steps < s'.steps
    && s'.redis == if fate.Cleared? then s.redis - {s.procs[pid].slug} else s.redis
  }

  lemma DecideHonest(s: State, s': State, pid: nat, fate: Fate, p: Proc)
    requires Inv(s) && Decided(s, s', pid, fate, p)
    ensures Honest(s') && Extends(s.hist, s'.hist, s.now)
    ensures s.procs[pid].version < |s.hist| == |s'.hist|
    ensures s'.hist[s.procs[pid].version].slug == Some(s.procs[pid].slug)
    ensures forall v :: 0 <= v < |s.hist| && v != s.procs[pid].version ==> s'.hist[v] == s.hist[v]
    ensures s'.hist[s.procs[pid].version].fate == fate
  {
    hide ReadFrom, EntryOk, AnswerOk, Apply, Affects;
    assert ProcOk(s, pid, s.procs[pid]);
    forall i | 0 < i < |s'.hist| ensures Follows(s'.hist, i) {
      assert Follows(s.hist, i);
    }
  }

  lemma DecideEntries(s: State, s': State, pid: nat, fate: Fate, p: Proc)
    requires Inv(s) && Decided(s, s', pid, fate, p)
    ensures forall slug <- s'.redis :: EntryOk(s', slug, s'.redis[slug])
  {
    DecideHonest(s, s', pid, fate, p);
    forall slug | slug in s'.redis ensures EntryOk(s', slug, s'.redis[slug]) {
      EntryKept(s, s', slug, s.redis[slug]);
    }
  }

  lemma DecideProcs(s: State, s': State, pid: nat, fate: Fate, p: Proc)
    requires Inv(s) && Decided(s, s', pid, fate, p) && ProcOk(s', pid, p)
    ensures forall q <- s'.procs :: ProcOk(s', q, s'.procs[q])
  {
    DecideHonest(s, s', pid, fate, p);
    assert ProcOk(s, pid, s.procs[pid]);
    forall q | q in s'.procs ensures ProcOk(s', q, s'.procs[q]) {
      if q != pid {
        assert ProcOk(s, q, s.procs[q]);
        ProcKept(s, s', q, s.procs[q], None);
      }
    }
  }

  lemma DecideFates(s: State, s': State, pid: nat, fate: Fate, p: Proc)
    requires Inv(s) && Decided(s, s', pid, fate, p)
    ensures forall v :: 0 < v < |s'.hist| ==> FateOk(s', v)
  {
    DecideHonest(s, s', pid, fate, p);
    forall v | 0 < v < |s'.hist| ensures FateOk(s', v) {
      assert FateOk(s, v);
    }
  }

  lemma DecideKeeps(s: State, s': State, pid: nat, fate: Fate, p: Proc)
    requires Inv(s) && Decided(s, s', pid, fate, p) && ProcOk(s', pid, p)
    ensures Inv(s')
  {
    DecideHonest(s, s', pid, fate, p);
    DecideEntries(s, s', pid, fate, p);
    DecideProcs(s, s', pid, fate, p);
    DecideFates(s, s', pid, fate, p);
  }

  lemma InvalidateKeeps(s: State, pid: nat, fault: Fault)
    requires Inv(s) && pid in s.procs && s.procs[pid].Invalidating?
    ensures Inv(ActInvalidate(s, pid, s.procs[pid], fault).(steps := s.steps + 1))
  {
    hide Inv, Honest;
    RequestOk(s, pid);
    var p := s.procs[pid];
    var fate := if fault.Failed? then Lost else Cleared(s.steps);
    var next := if p.after.ToReply? then Finished(true) else Relabelling(p.after.user, p.after.id, p.after.caption);
    var redis := if fault.Failed? then s.redis else s.redis - {p.slug};
    DecideKeeps(s, Goto(SetFate(s.(redis := redis), p.version, fate), pid, next).(steps := s.steps + 1),
                pid, fate, next);
  }

  lemma CutKeeps(s: State, pid: nat)
    requires Inv(s)
    ensures Inv(Cut(s, pid).(steps := s.steps + 1))
  {
    hide Inv, Honest;
    var s' := Cut(s, pid).(steps := s.steps + 1);
    if s'.procs == s.procs {
      IdleKeeps(s, s');
    } else if s.procs[pid].Invalidating? {
      RequestOk(s, pid);
      DecideKeeps(s, s', pid, Lost, Aborted);
    } else {
      StayKeeps(s, pid, Aborted);
    }
  }

  /** Time passing, entries vanishing, and steps with nothing to do. */
  lemma IdleKeeps(s: State, s': State)
    requires Inv(s) && s'.procs == s.procs && s'.hist == s.hist && s'.db == s.db
    requires s.now <= s'.now && s.worstGap == s'.worstGap && s.steps <= s'.steps
    requires forall slug <- s'.redis :: slug in s.redis && s'.redis[slug] == s.redis[slug]
    ensures Inv(s')
  {
    forall slug | slug in s'.redis ensures EntryOk(s', slug, s'.redis[slug]) {
      EntryKept(s, s', slug, s.redis[slug]);
    }
    forall q | q in s'.procs ensures ProcOk(s', q, s'.procs[q]) {
      ProcKept(s, s', q, s.procs[q], None);
    }
    forall v | 0 < v < |s'.hist| ensures FateOk(s', v) {
      assert FateOk(s, v);
    }
  }

  lemma ActKeeps(c: Checker, s: State, pid: nat, fault: Fault, id: Uuid, slug: string)
    requires Inv(s) && pid in s.procs
    ensures Inv(Act(c, s, pid, s.procs[pid], fault, id, slug).(steps := s.steps + 1))
  {
    hide Inv, ProcOk;
    match s.procs[pid]
    case Looking(_) => ResolveKeeps(s, pid, fault);
    case Querying(_) => ResolveKeeps(s, pid, fault);
    case Storing(_, _, _, _) => StoreKeeps(s, pid, fault);
    case Gating(_, _) => GateKeeps(c, s, pid, fault);
    case Vetting(_, _) => GateKeeps(c, s, pid, fault);
    case Creating(_, _, _) => CreatingKeeps(s, pid, fault, id, slug);
    case Inserting(_, _, _) => InsertingKeeps(s, pid, fault, id, slug);
    case Loading(_, _, _, _) => LoadingKeeps(s, pid, fault);
    case Reloading(_, _) => LoadingKeeps(s, pid, fault);
    case Retargeting(_, _, _, _, _) => RetargetingKeeps(s, pid, fault);
    case Relabelling(_, _, _) => RelabellingKeeps(s, pid, fault);
    case Finding(_, _) => DeleteKeeps(s, pid, fault);
    case Deleting(_, _, _) => DeleteKeeps(s, pid, fault);
    case Invalidating(_, _, _) => InvalidateKeeps(s, pid, fault);
    case _ => IdleKeeps(s, s.(steps := s.steps + 1));
  }

  /** Every step keeps the record honest, the entries traceable and the owed invalidations accounted for. */
  lemma StepKeeps(c: Checker, s: State, l: Label)
    requires Inv(s)
    ensures Inv(Step(c, s, l))
  {
    hide Inv, Act, Cut, ProcOk, EntryOk;
    match l
    case Start(pid, request) =>
      if pid in s.procs {
        IdleKeeps(s, Step(c, s, l));
      } else {
        GotoKeeps(s, Step(c, s, l), pid, FirstStep(request));
      }
    case Advance(pid, fault, id, slug) =>
      if pid in s.procs {
        ActKeeps(c, s, pid, fault, id, slug);
      } else {
        IdleKeeps(s, Step(c, s, l));
      }
    case Abort(pid) => CutKeeps(s, pid);
    case _ => IdleKeeps(s, Step(c, s, l));
  }

  lemma {:induction false} RunKeeps(c: Checker, t0: Instant, labels: seq<Label>)
    ensures Inv(Run(c, t0, labels))
  {
    if labels != [] {
      RunKeeps(c, t0, labels[..|labels| - 1]);
      StepKeeps(c, Run(c, t0, labels[..|labels| - 1]), labels[|labels| - 1]);
    }
  }
}
