/** Table integrity and ownership over every interleaved run. */
module Isolation {
  import opened Basics
  import opened Rfc3339
  import opened Cursor
  import opened Tables
  import opened Safety
  import opened Protocol
  import opened History

  /** In every reachable state slugs are unique, dynamic rows match the flag, and only url codes are dynamic. */
  lemma {:induction false} TablesSound(c: Checker, t0: Instant, labels: seq<Label>)
    ensures Sound(Run(c, t0, labels).db)
  {
    RunKeeps(c, t0, labels);
    var s := Run(c, t0, labels);
    SoundVersions(s, |s.hist| - 1);
  }

  /** The code, if it still exists, belongs to user; ids are never handed out twice. */
  predicate Mine(db: Db, user: Uuid, id: Uuid) {
    id in db.issued && (id in db.codes ==> db.codes[id].user == user)
  }

  predicate AfterGateFor(db: Db, next: AfterGate, user: Uuid) {
    match next
    case ToInsert(draft) => draft.user == user
    case ToRetarget(owner, id, _, _) => owner == user && Mine(db, user, id)
    case ToReport => true
  }

  /** The user a request acts for. */
  function ActsFor(r: Request): Option<Uuid> {
    match r
    case Create(draft, _, _) => Some(draft.user)
    case Update(user, _, _, _) => Some(user)
    case Delete(user, _) => Some(user)
    case _ => None
  }

  /** Whatever the request may still write belongs to the user it acts for. */
  predicate WritesFor(db: Db, p: Proc, user: Option<Uuid>) {
    match p
    case Gating(_, next) => next.ToReport? || (user.Some? && AfterGateFor(db, next, user.value))
    case Vetting(_, next) => next.ToReport? || (user.Some? && AfterGateFor(db, next, user.value))
    case Creating(draft, _, _) => user == Some(draft.user)
    case Inserting(draft, _, _) => user == Some(draft.user)
    case Loading(owner, _, _, _) => user == Some(owner)
    case Retargeting(owner, id, _, _, _) => user == Some(owner) && Mine(db, owner, id)
    case Relabelling(owner, _, _) => user == Some(owner)
    case Finding(owner, _) => user == Some(owner)
    case Deleting(owner, _, _) => user == Some(owner)
    case Invalidating(_, _, after) => after.ToReply? || user == Some(after.user)
    case _ => true
  }

  /** The request a process was started with. */
  function StartedAs(labels: seq<Label>, pid: nat): Option<Request> {
    if labels == [] then None
    else
      var earlier := StartedAs(labels[..|labels| - 1], pid);
      var l := labels[|labels| - 1];
      if earlier.Some? then earlier
      else if l.Start? && l.pid == pid then Some(l.request)
      else None
  }

  ghost predicate AllOwned(labels: seq<Label>, s: State) {
    forall pid: nat ::
      && (pid in s.procs <==> StartedAs(labels, pid).Some?)
      && (pid in s.procs ==> WritesFor(s.db, s.procs[pid], ActsFor(StartedAs(labels, pid).value)))
  }

  lemma MineStays(db: Db, w: Write, user: Uuid, id: Uuid)
    requires Mine(db, user, id)
    ensures Mine(Apply(db, w), user, id)
  {
  }

  lemma WritesStay(db: Db, w: Write, p: Proc, user: Option<Uuid>)
    requires WritesFor(db, p, user)
    ensures WritesFor(Apply(db, w), p, user)
  {
    match p
    case Gating(_, next) => if next.ToRetarget? { MineStays(db, w, next.user, next.id); }
    case Vetting(_, next) => if next.ToRetarget? { MineStays(db, w, next.user, next.id); }
    case Retargeting(owner, id, _, _, _) => MineStays(db, w, owner, id);
    case _ =>
  }

  /** The statement a request runs in its next step, whether or not it takes effect. */
  function WriteOf(s: State, p: Proc, id: Uuid, slug: string): Option<Write> {
    match p
    case Creating(draft, isDynamic, _) => if isDynamic then None else Some(InsertStatic(id, draft, s.now))
    case Inserting(draft, destination, _) => Some(InsertDynamic(id, draft, slug, destination, s.now))
    case Retargeting(_, code, _, _, destination) => Some(UpdateDestination(code, destination, s.now))
    case Relabelling(user, code, caption) => Some(UpdateLabel(user, code, caption, s.now))
    case Deleting(user, code, _) => Some(DeleteCode(user, code))
    case _ => None
  }

  /** The tables are as before, or as the statement leaves them. */
  predicate WroteAtMost(db: Db, db': Db, w: Option<Write>, fault: Fault) {
    db' == db || (w.Some? && !fault.Failed? && Accepts(db, w.value) && db' == Apply(db, w.value))
  }

  lemma CreateWrites(s: State, pid: nat, p: Proc, fault: Fault, id: Uuid, slug: string)
    requires p.Creating? || p.Inserting?
    ensures WroteAtMost(s.db, ActCreate(s, pid, p, fault, id, slug).db, WriteOf(s, p, id, slug), fault)
  {
    hide Apply;
  }

  lemma UpdateWrites(s: State, pid: nat, p: Proc, fault: Fault, id: Uuid, slug: string)
    requires p.Loading? || p.Retargeting? || p.Relabelling? || p.Reloading?
    ensures WroteAtMost(s.db, ActUpdate(s, pid, p, fault).db, WriteOf(s, p, id, slug), fault)
  {
    hide Apply;
  }

  lemma DeleteWrites(s: State, pid: nat, p: Proc, fault: Fault, id: Uuid, slug: string)
    requires p.Finding? || p.Deleting?
    ensures WroteAtMost(s.db, ActDelete(s, pid, p, fault).db, WriteOf(s, p, id, slug), fault)
  {
    hide Apply;
  }

  /** A step changes the tables by its own statement or not at all. */
  lemma ActWrites(c: Checker, s: State, pid: nat, p: Proc, fault: Fault, id: Uuid, slug: string)
    ensures WroteAtMost(s.db, Act(c, s, pid, p, fault, id, slug).db, WriteOf(s, p, id, slug), fault)
  {
    hide ActCreate, ActUpdate, ActDelete, Apply, Accepts, Commit, VerdictOf, Affects, ResolveSlug;
    match p
    case Creating(_, _, _) => CreateWrites(s, pid, p, fault, id, slug);
    case Inserting(_, _, _) => CreateWrites(s, pid, p, fault, id, slug);
    case Loading(_, _, _, _) => UpdateWrites(s, pid, p, fault, id, slug);
    case Retargeting(_, _, _, _, _) => UpdateWrites(s, pid, p, fault, id, slug);
    case Relabelling(_, _, _) => UpdateWrites(s, pid, p, fault, id, slug);
    case Reloading(_, _) => UpdateWrites(s, pid, p, fault, id, slug);
    case Finding(_, _) => DeleteWrites(s, pid, p, fault, id, slug);
    case Deleting(_, _, _) => DeleteWrites(s, pid, p, fault, id, slug);
    case _ =>
  }

  /** A statement that takes effect leaves every code of another user as it was. */
  lemma WriteTouchesOwn(db: Db, p: Proc, user: Option<Uuid>, s: State, id: Uuid, slug: string, code: Uuid)
    requires s.db == db && Sound(db) && WritesFor(db, p, user) && WriteOf(s, p, id, slug).Some?
    requires Accepts(db, WriteOf(s, p, id, slug).value)
    requires var after := Apply(db, WriteOf(s, p, id, slug).value);
             || (code in db.codes && user != Some(db.codes[code].user))
             || (code in after.codes && user != Some(after.codes[code].user))
    ensures SameFor(db, Apply(db, WriteOf(s, p, id, slug).value), code)
  {
    var w := WriteOf(s, p, id, slug).value;
    if code != w.id {
      OneCodeTouched(db, w, code);
    }
  }

  /** s' differs from s in what pid does next, which still only writes for the user, and perhaps in other parts. */
  predicate MovesFor(s: State, s': State, pid: nat, user: Option<Uuid>) {
    pid in s'.procs && s'.procs == s.procs[pid := s'.procs[pid]] && WritesFor(s'.db, s'.procs[pid], user)
  }

  lemma CreatingOwned(s: State, pid: nat, p: Proc, user: Option<Uuid>, fault: Fault, id: Uuid, slug: string)
    requires WritesFor(s.db, p, user) && p.Creating?
    ensures MovesFor(s, ActCreate(s, pid, p, fault, id, slug), pid, user)
  {
    hide Apply, Accepts;
  }

  lemma InsertingOwned(s: State, pid: nat, p: Proc, user: Option<Uuid>, fault: Fault, id: Uuid, slug: string)
    requires WritesFor(s.db, p, user) && p.Inserting?
    ensures MovesFor(s, ActCreate(s, pid, p, fault, id, slug), pid, user)
  {
    hide Apply, Accepts;
  }

  lemma LoadOwned(s: State, pid: nat, p: Proc, user: Option<Uuid>, fault: Fault)
    requires Honest(s) && WritesFor(s.db, p, user) && (p.Loading? || p.Reloading?)
    ensures MovesFor(s, ActUpdate(s, pid, p, fault), pid, user)
  {
    if p.Loading? && GetByID(s.db, p.user, p.id).Some? {
      LoadedSlug(s, p.user, p.id);
    }
  }

  lemma RetargetOwned(s: State, pid: nat, p: Proc, user: Option<Uuid>, fault: Fault)
    requires WritesFor(s.db, p, user) && p.Retargeting?
    ensures MovesFor(s, ActUpdate(s, pid, p, fault), pid, user)
  {
  }

  lemma RelabelOwned(s: State, pid: nat, p: Proc, user: Option<Uuid>, fault: Fault)
    requires WritesFor(s.db, p, user) && p.Relabelling?
    ensures MovesFor(s, ActUpdate(s, pid, p, fault), pid, user)
  {
  }

  lemma DeleteOwned(s: State, pid: nat, p: Proc, user: Option<Uuid>, fault: Fault)
    requires WritesFor(s.db, p, user) && (p.Finding? || p.Deleting?)
    ensures MovesFor(s, ActDelete(s, pid, p, fault), pid, user)
  {
    hide Apply, Accepts, Affects;
  }

  lemma ResolveOwned(s: State, pid: nat, p: Proc, user: Option<Uuid>, fault: Fault)
    requires p.Looking? || p.Querying? || p.Storing?
    ensures MovesFor(s, ActResolve(s, pid, p, fault), pid, user)
  {
  }

  lemma GateOwned(c: Checker, s: State, pid: nat, p: Proc, user: Option<Uuid>, fault: Fault)
    requires WritesFor(s.db, p, user) && (p.Gating? || p.Vetting?)
    ensures MovesFor(s, ActGate(c, s, pid, p, fault), pid, user)
  {
    hide VerdictOf;
  }

  lemma InvalidateOwned(s: State, pid: nat, p: Proc, user: Option<Uuid>, fault: Fault)
    requires WritesFor(s.db, p, user) && p.Invalidating?
    ensures MovesFor(s, ActInvalidate(s, pid, p, fault), pid, user)
  {
  }

  lemma ActOwned(c: Checker, s: State, pid: nat, p: Proc, user: Option<Uuid>, fault: Fault, id: Uuid, slug: string)
    requires Honest(s) && WritesFor(s.db, p, user) && pid in s.procs && s.procs[pid] == p
    ensures MovesFor(s, Act(c, s, pid, p, fault, id, slug), pid, user)
  {
    hide ActResolve, ActGate, ActCreate, ActUpdate, ActDelete, ActInvalidate, Honest;
    match p
    case Looking(_) => ResolveOwned(s, pid, p, user, fault);
    case Querying(_) => ResolveOwned(s, pid, p, user, fault);
    case Storing(_, _, _, _) => ResolveOwned(s, pid, p, user, fault);
    case Gating(_, _) => GateOwned(c, s, pid, p, user, fault);
    case Vetting(_, _) => GateOwned(c, s, pid, p, user, fault);
    case Invalidating(_, _, _) => InvalidateOwned(s, pid, p, user, fault);
    case Creating(_, _, _) => CreatingOwned(s, pid, p, user, fault, id, slug);
    case Inserting(_, _, _) => InsertingOwned(s, pid, p, user, fault, id, slug);
    case Loading(_, _, _, _) => LoadOwned(s, pid, p, user, fault);
    case Retargeting(_, _, _, _, _) => RetargetOwned(s, pid, p, user, fault);
    case Relabelling(_, _, _) => RelabelOwned(s, pid, p, user, fault);
    case Reloading(_, _) => LoadOwned(s, pid, p, user, fault);
    case Finding(_, _) => DeleteOwned(s, pid, p, user, fault);
    case Deleting(_, _, _) => DeleteOwned(s, pid, p, user, fault);
    case _ =>
  }

  lemma AdvanceOwned(c: Checker, labels: seq<Label>, s: State, l: Label)
    requires Honest(s) && AllOwned(labels, s) && l.Advance? && l.pid in s.procs
    ensures AllOwned(labels, Step(c, s, l))
  {
    var p, s' := s.procs[l.pid], Step(c, s, l);
    ActOwned(c, s, l.pid, p, ActsFor(StartedAs(labels, l.pid).value), l.fault, l.id, l.slug);
    ActWrites(c, s, l.pid, p, l.fault, l.id, l.slug);
    forall q | q in s'.procs
      ensures StartedAs(labels, q).Some? && WritesFor(s'.db, s'.procs[q], ActsFor(StartedAs(labels, q).value))
    {
      var w := WriteOf(s, p, l.id, l.slug);
      if q != l.pid && w.Some? {
        WritesStay(s.db, w.value, s.procs[q], ActsFor(StartedAs(labels, q).value));
      }
    }
  }

  lemma StartedSnoc(front: seq<Label>, l: Label, q: nat)
    ensures StartedAs(front + [l], q) ==
            if StartedAs(front, q).None? && l.Start? && l.pid == q then Some(l.request) else StartedAs(front, q)
  {
    assert (front + [l])[..|front|] == front;
  }

  lemma FirstOwned(db: Db, request: Request)
    ensures WritesFor(db, FirstStep(request), ActsFor(request))
  {
  }

  lemma AbortedOwned(db: Db, user: Option<Uuid>)
    ensures WritesFor(db, Aborted, user)
  {
  }

  /** Steps that leave the tables alone and start, or cut off, at most one request. */
  lemma StillOwned(front: seq<Label>, s: State, s': State, l: Label)
    requires AllOwned(front, s) && s'.db == s.db && !l.Advance?
    requires s'.procs == s.procs || (l.Abort? && l.pid in s.procs && s'.procs == s.procs[l.pid := Aborted])
             || (l.Start? && l.pid !in s.procs && s'.procs == s.procs[l.pid := FirstStep(l.request)])
    requires l.Start? && s'.procs == s.procs ==> l.pid in s.procs
    ensures AllOwned(front + [l], s')
  {
    hide WritesFor;
    forall q: nat
      ensures q in s'.procs <==> StartedAs(front + [l], q).Some?
      ensures q in s'.procs ==> WritesFor(s'.db, s'.procs[q], ActsFor(StartedAs(front + [l], q).value))
    {
      StartedSnoc(front, l, q);
      if l.Start? {
        FirstOwned(s.db, l.request);
      } else if l.Abort? && q in s.procs {
        AbortedOwned(s.db, ActsFor(StartedAs(front, q).value));
      }
    }
  }

  lemma StepOwned(c: Checker, front: seq<Label>, s: State, l: Label)
    requires Honest(s) && AllOwned(front, s)
    ensures AllOwned(front + [l], Step(c, s, l))
  {
    hide Act, WritesFor, AllOwned, Honest;
    if l.Advance? && l.pid in s.procs {
      AdvanceOwned(c, front, s, l);
      LongerSame(front, Step(c, s, l), l);
    } else if l.Advance? {
      LongerSame(front, s, l);
      assert Step(c, s, l).procs == s.procs && Step(c, s, l).db == s.db;
      SameOwned(front + [l], s, Step(c, s, l));
    } else {
      StillOwned(front, s, Step(c, s, l), l);
    }
  }

  lemma LongerSame(front: seq<Label>, s: State, l: Label)
    requires AllOwned(front, s) && !l.Start?
    ensures AllOwned(front + [l], s)
  {
    hide WritesFor;
    forall q: nat ensures StartedAs(front + [l], q) == StartedAs(front, q) {
      StartedSnoc(front, l, q);
    }
  }

  lemma SameOwned(labels: seq<Label>, s: State, s': State)
    requires AllOwned(labels, s) && s'.procs == s.procs && s'.db == s.db
    ensures AllOwned(labels, s')
  {
  }

  lemma {:induction false} RunOwned(c: Checker, t0: Instant, labels: seq<Label>)
    ensures AllOwned(labels, Run(c, t0, labels))
  {
    if labels != [] {
      var front, l := labels[..|labels| - 1], labels[|labels| - 1];
      RunOwned(c, t0, front);
      RunKeeps(c, t0, front);
      StepOwned(c, front, Run(c, t0, front), l);
      assert front + [l] == labels;
    }
  }

  /**
   Isolation: a step of any interleaved run that creates, changes or removes a code is a step of a request acting for
   that code's owner, although UpdateDestination itself does not look at the user.
   */
  lemma {:induction false} OnlyOwnersChangeCodes(c: Checker, t0: Instant, labels: seq<Label>, l: Label, code: Uuid)
    requires var before, after := Run(c, t0, labels).db, Step(c, Run(c, t0, labels), l).db;
             !SameFor(before, after, code)
    ensures l.Advance? && StartedAs(labels, l.pid).Some?
    ensures var before, after := Run(c, t0, labels).db, Step(c, Run(c, t0, labels), l).db;
            var user := ActsFor(StartedAs(labels, l.pid).value);
            && (code in before.codes ==> user == Some(before.codes[code].user))
            && (code in after.codes ==> user == Some(after.codes[code].user))
  {
    hide Run, Step, SameFor, AllOwned, Sound;
    var s := Run(c, t0, labels);
    RunOwned(c, t0, labels);
    TablesSound(c, t0, labels);
    ChangeIsOwners(c, labels, s, l, code);
  }

  lemma ChangeIsOwners(c: Checker, labels: seq<Label>, s: State, l: Label, code: Uuid)
    requires AllOwned(labels, s) && Sound(s.db) && !SameFor(s.db, Step(c, s, l).db, code)
    ensures l.Advance? && StartedAs(labels, l.pid).Some?
    ensures var after := Step(c, s, l).db; var user := ActsFor(StartedAs(labels, l.pid).value);
            && (code in s.db.codes ==> user == Some(s.db.codes[code].user))
            && (code in after.codes ==> user == Some(after.codes[code].user))
  {
    hide Act, Apply, Accepts, WritesFor, Sound;
    if l.Advance? && l.pid in s.procs {
      var p := s.procs[l.pid];
      var user := ActsFor(StartedAs(labels, l.pid).value);
      ActWrites(c, s, l.pid, p, l.fault, l.id, l.slug);
      var w := WriteOf(s, p, l.id, l.slug);
      if w.Some? && Accepts(s.db, w.value) {
        var after := Apply(s.db, w.value);
        if (code in s.db.codes && user != Some(s.db.codes[code].user))
           || (code in after.codes && user != Some(after.codes[code].user)) {
          WriteTouchesOwn(s.db, p, user, s, l.id, l.slug, code);
        }
      }
    }
  }
}
