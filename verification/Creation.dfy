/**
 A Create as a whole, over every interleaved run: it stores one code under the first slug that is free when it is tried,
 or nothing at all. backend/internal/codes/service.go (Create) over repository.go (Create, CreateDynamic).
 */
module Creation {
  import opened Basics
  import opened Rfc3339
  import opened Cursor
  import opened Tables
  import opened Safety
  import opened Protocol
  import opened Gating
  import opened Isolation
  import opened Progress

  /** A statement a request ran: the tables it met, how the call went, and the tables it left. */
  datatype Try = Try(before: Db, write: Write, fault: Fault, after: Db)

  /** The statements run by the steps of pid, in order, each with the tables of its own step. */
  ghost function Tries(c: Checker, t0: Instant, labels: seq<Label>, pid: nat): seq<Try> {
    if labels == [] then []
    else
      var front, l := labels[..|labels| - 1], labels[|labels| - 1];
      Tries(c, t0, front, pid) + TriedBy(c, Run(c, t0, front), l, pid)
  }

  ghost function TriedBy(c: Checker, s: State, l: Label, pid: nat): seq<Try> {
    if l.Advance? && l.pid == pid && pid in s.procs && WriteOf(s, s.procs[pid], l.id, l.slug).Some?
    then [Try(s.db, WriteOf(s, s.procs[pid], l.id, l.slug).value, l.fault, Step(c, s, l).db)]
    else []
  }

  /** How often a step of pid has changed the tables. */
  ghost function Changes(c: Checker, t0: Instant, labels: seq<Label>, pid: nat): nat {
    if labels == [] then 0
    else
      var front, l := labels[..|labels| - 1], labels[|labels| - 1];
      Changes(c, t0, front, pid) + ChangedBy(c, Run(c, t0, front), l, pid)
  }

  ghost function ChangedBy(c: Checker, s: State, l: Label, pid: nat): nat {
    if l.Advance? && l.pid == pid && Step(c, s, l).db != s.db then 1 else 0
  }

  /** The insert a Create asks for: its own draft, static, or dynamic with the payload's url as destination. */
  predicate OwnInsert(r: Request, w: Write)
    requires r.Create?
  {
    if r.isDynamic then w.InsertDynamic? && w.draft == r.draft && r.payloadUrl == Some(w.destination)
    else w.InsertStatic? && w.draft == r.draft
  }

  /** The slug was taken when it was tried. */
  predicate Collided(t: Try) {
    t.write.InsertDynamic? && !t.fault.Failed? && t.write.slug in t.before.bySlug
  }

  /** The statement took effect. */
  predicate Took(t: Try) { !t.fault.Failed? && Accepts(t.before, t.write) }

  /** A try leaves the tables as its statement says, or as they were; if it takes effect it adds just its own rows. */
  predicate TryExact(t: Try) {
    && t.after == (if Took(t) then Apply(t.before, t.write) else t.before)
    && (Took(t) ==>
          && t.write.id !in t.before.codes && t.after.codes.Keys == t.before.codes.Keys + {t.write.id}
          && (t.write.InsertDynamic? ==>
                t.write.slug !in t.before.bySlug
                && t.after.bySlug == t.before.bySlug[t.write.slug := t.write.id]))
  }

  ghost predicate TriesExact(r: Request, tries: seq<Try>)
    requires r.Create?
  {
    forall i :: 0 <= i < |tries| ==> OwnInsert(r, tries[i].write) && TryExact(tries[i])
  }

  /** The first n tries found their slugs taken. */
  predicate AllCollided(tries: seq<Try>, n: nat) {
    n <= |tries| && forall i :: 0 <= i < n ==> Collided(tries[i])
  }

  /** A Create that is turned away before it tries anything. */
  ghost predicate Refused(c: Checker, r: Request)
    requires r.Create?
  {
    r.isDynamic && (r.draft.kind != "url" || r.payloadUrl.None? || r.payloadUrl.value == ""
                    || VerdictOf(c, r.payloadUrl.value).Malicious?)
  }

  /** The request is past Create's first checks. */
  predicate Sent(r: Request, draft: Draft, url: string)
    requires r.Create?
  {
    r.isDynamic && r.draft == draft && draft.kind == "url" && r.payloadUrl == Some(url) && url != ""
  }

  /** How a Create that is over ended, by its last try. */
  ghost predicate Ended(c: Checker, r: Request, ok: bool, tries: seq<Try>)
    requires r.Create?
  {
    if tries == [] then !ok && Refused(c, r)
    else
      var last := tries[|tries| - 1];
      && !Refused(c, r)
      && AllCollided(tries, |tries| - 1)
      && (ok <==> Took(last) && last.fault.Fine?)
      && (Collided(last) ==> |tries| == MAX_SLUG_ATTEMPTS)
  }

  /** Where a Create is, and what it has tried so far. */
  ghost predicate CreateAt(c: Checker, r: Request, p: Proc, tries: seq<Try>)
    requires r.Create?
  {
    && |tries| <= MAX_SLUG_ATTEMPTS && TriesExact(r, tries)
    && match p
       case Creating(draft, isDynamic, url) => p == FirstStep(r) && tries == []
       case Gating(url, next) => next.ToInsert? && Sent(r, next.draft, url) && tries == []
       case Vetting(url, next) => next.ToInsert? && Sent(r, next.draft, url) && tries == []
       case Inserting(draft, destination, attempt) =>
         && Sent(r, draft, destination) && !Refused(c, r)
         && attempt <= MAX_SLUG_ATTEMPTS && attempt == |tries| + 1 && AllCollided(tries, |tries|)
       case Finished(ok) => Ended(c, r, ok, tries)
       case Aborted => AllCollided(tries, |tries|)
       case _ => false
  }

  lemma StaticTry(c: Checker, r: Request, s: State, pid: nat, l: Label)
    requires r.Create? && Sound(s.db) && l.Advance? && l.pid == pid && pid in s.procs
    requires s.procs[pid].Creating? && !s.procs[pid].isDynamic && CreateAt(c, r, s.procs[pid], [])
    ensures CreateAt(c, r, ActCreate(s, pid, s.procs[pid], l.fault, l.id, l.slug).procs[pid],
                     [Try(s.db, InsertStatic(l.id, s.procs[pid].draft, s.now), l.fault,
                          ActCreate(s, pid, s.procs[pid], l.fault, l.id, l.slug).db)])
  {
    hide VerdictOf, Affects;
  }

  lemma DynamicTry(c: Checker, r: Request, s: State, pid: nat, l: Label, tries: seq<Try>)
    requires r.Create? && Sound(s.db) && l.Advance? && l.pid == pid && pid in s.procs
    requires s.procs[pid].Inserting? && CreateAt(c, r, s.procs[pid], tries)
    ensures var p := s.procs[pid]; var s' := ActCreate(s, pid, p, l.fault, l.id, l.slug);
            CreateAt(c, r, s'.procs[pid],
                     tries + [Try(s.db, InsertDynamic(l.id, p.draft, l.slug, p.destination, s.now), l.fault, s'.db)])
  {
    hide VerdictOf, Affects, Refused;
    var p := s.procs[pid];
    var s' := ActCreate(s, pid, p, l.fault, l.id, l.slug);
    var t := Try(s.db, InsertDynamic(l.id, p.draft, l.slug, p.destination, s.now), l.fault, s'.db);
    TryIsExact(s, pid, p, l.fault, l.id, l.slug);
    assert forall i :: 0 <= i < |tries| ==> (tries + [t])[i] == tries[i];
  }

  lemma TryIsExact(s: State, pid: nat, p: Proc, fault: Fault, id: Uuid, slug: string)
    requires Sound(s.db) && p.Inserting?
    ensures TryExact(Try(s.db, InsertDynamic(id, p.draft, slug, p.destination, s.now), fault,
                         ActCreate(s, pid, p, fault, id, slug).db))
  {
    hide Affects;
  }

  /** The checks before the first slug: they try nothing. */
  lemma GateAt(c: Checker, r: Request, s: State, pid: nat, fault: Fault)
    requires r.Create? && AllClean(c, s) && pid in s.procs && (s.procs[pid].Gating? || s.procs[pid].Vetting?)
    requires CreateAt(c, r, s.procs[pid], [])
    ensures CreateAt(c, r, ActGate(c, s, pid, s.procs[pid], fault).procs[pid], [])
  {
    hide VerdictOf, CleanTables;
  }

  lemma ChecksAt(c: Checker, r: Request, s: State, pid: nat, fault: Fault, id: Uuid, slug: string)
    requires r.Create? && pid in s.procs && s.procs[pid].Creating? && s.procs[pid].isDynamic
    requires CreateAt(c, r, s.procs[pid], [])
    ensures CreateAt(c, r, ActCreate(s, pid, s.procs[pid], fault, id, slug).procs[pid], [])
  {
    hide VerdictOf, Apply, Accepts;
  }

  /** One step of the Create itself. */
  lemma OwnStep(c: Checker, r: Request, s: State, pid: nat, l: Label, tries: seq<Try>)
    requires r.Create? && Sound(s.db) && AllClean(c, s) && l.Advance? && l.pid == pid && pid in s.procs
    requires CreateAt(c, r, s.procs[pid], tries)
    ensures CreateAt(c, r, Step(c, s, l).procs[pid], tries + TriedBy(c, s, l, pid))
  {
    hide CreateAt, ActCreate, ActGate, Sound, AllClean;
    var p := s.procs[pid];
    OnlyThese(c, r, p, tries);
    assert tries + [] == tries && [] + TriedBy(c, s, l, pid) == TriedBy(c, s, l, pid);
    match p
    case Creating(_, isDynamic, _) =>
      if isDynamic {
        ChecksAt(c, r, s, pid, l.fault, l.id, l.slug);
      } else {
        StaticTry(c, r, s, pid, l);
      }
    case Inserting(_, _, _) => DynamicTry(c, r, s, pid, l, tries);
    case Gating(_, _) => GateAt(c, r, s, pid, l.fault);
    case Vetting(_, _) => GateAt(c, r, s, pid, l.fault);
    case _ =>
  }

  lemma OnlyThese(c: Checker, r: Request, p: Proc, tries: seq<Try>)
    requires r.Create? && CreateAt(c, r, p, tries)
    ensures p.Creating? || p.Gating? || p.Vetting? || p.Inserting? || p.Finished? || p.Aborted?
    ensures p.Creating? || p.Gating? || p.Vetting? ==> tries == []
  {
  }

  /** A step of another request, or of nobody, leaves a Create where it is. */
  lemma OtherStep(c: Checker, s: State, l: Label, pid: nat)
    requires pid in s.procs && !(l.Advance? && l.pid == pid) && !(l.Abort? && l.pid == pid)
    ensures pid in Step(c, s, l).procs && Step(c, s, l).procs[pid] == s.procs[pid]
    ensures TriedBy(c, s, l, pid) == []
  {
    hide Act;
    if l.Advance? && l.pid in s.procs {
      ActCloser(c, s, l.pid, s.procs[l.pid], l.fault, l.id, l.slug);
    }
  }

  lemma CutAt(c: Checker, r: Request, s: State, pid: nat, tries: seq<Try>)
    requires r.Create? && pid in s.procs && CreateAt(c, r, s.procs[pid], tries)
    ensures pid in Cut(s, pid).procs && CreateAt(c, r, Cut(s, pid).procs[pid], tries)
  {
    hide VerdictOf;
  }

  /** Every label keeps a Create in order. */
  lemma StepAt(c: Checker, r: Request, s: State, l: Label, pid: nat, tries: seq<Try>)
    requires r.Create? && Sound(s.db) && AllClean(c, s) && pid in s.procs && CreateAt(c, r, s.procs[pid], tries)
    ensures pid in Step(c, s, l).procs && CreateAt(c, r, Step(c, s, l).procs[pid], tries + TriedBy(c, s, l, pid))
  {
    hide CreateAt, Act, Sound, AllClean;
    assert tries + [] == tries;
    if l.Advance? && l.pid == pid {
      OwnStep(c, r, s, pid, l, tries);
    } else if l.Abort? && l.pid == pid {
      CutAt(c, r, s, pid, tries);
    } else {
      OtherStep(c, s, l, pid);
    }
  }

  /** Requests that have not started have tried nothing and changed nothing. */
  lemma {:induction false} NotYet(c: Checker, t0: Instant, labels: seq<Label>, pid: nat)
    requires StartedAs(labels, pid).None?
    ensures Tries(c, t0, labels, pid) == [] && Changes(c, t0, labels, pid) == 0
  {
    hide Run, Step;
    if labels != [] {
      var front, l := labels[..|labels| - 1], labels[|labels| - 1];
      NotYet(c, t0, front, pid);
      RunOwned(c, t0, front);
      if l.Advance? && l.pid == pid {
        NobodySteps(c, Run(c, t0, front), l);
      }
    }
  }

  lemma NobodySteps(c: Checker, s: State, l: Label)
    requires l.Advance? && l.pid !in s.procs
    ensures Step(c, s, l).db == s.db
  {
  }

  /** Every reachable state has every Create in order. */
  lemma {:induction false} RunAt(c: Checker, t0: Instant, labels: seq<Label>, pid: nat)
    requires StartedAs(labels, pid).Some? && StartedAs(labels, pid).value.Create?
    ensures pid in Run(c, t0, labels).procs
    ensures CreateAt(c, StartedAs(labels, pid).value, Run(c, t0, labels).procs[pid], Tries(c, t0, labels, pid))
  {
    hide CreateAt, Step, Sound, AllClean, AllOwned;
    var front, l := labels[..|labels| - 1], labels[|labels| - 1];
    var s, r := Run(c, t0, front), StartedAs(labels, pid).value;
    OwnedProcs(c, t0, front, pid);
    if StartedAs(front, pid).Some? {
      RunAt(c, t0, front, pid);
      RunClean(c, t0, front);
      TablesSound(c, t0, front);
      StepAt(c, r, s, l, pid, Tries(c, t0, front, pid));
    } else {
      NotYet(c, t0, front, pid);
      StartAt(c, r, s, pid);
      assert Tries(c, t0, labels, pid) == [];
    }
  }

  lemma OwnedProcs(c: Checker, t0: Instant, labels: seq<Label>, pid: nat)
    ensures pid in Run(c, t0, labels).procs <==> StartedAs(labels, pid).Some?
  {
    hide Run, WritesFor;
    RunOwned(c, t0, labels);
  }

  lemma StartAt(c: Checker, r: Request, s: State, pid: nat)
    requires r.Create? && pid !in s.procs
    ensures pid in Step(c, s, Start(pid, r)).procs
    ensures CreateAt(c, r, Step(c, s, Start(pid, r)).procs[pid], [])
  {
    hide VerdictOf;
  }

  /** The tries that took effect. */
  function Committed(tries: seq<Try>): seq<Try> {
    if tries == [] then []
    else
      var t := tries[|tries| - 1];
      Committed(tries[..|tries| - 1]) + if Took(t) then [t] else []
  }

  lemma {:induction false} CollidedCommitNothing(tries: seq<Try>, n: nat)
    requires AllCollided(tries, n)
    ensures Committed(tries[..n]) == []
    decreases n
  {
    if n > 0 {
      CollidedCommitNothing(tries, n - 1);
      assert tries[..n][..n - 1] == tries[..n - 1];
    }
  }

  lemma StepChanges(c: Checker, r: Request, s: State, l: Label, pid: nat, tries: seq<Try>)
    requires r.Create? && Sound(s.db) && AllClean(c, s) && pid in s.procs && CreateAt(c, r, s.procs[pid], tries)
    ensures ChangedBy(c, s, l, pid) == |Committed(TriedBy(c, s, l, pid))|
  {
    hide Act, Sound, AllClean, Apply, Accepts;
    if l.Advance? && l.pid == pid {
      ActWrites(c, s, pid, s.procs[pid], l.fault, l.id, l.slug);
      StepAt(c, r, s, l, pid, tries);
      var tried := TriedBy(c, s, l, pid);
      if tried != [] {
        var t := tried[0];
        assert tried == [t] && tried[..0] == [];
        assert (tries + tried)[|tries|] == t;
        TookChanges(t);
      }
    }
  }

  lemma TookChanges(t: Try)
    requires TryExact(t)
    ensures t.after != t.before <==> Took(t)
  {
    if Took(t) {
      assert t.write.id in t.after.codes;
    }
  }

  lemma CommittedMore(tries: seq<Try>, more: seq<Try>)
    requires |more| <= 1
    ensures Committed(tries + more) == Committed(tries) + Committed(more)
  {
    if |more| == 1 {
      assert (tries + more)[..|tries|] == tries && more[..0] == [];
    } else {
      assert tries + more == tries;
    }
  }

  /** A Create's steps change the tables exactly by the tries that took effect. */
  lemma {:induction false} ChangesAreCommits(c: Checker, t0: Instant, labels: seq<Label>, pid: nat)
    requires StartedAs(labels, pid).Some? && StartedAs(labels, pid).value.Create?
    ensures Changes(c, t0, labels, pid) == |Committed(Tries(c, t0, labels, pid))|
  {
    hide Run, CreateAt, Step, Sound, AllClean, ChangedBy, TriedBy, Committed;
    var front, l := labels[..|labels| - 1], labels[|labels| - 1];
    var s, r := Run(c, t0, front), StartedAs(labels, pid).value;
    assert Changes(c, t0, labels, pid) == Changes(c, t0, front, pid) + ChangedBy(c, s, l, pid);
    assert Tries(c, t0, labels, pid) == Tries(c, t0, front, pid) + TriedBy(c, s, l, pid);
    TriedOnce(c, s, l, pid);
    if StartedAs(front, pid).Some? {
      ChangesAreCommits(c, t0, front, pid);
      RunAt(c, t0, front, pid);
      RunClean(c, t0, front);
      TablesSound(c, t0, front);
      StepChanges(c, r, s, l, pid, Tries(c, t0, front, pid));
      CommittedMore(Tries(c, t0, front, pid), TriedBy(c, s, l, pid));
    } else {
      NotYet(c, t0, front, pid);
      StartChanges(c, s, l, pid);
      assert [] + TriedBy(c, s, l, pid) == TriedBy(c, s, l, pid);
    }
  }

  lemma TriedOnce(c: Checker, s: State, l: Label, pid: nat)
    ensures |TriedBy(c, s, l, pid)| <= 1
  {
    hide Step;
  }

  lemma StartChanges(c: Checker, s: State, l: Label, pid: nat)
    requires l.Start?
    ensures ChangedBy(c, s, l, pid) == 0 && Committed(TriedBy(c, s, l, pid)) == []
  {
  }

  /**
   All or nothing, over every run. Until it is over, and when it is cut off, a Create has committed nothing. It reports
   success exactly when its last statement, its own insert, under a slug free at that step, took effect and was
   acknowledged: then that is the one change it has made. When it reports failure it has changed nothing, unless that
   one statement took effect and its acknowledgement was lost.
   */
  lemma {:induction false} CreateAllOrNothing(c: Checker, t0: Instant, labels: seq<Label>, pid: nat)
    requires StartedAs(labels, pid).Some? && StartedAs(labels, pid).value.Create?
    ensures pid in Run(c, t0, labels).procs
    ensures var r, p, tries := StartedAs(labels, pid).value, Run(c, t0, labels).procs[pid], Tries(c, t0, labels, pid);
            && TriesExact(r, tries)
            && Changes(c, t0, labels, pid) == |Committed(tries)| <= 1
            && (Changes(c, t0, labels, pid) == 1 ==> Committed(tries) == [tries[|tries| - 1]] && p.Finished?)
            && (p == Finished(true) <==> Changes(c, t0, labels, pid) == 1 && tries[|tries| - 1].fault.Fine?)
            && (p == Finished(false) && Changes(c, t0, labels, pid) == 1 ==> tries[|tries| - 1].fault.Unreported?)
  {
    hide Run, Tries, Changes, TriesExact, Accepts;
    RunAt(c, t0, labels, pid);
    ChangesAreCommits(c, t0, labels, pid);
    CommitsAtMostOne(c, StartedAs(labels, pid).value, Run(c, t0, labels).procs[pid], Tries(c, t0, labels, pid));
  }

  lemma CommitsAtMostOne(c: Checker, r: Request, p: Proc, tries: seq<Try>)
    requires r.Create? && CreateAt(c, r, p, tries)
    ensures |Committed(tries)| <= 1
    ensures |Committed(tries)| == 1 ==> Committed(tries) == [tries[|tries| - 1]] && p.Finished?
    ensures p == Finished(true) <==> |Committed(tries)| == 1 && tries[|tries| - 1].fault.Fine?
    ensures p == Finished(false) && |Committed(tries)| == 1 ==> tries[|tries| - 1].fault.Unreported?
  {
    hide TriesExact, Refused, Accepts;
    if tries != [] {
      var n := |tries| - 1;
      if AllCollided(tries, |tries|) {
        CollidedCommitNothing(tries, |tries|);
        assert tries[..|tries|] == tries;
      } else {
        CollidedCommitNothing(tries, n);
      }
    }
  }

  /**
   First free slug, over every run. A Create that was not refused and is over has tried at most five slugs, each after
   the first because the one before was taken at its own step; if no call failed and the ids were new, it succeeded
   exactly when one of the slugs was free when it was tried, and otherwise five were taken.
   */
  lemma {:induction false} FirstFreeSlugWins(c: Checker, t0: Instant, labels: seq<Label>, pid: nat)
    requires StartedAs(labels, pid).Some? && StartedAs(labels, pid).value.Create?
    requires pid in Run(c, t0, labels).procs && Run(c, t0, labels).procs[pid].Finished?
    ensures var r, tries := StartedAs(labels, pid).value, Tries(c, t0, labels, pid);
            var ok := Run(c, t0, labels).procs[pid].ok;
            && (Refused(c, r) <==> tries == [])
            && |tries| <= 5 && AllCollided(tries, Max(0, |tries| - 1))
            && (tries != [] && Collided(tries[|tries| - 1]) ==> |tries| == 5 && !ok)
            && (r.isDynamic && tries != [] && (forall i :: 0 <= i < |tries| ==> Undisturbed(tries[i])) ==>
                  && (ok <==> exists i :: 0 <= i < |tries| && !Collided(tries[i]))
                  && (!ok ==> |tries| == 5 && AllCollided(tries, 5)))
  {
    hide Run, Tries;
    RunAt(c, t0, labels, pid);
    EndedHow(c, StartedAs(labels, pid).value, Run(c, t0, labels).procs[pid].ok, Tries(c, t0, labels, pid));
  }

  /** The call was acknowledged and the id Postgres drew was new. */
  predicate Undisturbed(t: Try) { t.fault.Fine? && t.write.id !in t.before.issued }

  lemma EndedHow(c: Checker, r: Request, ok: bool, tries: seq<Try>)
    requires r.Create? && Ended(c, r, ok, tries) && TriesExact(r, tries)
    requires |tries| <= MAX_SLUG_ATTEMPTS
    ensures Refused(c, r) <==> tries == []
    ensures AllCollided(tries, Max(0, |tries| - 1))
    ensures tries != [] && Collided(tries[|tries| - 1]) ==> |tries| == MAX_SLUG_ATTEMPTS && !ok
    ensures r.isDynamic && tries != [] && (forall i :: 0 <= i < |tries| ==> Undisturbed(tries[i])) ==>
              && (ok <==> exists i :: 0 <= i < |tries| && !Collided(tries[i]))
              && (!ok ==> |tries| == MAX_SLUG_ATTEMPTS && AllCollided(tries, MAX_SLUG_ATTEMPTS))
  {
    hide VerdictOf, Apply;
    if tries != [] {
      var n := |tries| - 1;
      assert OwnInsert(r, tries[n].write);
    }
  }
}
