/** Every request comes to an end in a few of its own steps, whatever fails and whatever else runs. */
module Progress {
  import opened Rfc3339
  import opened Cursor
  import opened Tables
  import opened Safety
  import opened Protocol
  import opened Sequential

  /** The most steps a request still takes. */
  function StepsLeft(p: Proc): nat {
    match p
    case Looking(_) => 3
    case Querying(_) => 2
    case Storing(_, _, _, _) => 1
    case Gating(_, next) => if next.ToReport? then 2 else if next.ToInsert? then 7 else 6
    case Vetting(_, next) => if next.ToReport? then 1 else if next.ToInsert? then 6 else 5
    case Creating(_, _, _) => 8
    case Inserting(_, _, attempt) => if attempt < MAX_SLUG_ATTEMPTS then MAX_SLUG_ATTEMPTS + 1 - attempt else 1
    case Loading(_, _, _, _) => 7
    case Retargeting(_, _, _, _, _) => 4
    case Relabelling(_, _, _) => 2
    case Reloading(_, _) => 1
    case Finding(_, _) => 3
    case Deleting(_, _, _) => 2
    case Invalidating(_, _, after) => if after.ToRelabel? then 3 else 1
    case _ => 0
  }

  /** pid has come closer to its end, and nobody else has moved. */
  predicate Closer(s: State, s': State, pid: nat) {
    && pid in s.procs && s'.procs.Keys == s.procs.Keys
    && StepsLeft(s'.procs[pid]) < StepsLeft(s.procs[pid])
    && forall q <- s.procs :: q != pid ==> s'.procs[q] == s.procs[q]
  }

  lemma ResolveCloser(s: State, pid: nat, p: Proc, fault: Fault)
    requires pid in s.procs && s.procs[pid] == p && (p.Looking? || p.Querying? || p.Storing?)
    ensures Closer(s, ActResolve(s, pid, p, fault), pid)
  {
    hide ResolveSlug, Live;
  }

  lemma GateCloser(c: Checker, s: State, pid: nat, p: Proc, fault: Fault)
    requires pid in s.procs && s.procs[pid] == p && (p.Gating? || p.Vetting?)
    ensures Closer(s, ActGate(c, s, pid, p, fault), pid)
  {
    hide VerdictOf;
  }

  lemma CreateCloser(s: State, pid: nat, p: Proc, fault: Fault, id: Uuid, slug: string)
    requires pid in s.procs && s.procs[pid] == p && (p.Creating? || p.Inserting?)
    ensures Closer(s, ActCreate(s, pid, p, fault, id, slug), pid)
  {
    hide Apply, Accepts, Affects;
  }

  lemma UpdateCloser(s: State, pid: nat, p: Proc, fault: Fault)
    requires pid in s.procs && s.procs[pid] == p
    requires p.Loading? || p.Retargeting? || p.Relabelling? || p.Reloading?
    ensures Closer(s, ActUpdate(s, pid, p, fault), pid)
  {
    hide Apply, Accepts, Affects;
  }

  lemma DeleteCloser(s: State, pid: nat, p: Proc, fault: Fault)
    requires pid in s.procs && s.procs[pid] == p && (p.Finding? || p.Deleting?)
    ensures Closer(s, ActDelete(s, pid, p, fault), pid)
  {
    hide Apply, Accepts, Affects;
  }

  lemma InvalidateCloser(s: State, pid: nat, p: Proc, fault: Fault)
    requires pid in s.procs && s.procs[pid] == p && p.Invalidating?
    ensures Closer(s, ActInvalidate(s, pid, p, fault), pid)
  {
  }

  lemma ActCloser(c: Checker, s: State, pid: nat, p: Proc, fault: Fault, id: Uuid, slug: string)
    requires pid in s.procs && s.procs[pid] == p
    ensures if Active(p) then Closer(s, Act(c, s, pid, p, fault, id, slug), pid)
            else Act(c, s, pid, p, fault, id, slug) == s
  {
    hide ActResolve, ActGate, ActCreate, ActUpdate, ActDelete, ActInvalidate, Closer;
    match p
    case Looking(_) => ResolveCloser(s, pid, p, fault);
    case Querying(_) => ResolveCloser(s, pid, p, fault);
    case Storing(_, _, _, _) => ResolveCloser(s, pid, p, fault);
    case Gating(_, _) => GateCloser(c, s, pid, p, fault);
    case Vetting(_, _) => GateCloser(c, s, pid, p, fault);
    case Creating(_, _, _) => CreateCloser(s, pid, p, fault, id, slug);
    case Inserting(_, _, _) => CreateCloser(s, pid, p, fault, id, slug);
    case Loading(_, _, _, _) => UpdateCloser(s, pid, p, fault);
    case Retargeting(_, _, _, _, _) => UpdateCloser(s, pid, p, fault);
    case Relabelling(_, _, _) => UpdateCloser(s, pid, p, fault);
    case Reloading(_, _) => UpdateCloser(s, pid, p, fault);
    case Finding(_, _) => DeleteCloser(s, pid, p, fault);
    case Deleting(_, _, _) => DeleteCloser(s, pid, p, fault);
    case Invalidating(_, _, _) => InvalidateCloser(s, pid, p, fault);
    case _ =>
  }

  /** No step takes a request away from its end, and each of its own brings it closer. */
  lemma StepCloser(c: Checker, s: State, l: Label, pid: nat)
    requires pid in s.procs
    ensures pid in Step(c, s, l).procs
    ensures var before, after := StepsLeft(s.procs[pid]), StepsLeft(Step(c, s, l).procs[pid]);
            after <= before && (l.Advance? && l.pid == pid && before > 0 ==> after < before)
  {
    hide Act, StepsLeft;
    match l
    case Advance(q, fault, id, slug) =>
      if q in s.procs {
        ActCloser(c, s, q, s.procs[q], fault, id, slug);
        OnlyActiveHaveSteps(s.procs[q]);
      }
    case Abort(q) => CutCloser(s, q, pid);
    case _ =>
  }

  lemma CutCloser(s: State, q: nat, pid: nat)
    requires pid in s.procs
    ensures pid in Cut(s, q).procs && StepsLeft(Cut(s, q).procs[pid]) <= StepsLeft(s.procs[pid])
  {
  }

  lemma OnlyActiveHaveSteps(p: Proc)
    ensures StepsLeft(p) > 0 <==> Active(p)
  {
  }

  /** How many of the labels are steps of pid. */
  function Turns(labels: seq<Label>, pid: nat): nat {
    if labels == [] then 0
    else
      var l := labels[|labels| - 1];
      Turns(labels[..|labels| - 1], pid) + if l.Advance? && l.pid == pid then 1 else 0
  }

  lemma {:induction false} TurnsCount(c: Checker, t0: Instant, labels: seq<Label>, k: nat, pid: nat)
    requires k <= |labels| && pid in Run(c, t0, labels[..k]).procs
    ensures pid in Run(c, t0, labels).procs
    ensures var before, after := StepsLeft(Run(c, t0, labels[..k]).procs[pid]),
                                 StepsLeft(Run(c, t0, labels).procs[pid]);
            after == 0 || after + Turns(labels[k..], pid) <= before
  {
    hide Step, StepsLeft;
    if k == |labels| {
      assert labels[..k] == labels;
    } else {
      var front, l := labels[..|labels| - 1], labels[|labels| - 1];
      assert front[..k] == labels[..k];
      TurnsCount(c, t0, front, k, pid);
      StepCloser(c, Run(c, t0, front), l, pid);
      assert labels[k..][..|labels[k..]| - 1] == front[k..];
    }
  }

  /**
   Progress: from any moment of any run, a request that is given as many steps as it has left, eight at most and three
   for a redirect, has settled, whatever fails and whatever other requests do in between.
   */
  lemma {:induction false} RequestsSettle(c: Checker, t0: Instant, labels: seq<Label>, k: nat, pid: nat)
    requires k <= |labels| && pid in Run(c, t0, labels[..k]).procs
    requires Turns(labels[k..], pid) >= StepsLeft(Run(c, t0, labels[..k]).procs[pid])
    ensures pid in Run(c, t0, labels).procs && !Active(Run(c, t0, labels).procs[pid])
    ensures StepsLeft(Run(c, t0, labels[..k]).procs[pid]) <= 8
  {
    hide Run, StepsLeft;
    TurnsCount(c, t0, labels, k, pid);
    OnlyActiveHaveSteps(Run(c, t0, labels).procs[pid]);
    AtMostEight(Run(c, t0, labels[..k]).procs[pid]);
  }

  lemma AtMostEight(p: Proc)
    ensures StepsLeft(p) <= 8 && (p.Looking? ==> StepsLeft(p) == 3)
  {
  }
}
