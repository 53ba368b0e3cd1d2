/** What holds of deployment runs over every interleaving. */
module SchedulerSafety {
  import opened Options
  import opened Scheduler

  // ---------------------------------------------------------------- writers of the row

  // A row nobody shares can be rewritten: every fire is on another deployment.
  lemma WriteKeeps(s: State, dep: DepId, d: Deployment)
    requires Inv(s)
    ensures Inv(Write(s, dep, d))
  {
    hide RunsInv, InsertsInv;
    var t := Write(s, dep, d);
    if t != s {
      forall x | x in t.fires ensures FireInv(t, t.fires[x]) {
        assert FireInv(s, s.fires[x]);
        NotShared(s, dep, x);
      }
      SameRuns(s, t);
    }
  }

  lemma NotShared(s: State, dep: DepId, x: Tx)
    requires !Shared(s, dep, {}) && x in s.fires
    ensures s.fires[x].dep != dep
  {
  }

  lemma SameRuns(s: State, t: State)
    requires t.runs == s.runs && t.sessions == s.sessions
    ensures RunsInv(s) ==> RunsInv(t)
    ensures t.fires == s.fires && InsertsInv(s) ==> InsertsInv(t)
  {
  }

  lemma SameInserts(s: State, t: State)
    requires t.runs == s.runs && t.sessions == s.sessions && InsertsInv(s)
    requires forall x :: x in t.fires ==> x in s.fires && t.fires[x] == s.fires[x]
    ensures InsertsInv(t)
  {
  }

  lemma CreateKeeps(s: State, dep: DepId, d: Deployment)
    requires Inv(s) && dep !in s.deps
    ensures Inv(s.(deps := s.deps[dep := d]))
  {
    hide RunsInv, InsertsInv;
    var t := s.(deps := s.deps[dep := d]);
    forall x | x in t.fires ensures FireInv(t, t.fires[x]) { assert FireInv(s, s.fires[x]); }
    SameRuns(s, t);
  }

  // ---------------------------------------------------------------- a fire's own steps

  lemma AbortKeeps(s: State, tx: Tx)
    requires Inv(s)
    ensures Inv(s.(fires := s.fires - {tx}))
  {
    hide RunsInv, InsertsInv;
    var t := s.(fires := s.fires - {tx});
    forall x | x in t.fires ensures FireInv(t, t.fires[x]) { assert FireInv(s, s.fires[x]); }
    SameRuns(s, t);
    SameInserts(s, t);
  }

  // A fire that inserts nothing the one it replaces did not, but perhaps a fresh session.
  predicate Replaces(s: State, tx: Tx, f: Fire) {
    && (f.run.None? || (tx in s.fires && f.run == s.fires[tx].run && f.occ == s.fires[tx].occ && f.dep == s.fires[tx].dep))
    && (f.made.None? || (tx in s.fires && f.made == s.fires[tx].made) || !SessionTaken(s, f.made.value))
  }

  lemma EditFires(s: State, tx: Tx, f: Fire)
    requires FiresInv(s) && FireInv(s, f) && Replaces(s, tx, f)
    ensures FiresInv(s.(fires := s.fires[tx := f]))
  {
  }

  lemma EditInserts(s: State, tx: Tx, f: Fire)
    requires InsertsInv(s) && Replaces(s, tx, f)
    ensures InsertsInv(s.(fires := s.fires[tx := f]))
  {
    hide Committed, Rivals;
    var t := s.(fires := s.fires[tx := f]);
    forall x | x in t.fires && t.fires[x].run.Some? && t.fires[x].occ.Some?
      ensures !Committed(t, t.fires[x].dep, t.fires[x].occ.value)
    {
      SameCommitted(s, t, t.fires[x].dep, t.fires[x].occ.value);
    }
    forall x, y | x in t.fires && y in t.fires && Rivals(t.fires[x], t.fires[y]) ensures x == y {
      SameRivals(s, tx, f, x, y);
    }
  }

  lemma SameCommitted(s: State, t: State, dep: DepId, occ: int)
    requires t.runs == s.runs
    ensures Committed(t, dep, occ) == Committed(s, dep, occ)
  {
  }

  lemma SameRivals(s: State, tx: Tx, f: Fire, x: Tx, y: Tx)
    requires Replaces(s, tx, f) && (x == tx || x in s.fires) && (y == tx || y in s.fires)
    requires Rivals(if x == tx then f else s.fires[x], if y == tx then f else s.fires[y])
    ensures x in s.fires && y in s.fires && Rivals(s.fires[x], s.fires[y])
  {
  }

  lemma EditKeeps(s: State, tx: Tx, f: Fire)
    requires Inv(s) && FireInv(s, f) && Replaces(s, tx, f)
    ensures Inv(s.(fires := s.fires[tx := f]))
  {
    hide RunsInv, InsertsInv, FiresInv, FireInv, Replaces;
    EditFires(s, tx, f);
    EditInserts(s, tx, f);
    SameRuns(s, s.(fires := s.fires[tx := f]));
  }

  // The claim: the unique index admits one insert per occurrence.
  lemma ClaimFires(s: State, tx: Tx, run: RunId)
    requires FiresInv(s) && tx in s.fires && Claimable(s, s.fires[tx], run)
    ensures FiresInv(s.(fires := s.fires[tx := s.fires[tx].(run := Some(run))]))
  {
  }

  lemma ClaimInserts(s: State, tx: Tx, run: RunId)
    requires InsertsInv(s) && tx in s.fires && Claimable(s, s.fires[tx], run)
    ensures InsertsInv(s.(fires := s.fires[tx := s.fires[tx].(run := Some(run))]))
  {
  }

  lemma ClaimKeeps(s: State, tx: Tx, run: RunId)
    requires Inv(s) && tx in s.fires && Claimable(s, s.fires[tx], run)
    ensures Inv(s.(fires := s.fires[tx := s.fires[tx].(run := Some(run))]))
  {
    hide RunsInv, InsertsInv, FiresInv, Claimable;
    ClaimFires(s, tx, run);
    ClaimInserts(s, tx, run);
    SameRuns(s, s.(fires := s.fires[tx := s.fires[tx].(run := Some(run))]));
  }

  // ---------------------------------------------------------------- the commit

  predicate Commits(s: State, tx: Tx) {
    && tx in s.fires && s.fires[tx].run.Some? && !Unsettled(s.fires[tx]) && s.fires[tx].dep in s.deps
    && !(s.fires[tx].pauses && Shared(s, s.fires[tx].dep, {tx}))
  }

  lemma CommitFires(s: State, tx: Tx)
    requires Inv(s) && Commits(s, tx)
    ensures FiresInv(CommitStep(s, tx))
  {
    hide RunsInv, InsertsInv;
    var t, f := CommitStep(s, tx), s.fires[tx];
    forall x | x in t.fires ensures FireInv(t, t.fires[x]) {
      assert FireInv(s, s.fires[x]);
      if s.fires[x].dep == f.dep { assert Shared(s, f.dep, {tx}); }
    }
  }

  lemma CommitInserts(s: State, tx: Tx)
    requires Inv(s) && Commits(s, tx)
    ensures InsertsInv(CommitStep(s, tx))
  {
    hide RunsInv, Fits;
    var t, f := CommitStep(s, tx), s.fires[tx];
    assert FireInv(s, f);
    forall x | x in t.fires && t.fires[x].run.Some? && t.fires[x].occ.Some?
      ensures !Committed(t, t.fires[x].dep, t.fires[x].occ.value)
    {
      var g := s.fires[x];
      assert !Committed(s, g.dep, g.occ.value);
      assert !Rivals(f, g);
    }
  }

  lemma CommitRuns(s: State, tx: Tx)
    requires Inv(s) && Commits(s, tx)
    ensures RunsInv(CommitStep(s, tx))
  {
    hide Fits;
    var t, f := CommitStep(s, tx), s.fires[tx];
    assert FireInv(s, f);
    var id := f.run.value;
    assert id !in s.runs;
    CommitOneRun(s, tx);
    forall r, q | r in t.runs && q in t.runs && t.runs[r].session.Some? && t.runs[r].session == t.runs[q].session ensures r == q {
      if r in s.runs { assert RunInv(s, s.runs[r]); }
      if q in s.runs { assert RunInv(s, s.runs[q]); }
    }
    forall x | x in t.sessions ensures exists r :: r in t.runs && t.runs[r].session == Some(x) {
      if x in s.sessions {
        var r :| r in s.runs && s.runs[r].session == Some(x);
        assert t.runs[r] == s.runs[r];
      } else {
        assert t.runs[id].session == Some(x);
      }
    }
    forall r | r in t.runs ensures RunInv(t, t.runs[r]) {
      if r in s.runs { assert RunInv(s, s.runs[r]); }
    }
  }

  lemma CommitOneRun(s: State, tx: Tx)
    requires Inv(s) && Commits(s, tx)
    ensures var t := CommitStep(s, tx);
      forall r, q :: r in t.runs && q in t.runs && SameOccurrence(t.runs[r], t.runs[q]) ==> r == q
  {
  }

  lemma CommitKeeps(s: State, tx: Tx)
    requires Inv(s)
    ensures Inv(CommitStep(s, tx))
  {
    hide RunsInv, InsertsInv, FiresInv;
    if Commits(s, tx) {
      CommitFires(s, tx);
      CommitInserts(s, tx);
      CommitRuns(s, tx);
    }
  }

  // ---------------------------------------------------------------- every run

  lemma ReadKeeps(s: State, tx: Tx, f: Fire, ok: bool)
    requires Inv(s) && (ok ==> FireInv(s, f)) && f.run.None? && f.made.None?
    ensures Inv(ReadStep(s, tx, f, ok))
  {
    hide Inv;
    if tx !in s.fires && ok { EditKeeps(s, tx, f); }
  }

  lemma FireStepKeeps(s: State, a: Action)
    requires Inv(s) && (a.Claim? || a.MakeSession? || a.SettleSession? || a.SettleError?)
    ensures Inv(Step(s, a))
  {
    hide RunsInv, InsertsInv, Fits, Claimable, SessionTaken;
    if a.tx in s.fires {
      assert FireInv(s, s.fires[a.tx]);
      var t := Step(s, a);
      if t != s {
        if a.Claim? {
          ClaimKeeps(s, a.tx, a.run);
        } else {
          EditKeeps(s, a.tx, t.fires[a.tx]);
        }
      }
    }
  }

  lemma StepKeeps(s: State, a: Action)
    requires Inv(s)
    ensures Inv(Step(s, a))
  {
    hide Inv, Write, ReadStep, CommitStep, Edit, Claimable, SessionTaken;
    match a
    case CreateDeployment(dep, schedule, now) =>
      if dep !in s.deps { CreateKeeps(s, dep, Deployment(false, false, schedule, now)); }
    case UpdateSchedule(dep, schedule) => if dep in s.deps { WriteKeeps(s, dep, s.deps[dep].(schedule := schedule)); }
    case ArchiveDeployment(dep) => if dep in s.deps { WriteKeeps(s, dep, s.deps[dep].(archived := true)); }
    case Pause(dep) => if dep in s.deps { WriteKeeps(s, dep, s.deps[dep].(paused := true)); }
    case Unpause(dep, now) =>
      if dep in s.deps { WriteKeeps(s, dep, s.deps[dep].(paused := false, resumedAt := now)); }
    case ReadScheduled(tx, dep, candidate, occ) =>
      ReadKeeps(s, tx, Fire(dep, Some(occ), Some(candidate), None, None, None, None, false),
                dep in s.deps && Fits(s.deps[dep], candidate, occ));
    case ReadManual(tx, dep) =>
      ReadKeeps(s, tx, Fire(dep, None, None, None, None, None, None, false), dep in s.deps && !s.deps[dep].archived);
    case Commit(tx) => CommitKeeps(s, tx);
    case Abort(tx) => AbortKeeps(s, tx);
    case _ => FireStepKeeps(s, a);
  }

  lemma {:induction false} RunKeeps(s: State, acts: seq<Action>)
    requires Inv(s)
    ensures Inv(RunFrom(s, acts))
    decreases |acts|
  {
    hide Inv, Step;
    if acts != [] {
      RunKeeps(s, acts[..|acts| - 1]);
      StepKeeps(RunFrom(s, acts[..|acts| - 1]), acts[|acts| - 1]);
    }
  }

  /**
   Whatever the number of replicas, stale candidates and aborted transactions:
   one committed run per deployment and occurrence; every run settled on exactly
   one of session and error; every fired session belonging to exactly one run;
   and every scheduled run committed against a live, unpaused deployment with
   the schedule it was computed from and an occurrence past its resume floor.
   */
  lemma RunsAreSound(acts: seq<Action>)
    ensures var s := RunFrom(Empty, acts);
      && (forall r, q :: r in s.runs && q in s.runs && SameOccurrence(s.runs[r], s.runs[q]) ==> r == q)
      && (forall r :: r in s.runs ==> SoundRun(s, s.runs[r]))
      && (forall r, q :: r in s.runs && q in s.runs && s.runs[r].session.Some? && s.runs[r].session == s.runs[q].session ==> r == q)
      && (forall x :: x in s.sessions ==> exists r :: r in s.runs && s.runs[r].session == Some(x))
  {
    hide RunInv, SoundRun;
    EmptyHolds();
    RunKeeps(Empty, acts);
    var s := RunFrom(Empty, acts);
    forall r | r in s.runs ensures SoundRun(s, s.runs[r]) { RunIsSound(s, s.runs[r]); }
  }

  // One of session and error, the session stored, and a scheduled run's deployment
  // live, unpaused, on the schedule of the candidate, and resumed before the occurrence.
  ghost predicate SoundRun(s: State, r: Run) {
    && (if r.session.Some? then r.error.None? && r.session.value in s.sessions else r.error.Some?)
    && !r.against.archived
    && (r.occ.Some? ==> !r.against.paused && r.schedule.Some? && r.against.schedule == r.schedule && r.against.resumedAt < r.occ.value)
  }

  lemma RunIsSound(s: State, r: Run)
    requires RunInv(s, r)
    ensures SoundRun(s, r)
  {
  }

  lemma EmptyHolds()
    ensures Inv(Empty)
  {
  }

  // ---------------------------------------------------------------- what later runs can be

  // The runs a step adds, and against which row.
  lemma StepAdds(s: State, a: Action, r: RunId)
    requires Inv(s) && r in Step(s, a).runs
    ensures r in s.runs ==> Step(s, a).runs[r] == s.runs[r]
    ensures r !in s.runs ==> Step(s, a).runs[r].dep in s.deps && Step(s, a).runs[r].against == s.deps[Step(s, a).runs[r].dep]
  {
    hide RunsInv, FireInv;
  }

  lemma StepRow(s: State, a: Action, dep: DepId)
    requires dep in s.deps
    ensures dep in Step(s, a).deps
    ensures s.deps[dep].archived ==> Step(s, a).deps[dep] == s.deps[dep] || !Inv(s)
    ensures !(a.Unpause? && a.dep == dep) ==> Step(s, a).deps[dep].resumedAt == s.deps[dep].resumedAt
  {
    if a.Commit? && Commits(s, a.tx) && Inv(s) { assert FireInv(s, s.fires[a.tx]); }
  }

  /** Nothing fires once a deployment is archived: its runs are the runs it had. */
  lemma {:induction false} NothingAfterArchive(s: State, acts: seq<Action>, dep: DepId, r: RunId)
    requires Inv(s) && dep in s.deps && s.deps[dep].archived
    requires r in RunFrom(s, acts).runs && RunFrom(s, acts).runs[r].dep == dep
    ensures r in s.runs && s.runs[r] == RunFrom(s, acts).runs[r]
    decreases |acts|
  {
    hide Inv, Step;
    if acts != [] {
      var mid, a := RunFrom(s, acts[..|acts| - 1]), acts[|acts| - 1];
      RunKeeps(s, acts[..|acts| - 1]);
      ArchivedStays(s, acts[..|acts| - 1], dep);
      StepAdds(mid, a, r);
      RunKeeps(s, acts);
      NewRunLive(Step(mid, a), r);
      if r in mid.runs { NothingAfterArchive(s, acts[..|acts| - 1], dep, r); }
    }
  }

  lemma NewRunLive(s: State, r: RunId)
    requires Inv(s) && r in s.runs
    ensures !s.runs[r].against.archived
    ensures s.runs[r].occ.Some? ==> s.runs[r].occ.value > s.runs[r].against.resumedAt
  {
  }

  lemma {:induction false} ArchivedStays(s: State, acts: seq<Action>, dep: DepId)
    requires Inv(s) && dep in s.deps && s.deps[dep].archived
    ensures dep in RunFrom(s, acts).deps && RunFrom(s, acts).deps[dep].archived
    decreases |acts|
  {
    hide Inv, Step;
    if acts != [] {
      ArchivedStays(s, acts[..|acts| - 1], dep);
      RunKeeps(s, acts[..|acts| - 1]);
      StepRow(RunFrom(s, acts[..|acts| - 1]), acts[|acts| - 1], dep);
    }
  }

  lemma {:induction false} FloorStays(s: State, acts: seq<Action>, dep: DepId)
    requires dep in s.deps && forall i :: 0 <= i < |acts| ==> !(acts[i].Unpause? && acts[i].dep == dep)
    ensures dep in RunFrom(s, acts).deps && RunFrom(s, acts).deps[dep].resumedAt == s.deps[dep].resumedAt
    decreases |acts|
  {
    hide Inv, Step;
    if acts != [] {
      FloorStays(s, acts[..|acts| - 1], dep);
      StepRow(RunFrom(s, acts[..|acts| - 1]), acts[|acts| - 1], dep);
    }
  }

  /** Missed triggers are not backfilled: until the next unpause, whatever fires fell due behind the stored floor. */
  lemma {:induction false} NotBackfilled(s: State, acts: seq<Action>, dep: DepId, r: RunId)
    requires Inv(s) && dep in s.deps && forall i :: 0 <= i < |acts| ==> !(acts[i].Unpause? && acts[i].dep == dep)
    requires r in RunFrom(s, acts).runs && r !in s.runs
    requires RunFrom(s, acts).runs[r].dep == dep && RunFrom(s, acts).runs[r].occ.Some?
    ensures RunFrom(s, acts).runs[r].occ.value > s.deps[dep].resumedAt
    decreases |acts|
  {
    hide Inv, Step;
    var before := acts[..|acts| - 1];
    var mid, a := RunFrom(s, before), acts[|acts| - 1];
    RunKeeps(s, before);
    RunKeeps(s, acts);
    StepAdds(mid, a, r);
    FloorStays(s, before, dep);
    NewRunLive(RunFrom(s, acts), r);
    if r in mid.runs { NotBackfilled(s, before, dep, r); }
  }
}
