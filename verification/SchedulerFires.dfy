/** What the routes and the fires do when nothing stands in their way, and what follows from each until it is undone. */
module SchedulerFires {
  import opened Options
  import opened Scheduler
  import opened SchedulerSafety

  // A deployment a writer can reach: there, live, and shared by no fire.
  predicate Writable(s: State, dep: DepId) {
    dep in s.deps && !s.deps[dep].archived && !Shared(s, dep, {})
  }

  predicate Others(s: State, t: State, dep: DepId) {
    && t.runs == s.runs && t.sessions == s.sessions && t.fires == s.fires && t.deps.Keys == s.deps.Keys
    && forall d :: d in s.deps && d != dep ==> t.deps[d] == s.deps[d]
  }

  /** Each route writes its own columns of its own row: a pause never moves the floor, an unpause always does, and neither twice. */
  lemma RoutesWrite(s: State, dep: DepId, now: int, schedule: Option<Schedule>)
    requires Writable(s, dep)
    ensures var t := Step(s, Pause(dep));
      Others(s, t, dep) && t.deps[dep] == Deployment(false, true, s.deps[dep].schedule, s.deps[dep].resumedAt)
    ensures var t := Step(s, Unpause(dep, now)); s.deps[dep].paused ==>
      Others(s, t, dep) && t.deps[dep] == Deployment(false, false, s.deps[dep].schedule, now)
    ensures !s.deps[dep].paused ==> Step(s, Unpause(dep, now)) == s
    ensures var t := Step(s, ArchiveDeployment(dep));
      Others(s, t, dep) && t.deps[dep].archived && t.deps[dep].paused == s.deps[dep].paused
    ensures var t := Step(s, UpdateSchedule(dep, schedule));
      Others(s, t, dep) && t.deps[dep] == Deployment(false, s.deps[dep].paused, schedule, s.deps[dep].resumedAt)
  {
  }

  /** Archived is final, and a row some fire shares is not written under it. */
  lemma RoutesWait(s: State, dep: DepId, a: Action)
    requires dep in s.deps && (s.deps[dep].archived || Shared(s, dep, {}))
    requires a == Pause(dep) || a == ArchiveDeployment(dep) || (a.Unpause? && a.dep == dep) || (a.UpdateSchedule? && a.dep == dep)
    ensures Step(s, a) == s
  {
  }

  // ---------------------------------------------------------------- until it is undone

  /**
   Unpause resumes from the next occurrence: whatever was missed in the pause,
   every scheduled run committed after it, until another unpause, fell due after it.
   */
  lemma UnpauseForgets(s: State, dep: DepId, now: int, acts: seq<Action>, r: RunId)
    requires Inv(s) && Writable(s, dep) && s.deps[dep].paused
    requires forall i :: 0 <= i < |acts| ==> !(acts[i].Unpause? && acts[i].dep == dep)
    requires var end := RunFrom(Step(s, Unpause(dep, now)), acts);
      r in end.runs && r !in s.runs && end.runs[r].dep == dep && end.runs[r].occ.Some?
    ensures RunFrom(Step(s, Unpause(dep, now)), acts).runs[r].occ.value > now
  {
    hide Inv;
    StepKeeps(s, Unpause(dep, now));
    NotBackfilled(Step(s, Unpause(dep, now)), acts, dep, r);
  }

  /** Nor does a new deployment fire what predates it. */
  lemma NewDeploymentForgets(s: State, dep: DepId, schedule: Option<Schedule>, now: int, acts: seq<Action>, r: RunId)
    requires Inv(s) && dep !in s.deps
    requires forall i :: 0 <= i < |acts| ==> !(acts[i].Unpause? && acts[i].dep == dep)
    requires var end := RunFrom(Step(s, CreateDeployment(dep, schedule, now)), acts);
      r in end.runs && r !in s.runs && end.runs[r].dep == dep && end.runs[r].occ.Some?
    ensures RunFrom(Step(s, CreateDeployment(dep, schedule, now)), acts).runs[r].occ.value > now
  {
    hide Inv;
    StepKeeps(s, CreateDeployment(dep, schedule, now));
    NotBackfilled(Step(s, CreateDeployment(dep, schedule, now)), acts, dep, r);
  }

  lemma StepPaused(s: State, a: Action, dep: DepId)
    requires dep in s.deps && s.deps[dep].paused && !(a.Unpause? && a.dep == dep)
    ensures dep in Step(s, a).deps && Step(s, a).deps[dep].paused
  {
  }

  lemma {:induction false} PausedStays(s: State, acts: seq<Action>, dep: DepId)
    requires dep in s.deps && s.deps[dep].paused
    requires forall i :: 0 <= i < |acts| ==> !(acts[i].Unpause? && acts[i].dep == dep)
    ensures dep in RunFrom(s, acts).deps && RunFrom(s, acts).deps[dep].paused
    decreases |acts|
  {
    hide Step;
    if acts != [] {
      PausedStays(s, acts[..|acts| - 1], dep);
      StepPaused(RunFrom(s, acts[..|acts| - 1]), acts[|acts| - 1], dep);
    }
  }

  lemma ScheduledLive(s: State, r: RunId)
    requires Inv(s) && r in s.runs && s.runs[r].occ.Some?
    ensures !s.runs[r].against.paused && s.runs[r].schedule.Some? && s.runs[r].against.schedule == s.runs[r].schedule
  {
    assert RunInv(s, s.runs[r]);
  }

  /** While a deployment is paused, by hand or by a fire, only manual runs are added to it. */
  lemma {:induction false} PausedFiresNothing(s: State, acts: seq<Action>, dep: DepId, r: RunId)
    requires Inv(s) && dep in s.deps && s.deps[dep].paused
    requires forall i :: 0 <= i < |acts| ==> !(acts[i].Unpause? && acts[i].dep == dep)
    requires r in RunFrom(s, acts).runs && r !in s.runs && RunFrom(s, acts).runs[r].dep == dep
    ensures RunFrom(s, acts).runs[r].occ.None?
    decreases |acts|
  {
    hide Inv, Step;
    var before := acts[..|acts| - 1];
    var mid, a := RunFrom(s, before), acts[|acts| - 1];
    RunKeeps(s, before);
    RunKeeps(s, acts);
    StepAdds(mid, a, r);
    PausedStays(s, before, dep);
    if r in mid.runs {
      PausedFiresNothing(s, before, dep, r);
    } else if RunFrom(s, acts).runs[r].occ.Some? {
      ScheduledLive(RunFrom(s, acts), r);
    }
  }

  lemma StepSchedule(s: State, a: Action, dep: DepId)
    requires dep in s.deps && !(a.UpdateSchedule? && a.dep == dep)
    ensures dep in Step(s, a).deps && Step(s, a).deps[dep].schedule == s.deps[dep].schedule
  {
  }

  lemma {:induction false} ScheduleStays(s: State, acts: seq<Action>, dep: DepId)
    requires dep in s.deps && forall i :: 0 <= i < |acts| ==> !(acts[i].UpdateSchedule? && acts[i].dep == dep)
    ensures dep in RunFrom(s, acts).deps && RunFrom(s, acts).deps[dep].schedule == s.deps[dep].schedule
    decreases |acts|
  {
    hide Step;
    if acts != [] {
      ScheduleStays(s, acts[..|acts| - 1], dep);
      StepSchedule(RunFrom(s, acts[..|acts| - 1]), acts[|acts| - 1], dep);
    }
  }

  /** A replaced schedule fires no more: until the next update every new scheduled run is of the stored one. */
  lemma {:induction false} OldScheduleFiresNothing(s: State, acts: seq<Action>, dep: DepId, r: RunId)
    requires Inv(s) && dep in s.deps && forall i :: 0 <= i < |acts| ==> !(acts[i].UpdateSchedule? && acts[i].dep == dep)
    requires r in RunFrom(s, acts).runs && r !in s.runs && RunFrom(s, acts).runs[r].dep == dep && RunFrom(s, acts).runs[r].occ.Some?
    ensures RunFrom(s, acts).runs[r].schedule == s.deps[dep].schedule
    decreases |acts|
  {
    hide Inv, Step;
    var before := acts[..|acts| - 1];
    var mid, a := RunFrom(s, before), acts[|acts| - 1];
    RunKeeps(s, before);
    RunKeeps(s, acts);
    StepAdds(mid, a, r);
    ScheduleStays(s, before, dep);
    ScheduledLive(RunFrom(s, acts), r);
    if r in mid.runs { OldScheduleFiresNothing(s, before, dep, r); }
  }

  // ---------------------------------------------------------------- a fire, start to end

  // A candidate the row as it stands still wants, and no one has claimed.
  predicate Due(s: State, dep: DepId, schedule: Schedule, occ: int) {
    && dep in s.deps && !s.deps[dep].archived && !s.deps[dep].paused
    && s.deps[dep].schedule == Some(schedule) && occ > s.deps[dep].resumedAt
    && !Committed(s, dep, occ) && !Inserted(s, dep, occ)
  }

  function Opened(s: State, tx: Tx, dep: DepId, occ: Option<int>, schedule: Option<Schedule>, run: RunId): State {
    var read := if occ.Some? && schedule.Some? then ReadScheduled(tx, dep, schedule.value, occ.value) else ReadManual(tx, dep);
    Step(Step(s, read), Claim(tx, run))
  }

  lemma OpenedIs(s: State, tx: Tx, dep: DepId, occ: Option<int>, schedule: Option<Schedule>, run: RunId)
    requires tx !in s.fires && !IdTaken(s, run) && (occ.Some? <==> schedule.Some?)
    requires if occ.Some? then Due(s, dep, schedule.value, occ.value) else dep in s.deps && !s.deps[dep].archived
    ensures Opened(s, tx, dep, occ, schedule, run) == s.(fires := s.fires[tx := Fire(dep, occ, schedule, Some(run), None, None, None, false)])
  {
    var f := Fire(dep, occ, schedule, None, None, None, None, false);
    var t := s.(fires := s.fires[tx := f]);
    assert t.fires[tx] == f;
    assert !IdTaken(t, run);
    assert occ.Some? ==> !Committed(t, dep, occ.value) && !Inserted(t, dep, occ.value);
  }

  // What the commit of a settled fire writes.
  lemma CommitIs(s: State, tx: Tx, g: Fire)
    requires tx !in s.fires && g.run.Some? && !Unsettled(g) && g.dep in s.deps && (g.pauses ==> !Shared(s, g.dep, {}))
    ensures CommitStep(s.(fires := s.fires[tx := g]), tx) == State(
      if g.pauses then s.deps[g.dep := s.deps[g.dep].(paused := true)] else s.deps,
      s.runs[g.run.value := Run(g.dep, g.occ, g.session, g.error, g.schedule, s.deps[g.dep])],
      s.sessions + (if g.made.Some? then {g.made.value} else {}), s.fires)
  {
    var d := s.(fires := s.fires[tx := g]);
    if g.pauses { AloneShares(s, d, tx, g.dep); }
    assert d.fires - {tx} == s.fires;
  }

  // An open fire makes its session, and settles on it or on an error.
  lemma SettledIs(s: State, tx: Tx, f: Fire, session: SessionId, error: string, pausing: bool)
    requires tx !in s.fires && Unsettled(f) && f.made.None? && !SessionTaken(s, session)
    ensures var m := Step(s.(fires := s.fires[tx := f]), MakeSession(tx, session));
      && Step(m, SettleSession(tx)) == s.(fires := s.fires[tx := f.(made := Some(session), session := Some(session))])
      && Step(m, SettleError(tx, error, pausing)) == s.(fires := s.fires[tx := f.(error := Some(error), pauses := pausing && f.occ.Some?)])
  {
    hide CommitStep;
    var o := s.(fires := s.fires[tx := f]);
    assert !SessionTaken(o, session);
    var m := Step(o, MakeSession(tx, session));
    assert m == s.(fires := s.fires[tx := f.(made := Some(session))]);
  }

  lemma CommitsBy(s: State, tx: Tx)
    ensures Step(s, Commit(tx)) == CommitStep(s, tx)
  {
    hide CommitStep;
  }

  /** A fire that meets no refusal commits its run with its session, against the row as it stands, and changes nothing else. */
  lemma FireGoesThrough(s: State, tx: Tx, dep: DepId, occ: Option<int>, schedule: Option<Schedule>, run: RunId, session: SessionId)
    requires tx !in s.fires && !IdTaken(s, run) && !SessionTaken(s, session) && (occ.Some? <==> schedule.Some?)
    requires if occ.Some? then Due(s, dep, schedule.value, occ.value) else dep in s.deps && !s.deps[dep].archived
    ensures var end := Step(Step(Step(Opened(s, tx, dep, occ, schedule, run), MakeSession(tx, session)), SettleSession(tx)), Commit(tx));
      end == State(s.deps, s.runs[run := Run(dep, occ, Some(session), None, schedule, s.deps[dep])], s.sessions + {session}, s.fires)
  {
    hide Due, Step, CommitStep, Opened, SessionTaken, IdTaken;
    OpenedIs(s, tx, dep, occ, schedule, run);
    DueThere(s, dep, occ, schedule);
    var f := Fire(dep, occ, schedule, Some(run), None, None, None, false);
    var g := f.(made := Some(session), session := Some(session));
    SettledIs(s, tx, f, session, "", false);
    CommitsBy(s.(fires := s.fires[tx := g]), tx);
    CommitIs(s, tx, g);
  }

  lemma DueThere(s: State, dep: DepId, occ: Option<int>, schedule: Option<Schedule>)
    requires occ.Some? <==> schedule.Some?
    requires if occ.Some? then Due(s, dep, schedule.value, occ.value) else dep in s.deps && !s.deps[dep].archived
    ensures dep in s.deps
  {
  }

  /**
   A fire whose session create is refused commits its run with the error and no
   session, and a scheduled one pauses its deployment for a pausing error; a
   manual one never does.
   */
  lemma RefusedFireSettles(s: State, tx: Tx, dep: DepId, occ: Option<int>, schedule: Option<Schedule>, run: RunId, session: SessionId,
                           error: string, pausing: bool)
    requires tx !in s.fires && !IdTaken(s, run) && !SessionTaken(s, session) && (occ.Some? <==> schedule.Some?)
    requires if occ.Some? then Due(s, dep, schedule.value, occ.value) else dep in s.deps && !s.deps[dep].archived
    requires pausing && occ.Some? ==> !Shared(s, dep, {})
    ensures var end := Step(Step(Step(Opened(s, tx, dep, occ, schedule, run), MakeSession(tx, session)), SettleError(tx, error, pausing)), Commit(tx));
      && end.runs == s.runs[run := Run(dep, occ, None, Some(error), schedule, s.deps[dep])]
      && end.sessions == s.sessions && end.fires == s.fires
      && end.deps == if pausing && occ.Some? then s.deps[dep := s.deps[dep].(paused := true)] else s.deps
  {
    hide Due, Step, CommitStep, Opened, SessionTaken, IdTaken;
    OpenedIs(s, tx, dep, occ, schedule, run);
    DueThere(s, dep, occ, schedule);
    var f := Fire(dep, occ, schedule, Some(run), None, None, None, false);
    var g := f.(error := Some(error), pauses := pausing && occ.Some?);
    SettledIs(s, tx, f, session, error, pausing);
    CommitsBy(s.(fires := s.fires[tx := g]), tx);
    CommitIs(s, tx, g);
  }

  lemma AloneShares(s: State, d: State, tx: Tx, dep: DepId)
    requires !Shared(s, dep, {}) && tx in d.fires && d.fires == s.fires[tx := d.fires[tx]]
    ensures !Shared(d, dep, {tx})
  {
  }

  /** A stale candidate opens nothing: archived, paused, on another schedule, or not past the floor. */
  lemma StaleOpensNothing(s: State, tx: Tx, dep: DepId, schedule: Schedule, occ: int)
    requires dep in s.deps ==> s.deps[dep].archived || s.deps[dep].paused || s.deps[dep].schedule != Some(schedule) || occ <= s.deps[dep].resumedAt
    ensures Step(s, ReadScheduled(tx, dep, schedule, occ)) == s
  {
  }

  /** Of two open fires for one occurrence, the second to claim gets nothing. */
  lemma SecondClaimLoses(s: State, tx: Tx, run: RunId)
    requires tx in s.fires && s.fires[tx].occ.Some?
    requires Committed(s, s.fires[tx].dep, s.fires[tx].occ.value) || Inserted(s, s.fires[tx].dep, s.fires[tx].occ.value)
    ensures Step(s, Claim(tx, run)) == s
  {
  }
}
