/**
 Deployment fires at the level of their locks: any number of replicas with stale
 candidates, manual runs, and the routes that archive, pause, unpause and update
 a deployment (internal/api/deploymentscheduler.go:428-574,
 internal/api/deploymentruns.go:60-188, internal/api/deployments.go).
 */
module Scheduler {
  import opened Options

  type DepId = string
  type RunId = string
  type SessionId = string
  type Tx = nat

  datatype Schedule = Schedule(expr: string, tz: string)
  datatype Deployment = Deployment(archived: bool, paused: bool, schedule: Option<Schedule>, resumedAt: int)

  // occ is a scheduled run's occurrence; a manual run has none. against: the
  // deployment's row as the run committed. schedule: the pair its candidate came from.
  datatype Run = Run(
    dep: DepId, occ: Option<int>, session: Option<SessionId>, error: Option<string>,
    schedule: Option<Schedule>, against: Deployment)

  /**
   A fire's open transaction, which holds its deployment's row FOR SHARE.
   run: the run row it has inserted, claiming the occurrence's slot in the unique
   index. made: the session it has created since the savepoint. session, error:
   the run's two columns as settled so far. pauses: it also pauses the deployment.
   */
  datatype Fire = Fire(
    dep: DepId, occ: Option<int>, schedule: Option<Schedule>, run: Option<RunId>, made: Option<SessionId>,
    session: Option<SessionId>, error: Option<string>, pauses: bool)

  datatype State = State(
    deps: map<DepId, Deployment>, runs: map<RunId, Run>, sessions: set<SessionId>, fires: map<Tx, Fire>)

  datatype Action =
    | CreateDeployment(dep: DepId, schedule: Option<Schedule>, now: int)
    | UpdateSchedule(dep: DepId, schedule: Option<Schedule>)
    | ArchiveDeployment(dep: DepId)
    | Pause(dep: DepId)
    | Unpause(dep: DepId, now: int)
    | ReadScheduled(tx: Tx, dep: DepId, candidate: Schedule, occ: int)
    | ReadManual(tx: Tx, dep: DepId)
    | Claim(tx: Tx, run: RunId)
    | MakeSession(tx: Tx, session: SessionId)
    | SettleSession(tx: Tx)
    | SettleError(tx: Tx, error: string, pausing: bool)
    | Commit(tx: Tx)
    | Abort(tx: Tx)

  const Empty: State := State(map[], map[], {}, map[])

  predicate Shared(s: State, dep: DepId, but: set<Tx>) {
    exists t :: t in s.fires && t !in but && s.fires[t].dep == dep
  }

  // A row a fire shares is not written; the writer waits, or gives up without a trace.
  function Write(s: State, dep: DepId, d: Deployment): State {
    if dep !in s.deps || s.deps[dep].archived || Shared(s, dep, {}) then s else s.(deps := s.deps[dep := d])
  }

  // The re-read's answer for a candidate.
  predicate Fits(d: Deployment, schedule: Schedule, occ: int) {
    !d.archived && !d.paused && d.schedule == Some(schedule) && occ > d.resumedAt
  }

  function ReadStep(s: State, tx: Tx, f: Fire, ok: bool): State {
    if tx in s.fires || !ok then s else s.(fires := s.fires[tx := f])
  }

  // A run of the same occurrence, committed or inserted: the unique index keeps a second one out.
  predicate Committed(s: State, dep: DepId, occ: int) {
    exists r :: r in s.runs && s.runs[r].dep == dep && s.runs[r].occ == Some(occ)
  }

  predicate Inserted(s: State, dep: DepId, occ: int) {
    exists t :: t in s.fires && s.fires[t].run.Some? && s.fires[t].dep == dep && s.fires[t].occ == Some(occ)
  }

  predicate IdTaken(s: State, run: RunId) {
    run in s.runs || exists t :: t in s.fires && s.fires[t].run == Some(run)
  }

  predicate SessionTaken(s: State, session: SessionId) {
    session in s.sessions || exists t :: t in s.fires && s.fires[t].made == Some(session)
  }

  predicate Unsettled(f: Fire) {
    f.run.Some? && f.session.None? && f.error.None?
  }

  predicate Claimable(s: State, f: Fire, run: RunId) {
    && f.run.None? && !IdTaken(s, run)
    && (f.occ.Some? ==> !Committed(s, f.dep, f.occ.value) && !Inserted(s, f.dep, f.occ.value))
  }

  function Edit(s: State, tx: Tx, ok: bool, f: Fire): State {
    if tx in s.fires && ok then s.(fires := s.fires[tx := f]) else s
  }

  function CommitStep(s: State, tx: Tx): State {
    if tx !in s.fires || s.fires[tx].run.None? || Unsettled(s.fires[tx]) || s.fires[tx].dep !in s.deps then s
    else
      var f := s.fires[tx];
      // The auto-pause writes the row: no other fire may share it.
      if f.pauses && Shared(s, f.dep, {tx}) then s
      else
        var row := s.deps[f.dep];
        State(
          if f.pauses then s.deps[f.dep := row.(paused := true)] else s.deps,
          s.runs[f.run.value := Run(f.dep, f.occ, f.session, f.error, f.schedule, row)],
          s.sessions + (if f.made.Some? then {f.made.value} else {}),
          s.fires - {tx})
  }

  function Step(s: State, a: Action): State {
    match a
    case CreateDeployment(dep, schedule, now) =>
      if dep in s.deps then s else s.(deps := s.deps[dep := Deployment(false, false, schedule, now)])
    case UpdateSchedule(dep, schedule) =>
      if dep in s.deps then Write(s, dep, s.deps[dep].(schedule := schedule)) else s
    case ArchiveDeployment(dep) => if dep in s.deps then Write(s, dep, s.deps[dep].(archived := true)) else s
    case Pause(dep) => if dep in s.deps then Write(s, dep, s.deps[dep].(paused := true)) else s
    case Unpause(dep, now) =>
      if dep in s.deps && s.deps[dep].paused then Write(s, dep, s.deps[dep].(paused := false, resumedAt := now)) else s
    case ReadScheduled(tx, dep, schedule, occ) =>
      ReadStep(s, tx, Fire(dep, Some(occ), Some(schedule), None, None, None, None, false),
               dep in s.deps && Fits(s.deps[dep], schedule, occ))
    case ReadManual(tx, dep) =>
      ReadStep(s, tx, Fire(dep, None, None, None, None, None, None, false), dep in s.deps && !s.deps[dep].archived)
    case Claim(tx, run) =>
      if tx !in s.fires then s else Edit(s, tx, Claimable(s, s.fires[tx], run), s.fires[tx].(run := Some(run)))
    case MakeSession(tx, session) =>
      if tx !in s.fires then s
      else Edit(s, tx, Unsettled(s.fires[tx]) && s.fires[tx].made.None? && !SessionTaken(s, session),
                s.fires[tx].(made := Some(session)))
    case SettleSession(tx) =>
      if tx !in s.fires then s
      else Edit(s, tx, Unsettled(s.fires[tx]) && s.fires[tx].made.Some?, s.fires[tx].(session := s.fires[tx].made))
    case SettleError(tx, error, pausing) =>
      // ROLLBACK TO SAVEPOINT takes the session back; the run row stays.
      if tx !in s.fires then s
      else Edit(s, tx, Unsettled(s.fires[tx]),
                s.fires[tx].(made := None, error := Some(error), pauses := pausing && s.fires[tx].occ.Some?))
    case Commit(tx) => CommitStep(s, tx)
    case Abort(tx) => s.(fires := s.fires - {tx})
  }

  function RunFrom(s: State, acts: seq<Action>): State {
    if acts == [] then s else Step(RunFrom(s, acts[..|acts| - 1]), acts[|acts| - 1])
  }

  // ---------------------------------------------------------------- what every state keeps

  // What a fire read still holds of the row it shares.
  ghost predicate FireInv(s: State, f: Fire) {
    && f.dep in s.deps && !s.deps[f.dep].archived
    && (f.occ.Some? <==> f.schedule.Some?)
    && (f.occ.Some? ==> Fits(s.deps[f.dep], f.schedule.value, f.occ.value))
    && (f.run.None? ==> f.made.None? && f.session.None? && f.error.None?)
    && (f.session.Some? ==> f.made == f.session && f.error.None?)
    && (f.error.Some? ==> f.made.None?)
    && (f.pauses ==> f.occ.Some?)
  }

  ghost predicate FiresInv(s: State) {
    && (forall t :: t in s.fires ==> FireInv(s, s.fires[t]))
    && (forall t, u :: t in s.fires && u in s.fires && s.fires[t].run.Some? && s.fires[t].run == s.fires[u].run ==> t == u)
    && (forall t, u :: t in s.fires && u in s.fires && s.fires[t].made.Some? && s.fires[t].made == s.fires[u].made ==> t == u)
  }

  // Two fires that have both inserted a run for one occurrence.
  ghost predicate Rivals(f: Fire, g: Fire) {
    f.run.Some? && g.run.Some? && f.occ.Some? && f.occ == g.occ && f.dep == g.dep
  }

  ghost predicate SameOccurrence(r: Run, q: Run) {
    r.occ.Some? && r.occ == q.occ && r.dep == q.dep
  }

  // What an open fire has inserted collides with nothing committed.
  ghost predicate InsertsInv(s: State) {
    && (forall t :: t in s.fires && s.fires[t].run.Some? ==> s.fires[t].run.value !in s.runs)
    && (forall t :: t in s.fires && s.fires[t].made.Some? ==> s.fires[t].made.value !in s.sessions)
    && (forall t :: t in s.fires && s.fires[t].run.Some? && s.fires[t].occ.Some? ==> !Committed(s, s.fires[t].dep, s.fires[t].occ.value))
    && forall t, u :: t in s.fires && u in s.fires && Rivals(s.fires[t], s.fires[u]) ==> t == u
  }

  // A run as the original promises it.
  ghost predicate RunInv(s: State, r: Run) {
    && (r.session.Some? <==> r.error.None?)
    && (r.session.Some? ==> r.session.value in s.sessions)
    && !r.against.archived
    && (r.occ.Some? ==> r.schedule.Some? && Fits(r.against, r.schedule.value, r.occ.value))
  }

  ghost predicate RunsInv(s: State) {
    && (forall r :: r in s.runs ==> RunInv(s, s.runs[r]))
    && (forall r, q :: r in s.runs && q in s.runs && SameOccurrence(s.runs[r], s.runs[q]) ==> r == q)
    && (forall r, q :: r in s.runs && q in s.runs && s.runs[r].session.Some? && s.runs[r].session == s.runs[q].session ==> r == q)
    && forall x :: x in s.sessions ==> exists r :: r in s.runs && s.runs[r].session == Some(x)
  }

  ghost predicate Inv(s: State) {
    FiresInv(s) && InsertsInv(s) && RunsInv(s)
  }
}
