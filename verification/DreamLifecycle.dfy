/**
 One dream as a protocol between replicas: ticks that lock the row and take one
 arm, starts that render unlocked and write under a lock, and the cancel,
 archive and file routes racing them
 (internal/api/dreamrunner.go, internal/api/dreamstart.go, internal/api/dreams.go).
 */
module DreamLifecycle {
  import opened Options

  type StoreId = string
  type FileId = string

  const dreamStartLease: int := 300
  const dreamStartAttempts: nat := 5
  const dreamStageCount: nat := 4

  function TurnCap(stage: nat): nat
    requires 1 <= stage <= dreamStageCount
  {
    [0, 30, 300, 60, 30][stage]
  }

  datatype Status = Pending | Running | Completed | Failed | Canceled

  predicate Terminal(s: Status) {
    s.Completed? || s.Failed? || s.Canceled?
  }

  datatype SessionStatus = Idle | Working | Rescheduling | Terminated

  // stages: the stage messages posted to the primary thread, in order.
  datatype Session = Session(status: SessionStatus, archived: bool, stages: seq<nat>)

  // The dream's row, the session it owns and its transcript rows. lost: the
  // session was deleted in the database, behind the routes that refuse it.
  datatype Dream = Dream(
    status: Status, stage: nat, attempts: nat, createdAt: int, updatedAt: int,
    closed: bool, archived: bool, input: StoreId, target: Option<StoreId>,
    outputs: seq<StoreId>, session: Option<Session>, lost: bool, transcripts: set<FileId>)

  datatype Entry = Claimed(at: int) | Started(files: set<FileId>) | Advanced(stage: nat) | Settled(to: Status) | Closed

  /**
   starting, spent: the attempts whose claimants are rendering, or have failed
   the last attempt and are about to settle the dream. minted: every file id
   ever given out. doomed: the files a delete has found deletable and not yet
   deleted. claims, rendered, history: what committed.
   */
  datatype State = State(
    dream: Dream, starting: set<nat>, spent: set<nat>, minted: set<FileId>, doomed: set<FileId>,
    claims: seq<int>, rendered: set<FileId>, history: seq<Entry>)

  // What one arm reads besides the row. tick: the database clock as the sweep
  // began; now: as its transaction did. status: the session's, read before the
  // rest and possibly stale. after: where an interrupt leaves the session.
  datatype Observed = Observed(
    tick: int, now: int, budget: int, unavailable: bool, status: SessionStatus, failedTurn: bool,
    turns: nat, asks: bool, unanswered: bool, secret: bool, after: SessionStatus)

  datatype Reason =
    | Timeout | AttemptsSpent | Unavailable | SessionTerminated | FailedTurn
    | StageOutOfRange | OverTurns | Asked | StageRefused | Secret

  datatype Verdict =
    | NotMine | RollBack | WindDown | Close | Fail(reason: Reason) | Claim | Busy | Advance | Complete

  datatype Outcome = Died | Errored | Blocked | Classified | Commits(files: set<FileId>, clone: StoreId)

  datatype Action =
    | Arm(o: Observed)
    | FinishStart(attempt: nat, now: int, outcome: Outcome)
    | SettleExhausted(attempt: nat, now: int, died: bool)
    | Cancel(now: int, after: SessionStatus)
    | Archive(now: int)
    | SessionMoves(to: SessionStatus)
    | DeleteSession
    | LoseSession
    | Upload(file: FileId)
    | ApproveDelete(file: FileId)
    | DeleteFile(file: FileId)
    | Purge(file: FileId)

  function Init(createdAt: int, input: StoreId, inPlace: bool): State {
    State(Dream(Pending, 0, 0, createdAt, createdAt, false, false, input,
                if inPlace then Some(input) else None, [], None, false, {}),
          {}, {}, {}, {}, [], {}, [])
  }

  // ---------------------------------------------------------------- the decision table

  // The scan's predicate, read again under the row lock.
  predicate Candidate(d: Dream, tick: int) {
    !d.closed && !(d.status.Pending? && d.attempts > 0 && d.updatedAt > tick - dreamStartLease)
  }

  function Decide(d: Dream, o: Observed): Verdict {
    if !Candidate(d, o.tick) then NotMine
    else if Terminal(d.status) then
      if d.session.Some? && d.session.value.status.Working? then WindDown else Close
    else if o.tick - d.createdAt > o.budget then Fail(Timeout)
    else if d.status.Pending? then
      if d.attempts >= dreamStartAttempts then Fail(AttemptsSpent) else Claim
    else if o.unavailable || d.session.None? then Fail(Unavailable)
    else if o.status.Terminated? then Fail(SessionTerminated)
    else if o.status.Idle? && o.failedTurn then Fail(FailedTurn)
    else DecideTurn(d, o)
  }

  function DecideTurn(d: Dream, o: Observed): Verdict
    requires d.session.Some?
  {
    if d.stage < 1 || d.stage > dreamStageCount then Fail(StageOutOfRange)
    else if o.turns > TurnCap(d.stage) then Fail(OverTurns)
    else if o.status.Working? || o.status.Rescheduling? then Busy
    else if o.asks then Fail(Asked)
    else if d.stage < dreamStageCount then
      var s := d.session.value;
      if s.archived then Fail(StageRefused)
      else if !s.status.Idle? then RollBack
      else if o.unanswered then Fail(StageRefused)
      else Advance
    else if o.secret then Fail(Secret)
    else Complete
  }

  // ---------------------------------------------------------------- the commits

  function Interrupted(s: Option<Session>, after: SessionStatus): Option<Session> {
    if s.Some? && !s.value.archived then Some(s.value.(status := after)) else s
  }

  // dreamSettle: a dream with no session to wind down closes in the same commit.
  function Settle(s: State, to: Status, now: int): State {
    var d := s.dream;
    if d.session.None? then
      s.(dream := d.(status := to, updatedAt := now, closed := true, transcripts := {}),
         history := s.history + [Settled(to), Closed])
    else
      s.(dream := d.(status := to, updatedAt := now), history := s.history + [Settled(to)])
  }

  // dreamFail
  function FailDream(s: State, o: Observed): State {
    var d := s.dream;
    var session := if o.status.Terminated? then d.session else Interrupted(d.session, o.after);
    Settle(s.(dream := d.(session := session)), Failed, o.now)
  }

  function CloseDream(s: State, o: Observed): State {
    var d := s.dream;
    var session := if d.session.Some? then Some(d.session.value.(archived := true)) else d.session;
    s.(dream := d.(session := session, closed := true, updatedAt := o.now, transcripts := {}),
       history := s.history + [Closed])
  }

  function ClaimStart(s: State, now: int): State {
    var d := s.dream;
    s.(dream := d.(attempts := d.attempts + 1, updatedAt := now),
       starting := s.starting + {d.attempts + 1},
       claims := s.claims + [now], history := s.history + [Claimed(now)])
  }

  function AdvanceStage(s: State, now: int): State
    requires s.dream.session.Some?
  {
    var d, p := s.dream, s.dream.session.value;
    s.(dream := d.(stage := d.stage + 1, updatedAt := now,
                   session := Some(p.(status := Working, stages := p.stages + [d.stage + 1]))),
       history := s.history + [Advanced(d.stage + 1)])
  }

  function ArmStep(s: State, o: Observed): State {
    match Decide(s.dream, o)
    case NotMine => s
    case RollBack => s
    case WindDown => s.(dream := s.dream.(session := Interrupted(s.dream.session, o.after), updatedAt := o.now))
    case Close => CloseDream(s, o)
    case Fail(_) => FailDream(s, o)
    case Claim => ClaimStart(s, o.now)
    case Busy => s.(dream := s.dream.(updatedAt := o.now))
    case Advance => AdvanceStage(s, o.now)
    case Complete => Settle(s, Completed, o.now)
  }

  // A dream that never had a session ends and closes in one commit.
  function EndPending(s: State, to: Status, now: int): State {
    s.(dream := s.dream.(status := to, closed := true, updatedAt := now), history := s.history + [Settled(to), Closed])
  }

  // writeDreamStart's commit.
  function CommitStart(s: State, files: set<FileId>, clone: StoreId, now: int): State {
    var d := s.dream;
    s.(dream := d.(status := Running, stage := 1, updatedAt := now,
                   session := Some(Session(Working, false, [1])),
                   outputs := [if d.target.Some? then d.input else clone],
                   transcripts := files),
       minted := s.minted + files, rendered := files, history := s.history + [Started(files)])
  }

  // startDream, from its render to its end. The objects' ids are freshly minted.
  function FinishStartStep(s: State, attempt: nat, now: int, outcome: Outcome): State {
    if attempt !in s.starting then s
    else
      var left := s.(starting := s.starting - {attempt});
      match outcome
      case Died => left
      case Blocked => left
      case Errored => if attempt >= dreamStartAttempts then left.(spent := s.spent + {attempt}) else left
      case Classified => if s.dream.status.Pending? then EndPending(left, Failed, now) else left
      case Commits(files, clone) =>
        if s.dream.status.Pending? && files != {} && files !! s.minted then CommitStart(left, files, clone, now) else left
  }

  function SettleExhaustedStep(s: State, attempt: nat, now: int, died: bool): State {
    if attempt !in s.spent then s
    else
      var left := s.(spent := s.spent - {attempt});
      if s.dream.status.Pending? && !died then EndPending(left, Failed, now) else left
  }

  function CancelStep(s: State, now: int, after: SessionStatus): State {
    match s.dream.status
    case Pending => EndPending(s, Canceled, now)
    case Running =>
      s.(dream := s.dream.(status := Canceled, updatedAt := now, session := Interrupted(s.dream.session, after)),
         history := s.history + [Settled(Canceled)])
    case _ => s
  }

  function ArchiveStep(s: State, now: int): State {
    if s.dream.archived || !Terminal(s.dream.status) then s
    else s.(dream := s.dream.(archived := true, updatedAt := now))
  }

  // A closed log takes no turn; every public route is shut to the session while its dream is open.
  function SessionStep(s: State, to: SessionStatus): State {
    if s.dream.session.None? || (s.dream.session.value.archived && to.Working?) then s
    else s.(dream := s.dream.(session := Some(s.dream.session.value.(status := to))))
  }

  // deleteFile refuses an open dream's transcript, in a read ahead of its own transaction.
  function ApproveStep(s: State, file: FileId): State {
    if file !in s.minted || (file in s.dream.transcripts && !s.dream.closed) then s
    else s.(doomed := s.doomed + {file})
  }

  function DeleteStep(s: State, file: FileId): State {
    if file !in s.doomed then s
    else s.(doomed := s.doomed - {file}, dream := s.dream.(transcripts := s.dream.transcripts - {file}))
  }

  // purgeExpiredFiles exempts an open dream's files in the statement that deletes.
  function PurgeStep(s: State, file: FileId): State {
    if file in s.dream.transcripts && !s.dream.closed then s
    else s.(dream := s.dream.(transcripts := s.dream.transcripts - {file}))
  }

  function Step(s: State, a: Action): State {
    match a
    case Arm(o) => if o.tick <= o.now then ArmStep(s, o) else s
    case FinishStart(attempt, now, outcome) => FinishStartStep(s, attempt, now, outcome)
    case SettleExhausted(attempt, now, died) => SettleExhaustedStep(s, attempt, now, died)
    case Cancel(now, after) => CancelStep(s, now, after)
    case Archive(now) => ArchiveStep(s, now)
    case SessionMoves(to) => SessionStep(s, to)
    case DeleteSession => if s.dream.closed then s.(dream := s.dream.(session := None)) else s
    case LoseSession =>
      if s.dream.session.Some? && !s.dream.closed then s.(dream := s.dream.(session := None, lost := true)) else s
    case Upload(file) => s.(minted := s.minted + {file})
    case ApproveDelete(file) => ApproveStep(s, file)
    case DeleteFile(file) => DeleteStep(s, file)
    case Purge(file) => PurgeStep(s, file)
  }

  // A run: any interleaving; an aborted transaction is a step not taken.
  function Run(s: State, acts: seq<Action>): State {
    if acts == [] then s else Step(Run(s, acts[..|acts| - 1]), acts[|acts| - 1])
  }

  // ---------------------------------------------------------------- what every state keeps

  function UpTo(k: nat): (r: seq<nat>)
    ensures |r| == k && forall i :: 0 <= i < k ==> r[i] == i + 1
  {
    seq(k, i requires 0 <= i < k => i + 1)
  }

  function ClaimEntries(at: seq<int>): seq<Entry> {
    if at == [] then [] else ClaimEntries(at[..|at| - 1]) + [Claimed(at[|at| - 1])]
  }

  // The stages behind the first.
  function Advances(stage: nat): seq<Entry> {
    if stage <= 1 then [] else Advances(stage - 1) + [Advanced(stage)]
  }

  /** The one history a dream can have: claims, then a start and its stages, then a settle, then a close. */
  function Expected(s: State): seq<Entry> {
    Opened(s)
    + (if Terminal(s.dream.status) then [Settled(s.dream.status)] else [])
    + (if s.dream.closed then [Closed] else [])
  }

  function Opened(s: State): seq<Entry> {
    ClaimEntries(s.claims) + (if s.dream.stage > 0 then [Started(s.rendered)] + Advances(s.dream.stage) else [])
  }

  // Each claim at least a lease behind the one before, on the database clock.
  ghost predicate LeaseApart(claims: seq<int>) {
    forall i, j :: 0 <= i < j < |claims| ==> claims[i] + dreamStartLease <= claims[j]
  }

  ghost predicate ClaimsInv(s: State) {
    && |s.claims| == s.dream.attempts <= dreamStartAttempts
    && LeaseApart(s.claims)
    && (s.dream.status.Pending? && s.claims != [] ==> s.claims[|s.claims| - 1] == s.dream.updatedAt)
  }

  ghost predicate RowInv(d: Dream) {
    && d.stage <= dreamStageCount
    && (d.target.Some? ==> d.target.value == d.input)
    && (d.status.Pending? ==> d.stage == 0 && !d.closed && !d.archived)
    && (d.status.Running? ==> d.stage > 0 && !d.closed && !d.archived)
    && (d.status.Completed? ==> d.stage == dreamStageCount)
    && (d.stage == 0 ==> d.outputs == [] && d.session.None? && (d.closed || d.status.Pending?))
    && (d.stage > 0 ==> |d.outputs| == 1 && (d.target.Some? ==> d.outputs == [d.input]))
  }

  ghost predicate SessionInv(d: Dream) {
    && (d.stage > 0 && !d.closed && !d.lost ==> d.session.Some? && !d.session.value.archived)
    && (d.lost ==> d.session.None? && d.stage > 0)
    && (d.session.Some? ==> d.session.value.stages == UpTo(d.stage))
    && (d.closed && d.session.Some? ==> d.session.value.archived && !d.session.value.status.Working?)
  }

  ghost predicate FilesInv(s: State) {
    && s.dream.transcripts == (if s.dream.stage > 0 && !s.dream.closed then s.rendered else {})
    && (s.dream.stage > 0 ==> s.rendered != {})
    && s.rendered <= s.minted && s.doomed <= s.minted
    && s.doomed !! s.dream.transcripts
  }

  ghost predicate Inv(s: State) {
    ClaimsInv(s) && RowInv(s.dream) && SessionInv(s.dream) && FilesInv(s) && s.history == Expected(s)
  }

  // What no step undoes.
  ghost predicate Follows(s: State, t: State) {
    && s.history <= t.history
    && (Terminal(s.dream.status) ==> t.dream.status == s.dream.status)
    && (s.dream.closed ==> t.dream.closed)
    && (s.dream.archived ==> t.dream.archived)
    && s.dream.stage <= t.dream.stage && s.dream.attempts <= t.dream.attempts
    && t.dream.input == s.dream.input && t.dream.target == s.dream.target && t.dream.createdAt == s.dream.createdAt
  }
}
