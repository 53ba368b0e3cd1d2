/** What holds of a dream in every state of every run. */
module DreamSafety {
  import opened Options
  import opened DreamLifecycle

  ghost predicate Keeps(s: State, t: State) {
    Inv(t) && Follows(s, t)
  }

  // ---------------------------------------------------------------- one commit at a time

  lemma SettleKeeps(s: State, to: Status, now: int)
    requires Inv(s) && s.dream.status.Running? && Terminal(to)
    requires to.Completed? ==> s.dream.stage == dreamStageCount
    ensures Keeps(s, Settle(s, to, now))
  {
  }

  lemma EndPendingKeeps(s: State, to: Status, now: int)
    requires Inv(s) && s.dream.status.Pending? && (to.Failed? || to.Canceled?)
    ensures Keeps(s, EndPending(s, to, now))
  {
  }

  // Touching the session's status, or a timestamp of a dream past its start, keeps everything.
  lemma TouchKeeps(s: State, t: State)
    requires Inv(s) && !s.dream.status.Pending?
    requires t == s.(dream := s.dream.(updatedAt := t.dream.updatedAt, archived := t.dream.archived, session := t.dream.session, lost := t.dream.lost))
    requires s.dream.archived ==> t.dream.archived
    requires t.dream.archived ==> Terminal(s.dream.status)
    requires SessionInv(t.dream) && (s.dream.stage == 0 ==> t.dream.session.None?)
    ensures Keeps(s, t)
  {
  }

  lemma InterruptedKeeps(d: Dream, after: SessionStatus)
    requires SessionInv(d)
    ensures SessionInv(d.(session := Interrupted(d.session, after)))
    ensures Interrupted(d.session, after).Some? <==> d.session.Some?
  {
  }

  lemma FailKeeps(s: State, o: Observed)
    requires Inv(s) && !Terminal(s.dream.status)
    ensures Keeps(s, FailDream(s, o))
  {
  }

  lemma CloseKeeps(s: State, o: Observed)
    requires Inv(s) && !s.dream.closed && Terminal(s.dream.status)
    requires s.dream.session.Some? ==> !s.dream.session.value.status.Working?
    ensures Keeps(s, CloseDream(s, o))
  {
  }

  lemma ClaimKeeps(s: State, o: Observed)
    requires Inv(s) && Decide(s.dream, o).Claim? && o.tick <= o.now
    ensures Keeps(s, ClaimStart(s, o.now))
  {
  }

  lemma CommitStartKeeps(s: State, files: set<FileId>, clone: StoreId, now: int)
    requires Inv(s) && s.dream.status.Pending? && files != {} && files !! s.minted
    ensures Keeps(s, CommitStart(s, files, clone, now))
  {
  }

  lemma AdvanceKeeps(s: State, now: int)
    requires Inv(s) && s.dream.status.Running? && s.dream.stage < dreamStageCount && s.dream.session.Some?
    ensures Keeps(s, AdvanceStage(s, now))
  {
  }

  lemma ArmKeeps(s: State, o: Observed)
    requires Inv(s) && o.tick <= o.now
    ensures Keeps(s, ArmStep(s, o))
  {
    hide Inv, Follows;
    match Decide(s.dream, o)
    case NotMine => Same(s);
    case RollBack => Same(s);
    case WindDown =>
      Parts(s);
      InterruptedKeeps(s.dream, o.after);
      TouchKeeps(s, ArmStep(s, o));
    case Close => CloseKeeps(s, o);
    case Fail(_) => FailKeeps(s, o);
    case Claim => ClaimKeeps(s, o);
    case Busy => Parts(s); TouchKeeps(s, ArmStep(s, o));
    case Advance => AdvanceKeeps(s, o.now);
    case Complete => Parts(s); SettleKeeps(s, Completed, o.now);
  }

  lemma Same(s: State)
    requires Inv(s)
    ensures Keeps(s, s)
  {
  }

  lemma Parts(s: State)
    requires Inv(s)
    ensures ClaimsInv(s) && RowInv(s.dream) && SessionInv(s.dream) && FilesInv(s)
  {
  }

  // What neither the row nor its history shows.
  lemma AsideKeeps(s: State, t: State)
    requires Inv(s) && t == s.(starting := t.starting, spent := t.spent, minted := t.minted, doomed := t.doomed)
    requires s.minted <= t.minted && t.doomed <= t.minted && t.doomed !! s.dream.transcripts
    ensures Keeps(s, t)
  {
  }

  lemma FollowsOn(s: State, t: State, u: State)
    requires Follows(s, t) && Follows(t, u)
    ensures Follows(s, u)
  {
  }

  lemma FinishStartKeeps(s: State, attempt: nat, now: int, outcome: Outcome)
    requires Inv(s)
    ensures Keeps(s, FinishStartStep(s, attempt, now, outcome))
  {
    hide Inv, Follows;
    Same(s);
    Parts(s);
    if attempt in s.starting {
      var left := s.(starting := s.starting - {attempt});
      AsideKeeps(s, left);
      AsideKeeps(s, left.(spent := s.spent + {attempt}));
      if s.dream.status.Pending? {
        match outcome
        case Classified => EndPendingKeeps(left, Failed, now); FollowsOn(s, left, EndPending(left, Failed, now));
        case Commits(files, clone) =>
          if files != {} && files !! s.minted {
            CommitStartKeeps(left, files, clone, now);
            FollowsOn(s, left, CommitStart(left, files, clone, now));
          }
        case _ =>
      }
    }
  }

  lemma SettleExhaustedKeeps(s: State, attempt: nat, now: int, died: bool)
    requires Inv(s)
    ensures Keeps(s, SettleExhaustedStep(s, attempt, now, died))
  {
  }

  lemma CancelKeeps(s: State, now: int, after: SessionStatus)
    requires Inv(s)
    ensures Keeps(s, CancelStep(s, now, after))
  {
    hide Inv, Follows;
    Same(s);
    if s.dream.status.Pending? {
      EndPendingKeeps(s, Canceled, now);
    } else if s.dream.status.Running? {
      Parts(s);
      InterruptedKeeps(s.dream, after);
      var u := s.(dream := s.dream.(session := Interrupted(s.dream.session, after)));
      TouchKeeps(s, u);
      EndOpenKeeps(u, Canceled, now);
      FollowsOn(s, u, CancelStep(s, now, after));
    }
  }

  // A terminal status alone: the close is left to the closing arm, session or none.
  lemma EndOpenKeeps(s: State, to: Status, now: int)
    requires Inv(s) && s.dream.status.Running? && Terminal(to) && (to.Completed? ==> s.dream.stage == dreamStageCount)
    ensures Keeps(s, s.(dream := s.dream.(status := to, updatedAt := now), history := s.history + [Settled(to)]))
  {
    var t := s.(dream := s.dream.(status := to, updatedAt := now), history := s.history + [Settled(to)]);
    assert Opened(t) == Opened(s);
  }

  lemma FilesKeep(s: State, file: FileId)
    requires Inv(s)
    ensures Keeps(s, s.(minted := s.minted + {file}))
    ensures Keeps(s, ApproveStep(s, file))
    ensures Keeps(s, DeleteStep(s, file))
  {
    hide Inv, Follows;
    Same(s);
    Parts(s);
    AsideKeeps(s, s.(minted := s.minted + {file}));
    AsideKeeps(s, ApproveStep(s, file));
    assert file in s.doomed ==> s.dream.transcripts - {file} == s.dream.transcripts;
    AsideKeeps(s, s.(doomed := s.doomed - {file}));
  }

  lemma PurgeKeeps(s: State, file: FileId)
    requires Inv(s)
    ensures Keeps(s, PurgeStep(s, file))
  {
    Same(s);
    if file !in s.dream.transcripts { assert s.dream.transcripts - {file} == s.dream.transcripts; }
  }

  lemma SessionKeeps(s: State, to: SessionStatus)
    requires Inv(s)
    ensures Keeps(s, SessionStep(s, to))
    ensures s.dream.closed ==> Keeps(s, s.(dream := s.dream.(session := None)))
    ensures s.dream.session.Some? ==> Keeps(s, s.(dream := s.dream.(session := None, lost := true)))
  {
  }

  lemma StepKeeps(s: State, a: Action)
    requires Inv(s)
    ensures Keeps(s, Step(s, a))
  {
    hide Inv, Follows, Keeps, ArmStep, FinishStartStep, SettleExhaustedStep, CancelStep;
    hide ArchiveStep, SessionStep, ApproveStep, DeleteStep, PurgeStep;
    match a
    case Arm(o) => if o.tick <= o.now { ArmKeeps(s, o); } else { Same(s); }
    case FinishStart(attempt, now, outcome) => FinishStartKeeps(s, attempt, now, outcome);
    case SettleExhausted(attempt, now, died) => SettleExhaustedKeeps(s, attempt, now, died);
    case Cancel(now, after) => CancelKeeps(s, now, after);
    case Archive(now) => ArchiveKeeps(s, now);
    case SessionMoves(to) => SessionKeeps(s, to);
    case DeleteSession => Same(s); SessionKeeps(s, Idle);
    case LoseSession => Same(s); SessionKeeps(s, Idle);
    case Upload(file) => FilesKeep(s, file);
    case ApproveDelete(file) => FilesKeep(s, file);
    case DeleteFile(file) => FilesKeep(s, file);
    case Purge(file) => PurgeKeeps(s, file);
  }

  lemma ArchiveKeeps(s: State, now: int)
    requires Inv(s)
    ensures Keeps(s, ArchiveStep(s, now))
  {
  }

  // ---------------------------------------------------------------- every run

  lemma InitHolds(createdAt: int, input: StoreId, inPlace: bool)
    ensures Inv(Init(createdAt, input, inPlace))
  {
  }

  lemma {:induction false} RunKeeps(s: State, acts: seq<Action>)
    requires Inv(s)
    ensures Inv(Run(s, acts)) && Follows(s, Run(s, acts))
    decreases |acts|
  {
    hide Inv, Follows, Step;
    if acts == [] {
      Same(s);
    } else {
      var mid := Run(s, acts[..|acts| - 1]);
      RunKeeps(s, acts[..|acts| - 1]);
      StepKeeps(mid, acts[|acts| - 1]);
      FollowsOn(s, mid, Run(s, acts));
    }
  }

  // The states a dream can reach.
  ghost predicate Reachable(s: State) {
    exists createdAt, input, inPlace, acts :: s == Run(Init(createdAt, input, inPlace), acts)
  }

  lemma ReachableInv(s: State)
    requires Reachable(s)
    ensures Inv(s)
  {
    hide Inv, Run;
    var createdAt, input, inPlace, acts :| s == Run(Init(createdAt, input, inPlace), acts);
    InitHolds(createdAt, input, inPlace);
    RunKeeps(Init(createdAt, input, inPlace), acts);
  }

  predicate IsClaim(e: Entry) { e.Claimed? }
  predicate IsStart(e: Entry) { e.Started? }
  predicate IsAdvance(e: Entry) { e.Advanced? }
  predicate IsSettle(e: Entry) { e.Settled? }
  predicate IsClose(e: Entry) { e.Closed? }

  function Count(h: seq<Entry>, p: Entry -> bool): nat {
    if h == [] then 0 else Count(h[..|h| - 1], p) + (if p(h[|h| - 1]) then 1 else 0)
  }

  lemma {:induction false} CountConcat(a: seq<Entry>, b: seq<Entry>, p: Entry -> bool)
    ensures Count(a + b, p) == Count(a, p) + Count(b, p)
    decreases |b|
  {
    if b == [] {
      assert a + b == a;
    } else {
      assert (a + b)[..|a + b| - 1] == a + b[..|b| - 1];
      CountConcat(a, b[..|b| - 1], p);
    }
  }

  lemma CountOne(e: Entry, p: Entry -> bool)
    ensures Count([e], p) == if p(e) then 1 else 0
  {
  }

  // Every entry of a list alike.
  lemma {:induction false} CountAlike(h: seq<Entry>, p: Entry -> bool, q: Entry -> bool)
    requires forall i :: 0 <= i < |h| ==> q(h[i])
    requires forall e :: q(e) ==> !p(e)
    ensures Count(h, p) == 0
    decreases |h|
  {
    if h != [] { CountAlike(h[..|h| - 1], p, q); }
  }

  lemma {:induction false} CountAll(h: seq<Entry>, p: Entry -> bool)
    requires forall i :: 0 <= i < |h| ==> p(h[i])
    ensures Count(h, p) == |h|
    decreases |h|
  {
    if h != [] { CountAll(h[..|h| - 1], p); }
  }

  lemma {:induction false} ClaimEntriesAt(at: seq<int>)
    ensures |ClaimEntries(at)| == |at|
    ensures forall i :: 0 <= i < |at| ==> IsClaim(ClaimEntries(at)[i])
    decreases |at|
  {
    if at != [] { ClaimEntriesAt(at[..|at| - 1]); }
  }

  lemma {:induction false} AdvancesAt(stage: nat)
    ensures |Advances(stage)| == if stage == 0 then 0 else stage - 1
    ensures forall i :: 0 <= i < |Advances(stage)| ==> Advances(stage)[i] == Advanced(i + 2)
    decreases stage
  {
    if stage > 1 { AdvancesAt(stage - 1); }
  }

  function One(b: bool): nat { if b then 1 else 0 }

  lemma CountOpened(s: State, p: Entry -> bool)
    ensures Count(Opened(s), p) == Count(ClaimEntries(s.claims), p)
      + (if s.dream.stage > 0 then One(p(Started(s.rendered))) + Count(Advances(s.dream.stage), p) else 0)
  {
    var a, b := ClaimEntries(s.claims), [Started(s.rendered)];
    var c := Advances(s.dream.stage);
    CountConcat(a, if s.dream.stage > 0 then b + c else [], p);
    CountConcat(b, c, p);
    CountOne(Started(s.rendered), p);
    assert Count([], p) == 0;
  }

  lemma CountExpected(s: State, p: Entry -> bool)
    ensures Count(Expected(s), p) == Count(Opened(s), p)
      + (if Terminal(s.dream.status) then One(p(Settled(s.dream.status))) else 0)
      + (if s.dream.closed then One(p(Closed)) else 0)
  {
    var b := if Terminal(s.dream.status) then [Settled(s.dream.status)] else [];
    var c := if s.dream.closed then [Closed] else [];
    CountConcat(Opened(s) + b, c, p);
    CountConcat(Opened(s), b, p);
    CountOne(Settled(s.dream.status), p);
    CountOne(Closed, p);
    assert Count([], p) == 0;
  }

  lemma CountsOf(s: State)
    requires Inv(s)
    ensures Count(s.history, IsClaim) == s.dream.attempts
    ensures Count(s.history, IsStart) == One(s.dream.stage > 0)
    ensures Count(s.history, IsAdvance) == if s.dream.stage > 0 then s.dream.stage - 1 else 0
    ensures Count(s.history, IsSettle) == One(Terminal(s.dream.status))
    ensures Count(s.history, IsClose) == One(s.dream.closed)
  {
    hide Count;
    ClaimEntriesAt(s.claims);
    AdvancesAt(s.dream.stage);
    CountAll(ClaimEntries(s.claims), IsClaim);
    CountAll(Advances(s.dream.stage), IsAdvance);
    forall p: Entry -> bool ensures
      (forall e :: IsClaim(e) ==> !p(e)) ==> Count(ClaimEntries(s.claims), p) == 0
    {
      if forall e :: IsClaim(e) ==> !p(e) { CountAlike(ClaimEntries(s.claims), p, IsClaim); }
    }
    forall p: Entry -> bool ensures
      (forall e :: IsAdvance(e) ==> !p(e)) ==> Count(Advances(s.dream.stage), p) == 0
    {
      if forall e :: IsAdvance(e) ==> !p(e) { CountAlike(Advances(s.dream.stage), p, IsAdvance); }
    }
    CountExpected(s, IsClaim); CountOpened(s, IsClaim);
    CountExpected(s, IsStart); CountOpened(s, IsStart);
    CountExpected(s, IsAdvance); CountOpened(s, IsAdvance);
    CountExpected(s, IsSettle); CountOpened(s, IsSettle);
    CountExpected(s, IsClose); CountOpened(s, IsClose);
  }

  /**
   Over every interleaving: as many claims as attempts and never more than
   five, at most one start, a stage's advance each, at most one settle and one
   close, and the whole within attempts + 1 + 3 + 1 + 1.
   */
  lemma CommitsBounded(s: State)
    requires Reachable(s)
    ensures Count(s.history, IsClaim) == s.dream.attempts <= dreamStartAttempts
    ensures Count(s.history, IsStart) == One(s.dream.stage > 0)
    ensures Count(s.history, IsAdvance) == (if s.dream.stage > 0 then s.dream.stage - 1 else 0) <= 3
    ensures Count(s.history, IsSettle) == One(Terminal(s.dream.status))
    ensures Count(s.history, IsClose) == One(s.dream.closed)
    ensures |s.history| <= s.dream.attempts + 1 + 3 + 1 + 1
  {
    hide Count;
    ReachableInv(s);
    CountsOf(s);
    ClaimEntriesAt(s.claims);
    AdvancesAt(s.dream.stage);
  }

  /** Successive claims, as committed, are at least one lease apart on the database clock. */
  lemma ClaimsLeaseApart(s: State)
    requires Reachable(s)
    ensures s.history == Expected(s) && |s.claims| == s.dream.attempts && LeaseApart(s.claims)
  {
    ReachableInv(s);
  }

  /**
   A running dream has one output, the caller's own store when in place, a stage
   of 1 to 4, and its session with the messages of its stages, unless that was
   deleted in the database.
   */
  lemma RunningIsWhole(s: State)
    requires Reachable(s) && s.dream.status.Running?
    ensures 1 <= s.dream.stage <= dreamStageCount && |s.dream.outputs| == 1
    ensures s.dream.target.Some? ==> s.dream.outputs == [s.dream.input]
    ensures s.dream.session.Some? <==> !s.dream.lost
    ensures s.dream.session.Some? ==> s.dream.session.value.stages == UpTo(s.dream.stage)
  {
    ReachableInv(s);
  }

  /** Terminal is absorbing, closed is terminal and never undone, and nothing committed is ever unwritten. */
  lemma EndsStay(s: State, acts: seq<Action>)
    requires Reachable(s)
    ensures Follows(s, Run(s, acts))
    ensures s.dream.closed ==> Terminal(s.dream.status) && Run(s, acts).dream.closed
    ensures Terminal(s.dream.status) ==> Run(s, acts).dream.status == s.dream.status
    ensures s.dream.closed ==> Run(s, acts).history == s.history
  {
    ReachableInv(s);
    RunKeeps(s, acts);
    if s.dream.closed { ClosedIsQuiet(s, acts); }
  }

  lemma {:induction false} ClosedIsQuiet(s: State, acts: seq<Action>)
    requires Inv(s) && s.dream.closed
    ensures Run(s, acts).history == s.history && Inv(Run(s, acts)) && Run(s, acts).dream.closed
    decreases |acts|
  {
    hide Inv, Step;
    if acts != [] {
      ClosedIsQuiet(s, acts[..|acts| - 1]);
      ClosedStep(Run(s, acts[..|acts| - 1]), acts[|acts| - 1]);
    }
  }

  lemma ClosedStep(s: State, a: Action)
    requires Inv(s) && s.dream.closed
    ensures Step(s, a).history == s.history && Inv(Step(s, a)) && Step(s, a).dream.closed
  {
    StepKeeps(s, a);
    assert !s.dream.status.Pending? && !s.dream.status.Running?;
  }

  /** Transcript rows exist exactly from the start's commit to the close's, all of them, whoever deletes files. */
  lemma TranscriptsWhileOpen(s: State)
    requires Reachable(s)
    ensures s.dream.transcripts == if Started(s.rendered) in s.history && Closed !in s.history then s.rendered else {}
    ensures Started(s.rendered) in s.history ==> s.rendered != {}
  {
    ReachableInv(s);
    ClaimEntriesAt(s.claims);
    AdvancesAt(s.dream.stage);
    StartedListed(s);
    ClosedListed(s);
  }

  lemma StartedListed(s: State)
    requires Inv(s)
    ensures Started(s.rendered) in s.history <==> s.dream.stage > 0
  {
    ClaimEntriesAt(s.claims);
    if s.dream.stage > 0 {
      assert s.history[|s.claims|] == Started(s.rendered);
    } else {
      forall i | 0 <= i < |s.history| ensures s.history[i] != Started(s.rendered) {
        if i < |s.claims| { assert IsClaim(ClaimEntries(s.claims)[i]); }
      }
    }
  }

  lemma ClosedListed(s: State)
    requires Inv(s)
    ensures Closed in s.history <==> s.dream.closed
  {
    ClaimEntriesAt(s.claims);
    AdvancesAt(s.dream.stage);
    if s.dream.closed {
      assert s.history[|s.history| - 1] == Closed;
    } else {
      var n := |s.claims|;
      forall i | 0 <= i < |s.history| ensures s.history[i] != Closed {
        if i < n { assert IsClaim(ClaimEntries(s.claims)[i]); }
        else if n < i < |Opened(s)| { assert Opened(s)[i] == Advances(s.dream.stage)[i - n - 1]; }
      }
    }
  }

  /** Completion happens only from stage 4, idle, inside its turns, with no ask, no failed turn and no secret. */
  lemma CompletesOnlyFinished(s: State, a: Action)
    requires Reachable(s) && !s.dream.status.Completed? && Step(s, a).dream.status.Completed?
    ensures a.Arm? && s.dream.status.Running? && s.dream.stage == dreamStageCount
    ensures a.o.status.Idle? && a.o.turns <= TurnCap(dreamStageCount)
    ensures !a.o.asks && !a.o.failedTurn && !a.o.secret && !a.o.unavailable
    ensures a.o.tick - s.dream.createdAt <= a.o.budget
    ensures s.dream.session.Some? && s.dream.session.value.stages == [1, 2, 3, 4]
  {
    ReachableInv(s);
  }

  /** The stage the range check guards against is never reached, and no arm finds the session gone that the database did not lose. */
  lemma CorruptionUnreachable(s: State, o: Observed)
    requires Reachable(s)
    ensures Decide(s.dream, o) != Fail(StageOutOfRange)
    ensures Decide(s.dream, o) == Fail(Unavailable) ==> o.unavailable || s.dream.lost
    ensures Decide(s.dream, o) == Fail(StageRefused) ==> o.unanswered
  {
    ReachableInv(s);
  }

  // The arm that finds a dream past its budget leaves it terminal, its session stopped.
  lemma LateArm(s: State, o: Observed)
    requires Inv(s) && !s.dream.closed && !Terminal(s.dream.status) && o.tick <= o.now
    requires o.tick - s.dream.createdAt > o.budget && s.dream.updatedAt + dreamStartLease <= o.tick
    requires !o.after.Working? && (s.dream.session.Some? && s.dream.session.value.status.Terminated? <==> o.status.Terminated?)
    ensures Step(s, Arm(o)) == FailDream(s, o)
    ensures var d := Step(s, Arm(o)).dream;
      Terminal(d.status) && (d.closed || (d.session.Some? && !d.session.value.status.Working?))
  {
  }

  // The arm that finds a terminal dream with its session stopped closes it.
  lemma ClosingArm(s: State, p: Observed)
    requires Terminal(s.dream.status) && p.tick <= p.now
    requires s.dream.closed || (s.dream.session.Some? && !s.dream.session.value.status.Working?)
    ensures Step(s, Arm(p)).dream.closed
  {
  }

  /**
   Never a stuck dream: past its budget and its last claim's lease, any open
   dream that has not ended is closed by two arms, as long as the interrupt of
   the first stops the session.
   */
  lemma TwoArmsClose(s: State, o: Observed, p: Observed)
    requires Reachable(s) && !s.dream.closed && !Terminal(s.dream.status)
    requires o.tick <= o.now && p.tick <= p.now
    requires o.tick - s.dream.createdAt > o.budget
    requires s.dream.updatedAt + dreamStartLease <= o.tick
    requires !o.after.Working? && (s.dream.session.Some? && s.dream.session.value.status.Terminated? <==> o.status.Terminated?)
    ensures Step(Step(s, Arm(o)), Arm(p)).dream.closed
  {
    hide Step, Inv;
    ReachableInv(s);
    LateArm(s, o);
    ClosingArm(Step(s, Arm(o)), p);
  }
}
