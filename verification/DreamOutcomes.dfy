/** When exactly each thing happens to a dream, whoever acts and in whatever state it has reached. */
module DreamOutcomes {
  import opened Options
  import opened DreamLifecycle
  import opened DreamSafety

  // An arm's transaction began after its sweep read the clock.
  predicate InTime(o: Observed) {
    o.tick <= o.now
  }

  // The stage's turn ended well, as the arm reads it: the session idle, no failed
  // turn, within its turns, nothing asked, the inputs and the output there.
  predicate StageDone(d: Dream, o: Observed) {
    o.status.Idle? && !o.failedTurn && !OverTurns(d, o) && !o.asks && !o.unavailable
  }

  predicate OverTurns(d: Dream, o: Observed) {
    || (d.stage == 1 && o.turns > 30) || (d.stage == 2 && o.turns > 300)
    || (d.stage == 3 && o.turns > 60) || (d.stage == 4 && o.turns > 30)
  }

  predicate InBudget(d: Dream, o: Observed) {
    o.tick - d.createdAt <= o.budget
  }

  // What an arm settles a running dream failed for.
  predicate Faulty(d: Dream, o: Observed) {
    || !InBudget(d, o) || o.unavailable || o.status.Terminated?
    || (o.status.Idle? && o.failedTurn)
    || OverTurns(d, o)
    || (o.status.Idle? && o.asks)
    || (o.status.Idle? && d.stage < dreamStageCount && d.session.Some? && d.session.value.status.Idle? && o.unanswered)
    || (o.status.Idle? && d.stage == dreamStageCount && o.secret)
  }

  // ---------------------------------------------------------------- a running dream

  lemma RunningFacts(s: State)
    requires Reachable(s) && s.dream.status.Running?
    ensures !s.dream.closed && 1 <= s.dream.stage <= dreamStageCount
    ensures s.dream.session.Some? ==> !s.dream.session.value.archived && s.dream.session.value.stages == UpTo(s.dream.stage)
  {
    ReachableInv(s);
  }

  lemma RunningFails(d: Dream, o: Observed)
    requires d.status.Running? && !d.closed && 1 <= d.stage <= dreamStageCount
    requires d.session.Some? ==> !d.session.value.archived
    ensures Decide(d, o).Fail? <==> d.session.None? || Faulty(d, o)
    ensures !Decide(d, o).Close? && !Decide(d, o).WindDown? && !Decide(d, o).Claim?
  {
  }

  lemma ArmSteps(s: State, o: Observed)
    requires InTime(o)
    ensures Step(s, Arm(o)) == ArmStep(s, o)
  {
    hide ArmStep;
  }

  /** The next stage opens only over work that happened: exactly for a done stage before the last, in budget, on a session idle and answered. */
  lemma AdvancesExactly(s: State, a: Action)
    requires Reachable(s) && s.dream.stage > 0
    ensures Step(s, a).dream.stage != s.dream.stage <==>
      && a.Arm? && InTime(a.o) && s.dream.status.Running? && s.dream.stage < dreamStageCount
      && InBudget(s.dream, a.o) && StageDone(s.dream, a.o)
      && s.dream.session.Some? && s.dream.session.value.status.Idle? && !a.o.unanswered
    ensures Step(s, a).dream.stage != s.dream.stage ==>
      && Step(s, a).dream.stage == s.dream.stage + 1 && Step(s, a).dream.status.Running?
      && Step(s, a).dream.session == Some(Session(Working, false, UpTo(s.dream.stage + 1)))
  {
    ReachableInv(s);
    assert UpTo(s.dream.stage) + [s.dream.stage + 1] == UpTo(s.dream.stage + 1);
  }

  /** Completed exactly when the last stage is done, in budget, and wrote no secret. */
  lemma CompletesExactly(s: State, a: Action)
    requires Reachable(s) && !s.dream.status.Completed?
    ensures Step(s, a).dream.status.Completed? <==>
      && a.Arm? && InTime(a.o) && s.dream.status.Running? && s.dream.stage == dreamStageCount
      && InBudget(s.dream, a.o) && StageDone(s.dream, a.o) && s.dream.session.Some? && !a.o.secret
    ensures Step(s, a).dream.status.Completed? ==>
      !Step(s, a).dream.closed && Step(s, a).dream.session == s.dream.session && Step(s, a).dream.transcripts == s.dream.transcripts
  {
    ReachableInv(s);
  }

  /** An arm fails a running dream exactly for a fault or a session the database lost, stops its session, and closes it only without one. */
  lemma FailsExactly(s: State, o: Observed)
    requires Reachable(s) && s.dream.status.Running? && InTime(o)
    ensures var t := Step(s, Arm(o)).dream; t.status.Failed? <==> s.dream.session.None? || Faulty(s.dream, o)
    ensures var t := Step(s, Arm(o)).dream; t.status.Failed? ==>
      && (t.closed <==> s.dream.session.None?)
      && (s.dream.session.Some? ==> t.session == Some(s.dream.session.value.(status := if o.status.Terminated? then s.dream.session.value.status else o.after)))
  {
    hide Decide, Reachable, Step, Faulty;
    RunningFacts(s);
    RunningFails(s.dream, o);
    ArmSteps(s, o);
  }

  /** And otherwise, in the middle of a turn or of a race, it leaves the dream where it is. */
  lemma WaitsOtherwise(s: State, o: Observed)
    requires Reachable(s) && s.dream.status.Running? && InTime(o) && s.dream.session.Some? && !Faulty(s.dream, o)
    requires !(StageDone(s.dream, o) && (s.dream.stage == dreamStageCount || s.dream.session.value.status.Idle?))
    ensures Step(s, Arm(o)) == s || Step(s, Arm(o)) == s.(dream := s.dream.(updatedAt := o.now))
  {
    ReachableInv(s);
  }

  // ---------------------------------------------------------------- a pending dream

  // No claim made yet, or the last one's lease run out.
  predicate Claimable(d: Dream, o: Observed) {
    d.attempts == 0 || d.updatedAt + dreamStartLease <= o.tick
  }

  /** A claim is made exactly by an arm on a pending dream in budget, with no lease running and an attempt left. */
  lemma ClaimsExactly(s: State, a: Action)
    requires Reachable(s)
    ensures Step(s, a).dream.attempts != s.dream.attempts <==>
      && a.Arm? && InTime(a.o) && s.dream.status.Pending? && Claimable(s.dream, a.o) && InBudget(s.dream, a.o)
      && s.dream.attempts < dreamStartAttempts
    ensures Step(s, a).dream.attempts != s.dream.attempts ==>
      && Step(s, a).dream == s.dream.(attempts := s.dream.attempts + 1, updatedAt := a.o.now)
      && Step(s, a).starting == s.starting + {s.dream.attempts + 1}
  {
    ReachableInv(s);
  }

  /** A dream starts exactly when a claimant's write commits over a pending row, and then has everything it needs. */
  lemma StartsExactly(s: State, a: Action)
    requires Reachable(s) && !s.dream.status.Running?
    ensures Step(s, a).dream.status.Running? <==>
      && a.FinishStart? && a.attempt in s.starting && a.outcome.Commits? && s.dream.status.Pending?
      && a.outcome.files != {} && a.outcome.files !! s.minted
    ensures Step(s, a).dream.status.Running? ==>
      && Step(s, a).dream == s.dream.(status := Running, stage := 1, updatedAt := a.now, transcripts := a.outcome.files,
           session := Some(Session(Working, false, [1])), outputs := [if s.dream.target.Some? then s.dream.input else a.outcome.clone])
      && Step(s, a).starting == s.starting - {a.attempt}
  {
    ReachableInv(s);
  }

  // How a dream that never started fails.
  predicate FailsUnstarted(s: State, a: Action) {
    match a
    case Arm(o) => InTime(o) && Claimable(s.dream, o) && (!InBudget(s.dream, o) || s.dream.attempts >= dreamStartAttempts)
    case FinishStart(attempt, _, outcome) => attempt in s.starting && outcome.Classified?
    case SettleExhausted(attempt, _, died) => attempt in s.spent && !died
    case _ => false
  }

  /** A dream that never started fails on its budget, its attempts, a classified refusal or its last attempt's error, and closes with it. */
  lemma FailsUnstartedExactly(s: State, a: Action)
    requires Reachable(s) && s.dream.status.Pending?
    ensures Step(s, a).dream.status.Failed? <==> FailsUnstarted(s, a)
    ensures Step(s, a).dream.status.Failed? ==> Step(s, a).dream.closed && Step(s, a).dream.stage == 0
  {
    ReachableInv(s);
  }

  /** A claimant's error is spent exactly on the last attempt; before it the dream is left to the next claim. */
  lemma ErrorSpentExactly(s: State, attempt: nat, now: int)
    requires attempt in s.starting
    ensures Step(s, FinishStart(attempt, now, Errored)) ==
      s.(starting := s.starting - {attempt}, spent := if attempt >= dreamStartAttempts then s.spent + {attempt} else s.spent)
    ensures forall o: Outcome :: o.Died? || o.Blocked? ==> Step(s, FinishStart(attempt, now, o)) == s.(starting := s.starting - {attempt})
  {
  }

  // ---------------------------------------------------------------- endings

  /** Canceled exactly by a cancel of an open dream; a pending one closes with it, a running one's session is told to stop. */
  lemma CanceledExactly(s: State, a: Action)
    requires Reachable(s) && !s.dream.status.Canceled?
    ensures Step(s, a).dream.status.Canceled? <==> a.Cancel? && (s.dream.status.Pending? || s.dream.status.Running?)
    ensures Step(s, a).dream.status.Canceled? ==>
      && (Step(s, a).dream.closed <==> s.dream.status.Pending?)
      && (s.dream.session.Some? ==> Step(s, a).dream.session == Some(s.dream.session.value.(status := a.after)))
  {
    ReachableInv(s);
  }

  /** An ended dream closes exactly by an arm that finds its session not working, or none; the session ends archived. */
  lemma ClosesExactly(s: State, a: Action)
    requires Reachable(s) && Terminal(s.dream.status) && !s.dream.closed
    ensures Step(s, a).dream.closed <==>
      a.Arm? && InTime(a.o) && (s.dream.session.None? || !s.dream.session.value.status.Working?)
    ensures Step(s, a).dream.closed && s.dream.session.Some? ==>
      Step(s, a).dream.session == Some(s.dream.session.value.(archived := true))
  {
    ReachableInv(s);
  }

  /** While it works, the closing arm tells it again. */
  lemma StillWorking(s: State, o: Observed)
    requires Reachable(s) && Terminal(s.dream.status) && !s.dream.closed && InTime(o)
    requires s.dream.session.Some? && s.dream.session.value.status.Working?
    ensures Step(s, Arm(o)) == s.(dream := s.dream.(session := Some(s.dream.session.value.(status := o.after)), updatedAt := o.now))
  {
    ReachableInv(s);
  }

  /** Archived exactly by an archive of an ended dream, whose status it leaves. */
  lemma ArchivedExactly(s: State, a: Action)
    requires Reachable(s) && !s.dream.archived
    ensures Step(s, a).dream.archived <==> a.Archive? && Terminal(s.dream.status)
  {
    ReachableInv(s);
  }

  /** A transcript is deletable, by a caller or the sweep, exactly once its dream has closed. */
  lemma OpenTranscriptsRefused(s: State, file: FileId)
    requires Reachable(s) && file in s.minted
    ensures file in Step(s, ApproveDelete(file)).doomed && file !in s.doomed <==> file !in s.doomed && file !in s.dream.transcripts
    ensures Step(s, Purge(file)).dream == s.dream
  {
    ReachableInv(s);
    if file !in s.dream.transcripts { assert s.dream.transcripts - {file} == s.dream.transcripts; }
  }
}
