/**
 The dream's rows as the runner's transactions update them, statement by
 statement (internal/api/dreamrunner.go:463-825, internal/api/dreamstart.go:136-380,
 internal/api/dreams.go:548-628).
 */
module DreamProgram {
  import opened Options
  import opened DreamLifecycle
  import opened DreamSafety

  // A dream not yet ended is open.
  lemma OpenRow(s: State)
    requires Inv(s) && !Terminal(s.dream.status)
    ensures !s.dream.closed
  {
  }

  lemma ClaimArmKeeps(s: State, o: Observed)
    requires Inv(s) && o.tick <= o.now && s.dream.status.Pending? && Candidate(s.dream, o.tick) && o.tick - s.dream.createdAt <= o.budget
    ensures Keeps(s, if s.dream.attempts >= dreamStartAttempts then FailDream(s, o) else ClaimStart(s, o.now))
  {
    hide Inv, Follows, Candidate, FailDream;
    ArmKeeps(s, o);
  }

  lemma ClosingKeeps(s: State, o: Observed)
    requires Inv(s) && !s.dream.closed && Terminal(s.dream.status)
    ensures s.dream.session.Some? && s.dream.session.value.status.Working? ==>
      Keeps(s, s.(dream := s.dream.(session := Interrupted(s.dream.session, o.after), updatedAt := o.now)))
    ensures !(s.dream.session.Some? && s.dream.session.value.status.Working?) ==> Keeps(s, CloseDream(s, o))
  {
    hide Inv, Follows;
    if s.dream.session.Some? && s.dream.session.value.status.Working? {
      Parts(s);
      InterruptedKeeps(s.dream, o.after);
      TouchKeeps(s, s.(dream := s.dream.(session := Interrupted(s.dream.session, o.after), updatedAt := o.now)));
    } else {
      CloseKeeps(s, o);
    }
  }

  class DreamRows {
    var status: Status
    var stage: nat
    var attempts: nat
    const createdAt: int
    var updatedAt: int
    var closed: bool
    var archived: bool
    const input: StoreId
    const target: Option<StoreId>
    var outputs: seq<StoreId>
    var session: Option<Session>
    var lost: bool
    var transcripts: set<FileId>
    var starting: set<nat>
    var spent: set<nat>
    var minted: set<FileId>
    var doomed: set<FileId>
    ghost var claims: seq<int>
    ghost var rendered: set<FileId>
    ghost var history: seq<Entry>

    ghost function View(): State
      reads this
    {
      State(Dream(status, stage, attempts, createdAt, updatedAt, closed, archived, input, target, outputs, session, lost, transcripts),
            starting, spent, minted, doomed, claims, rendered, history)
    }

    constructor (createdAt: int, input: StoreId, inPlace: bool)
      ensures View() == Init(createdAt, input, inPlace) && Inv(View())
    {
      this.createdAt, this.input, target := createdAt, input, if inPlace then Some(input) else None;
      status, stage, attempts, updatedAt, closed, archived := Pending, 0, 0, createdAt, false, false;
      outputs, session, lost, transcripts, starting, spent, minted, doomed := [], None, false, {}, {}, {}, {}, {};
      claims, rendered, history := [], {}, [];
      new;
      InitHolds(createdAt, input, inPlace);
    }

    // interruptSessionInTx: an archived session has nothing to interrupt.
    method InterruptSession(after: SessionStatus)
      modifies this`session
      ensures session == Interrupted(old(session), after)
    {
      if session.Some? && !session.value.archived { session := Some(session.value.(status := after)); }
    }

    /** One terminal status; a dream with no session to wind down closes with it, its transcripts gone, and any other stays open. */
    method Settle(to: Status, now: int)
      modifies this
      ensures View() == DreamLifecycle.Settle(old(View()), to, now)
      ensures status == to && stage == old(stage) && session == old(session)
      ensures if old(session).None? then closed && transcripts == {} else closed == old(closed) && transcripts == old(transcripts)
      ensures Inv(old(View())) && old(status).Running? && Terminal(to) && (to.Completed? ==> old(stage) == dreamStageCount) ==>
        Inv(View()) && Follows(old(View()), View())
    {
      hide Inv, Follows;
      if Inv(View()) && status.Running? && Terminal(to) && (to.Completed? ==> stage == dreamStageCount) { SettleKeeps(View(), to, now); }
      WriteStatus(to, now);
      if session.None? { WriteClose(now); }
    }

    method WriteStatus(to: Status, now: int)
      modifies this`status, this`updatedAt, this`history
      ensures status == to && updatedAt == now && history == old(history) + [Settled(to)]
    {
      status, updatedAt := to, now;
      history := history + [Settled(to)];
    }

    // closed_at stamped, and the transcript rows deleted.
    method WriteClose(now: int)
      modifies this`closed, this`updatedAt, this`transcripts, this`history
      ensures closed && updatedAt == now && transcripts == {} && history == old(history) + [Closed]
    {
      closed, updatedAt, transcripts := true, now, {};
      history := history + [Closed];
    }

    /** Failed, from any open status; a live session is told to stop and left to the closing arm. */
    method Fail(o: Observed)
      modifies this
      ensures View() == FailDream(old(View()), o)
      ensures status == Failed && (session.Some? <==> old(session).Some?)
      ensures attempts == old(attempts) && stage == old(stage) && starting == old(starting)
      ensures session.Some? && !old(session).value.archived && !o.status.Terminated? ==> session.value.status == o.after
      ensures Inv(old(View())) && !Terminal(old(status)) ==>
        Inv(View()) && Follows(old(View()), View()) && (closed <==> old(session).None?)
    {
      hide Inv, Follows;
      if Inv(View()) && !Terminal(status) {
        FailKeeps(View(), o);
        OpenRow(View());
      }
      if session.Some? && !session.value.archived && o.status != Terminated { InterruptSession(o.after); }
      Settle(Failed, o.now);
    }

    /** A session still working is interrupted again and nothing closes; any other ends archived, the transcripts gone with the close. */
    method ClosingArm(o: Observed)
      requires Terminal(status)
      modifies this
      ensures View() == if old(session).Some? && old(session).value.status.Working?
        then old(View()).(dream := old(View()).dream.(session := Interrupted(old(session), o.after), updatedAt := o.now))
        else CloseDream(old(View()), o)
      ensures if old(session).Some? && old(session).value.status.Working?
        then closed == old(closed) && transcripts == old(transcripts)
        else closed && transcripts == {} && (session.Some? ==> session.value.archived && !session.value.status.Working?)
      ensures Inv(old(View())) && !old(closed) ==> Inv(View()) && Follows(old(View()), View())
    {
      hide Inv, Follows, CloseDream;
      if Inv(View()) && !closed { ClosingKeeps(View(), o); }
      if session.Some? && session.value.status == Working {
        WindDown(o);
      } else {
        CloseRows(o);
      }
    }

    method WindDown(o: Observed)
      modifies this`session, this`updatedAt
      ensures session == Interrupted(old(session), o.after) && updatedAt == o.now
    {
      InterruptSession(o.after);
      updatedAt := o.now;
    }

    method CloseRows(o: Observed)
      modifies this
      ensures View() == CloseDream(old(View()), o)
      ensures closed && transcripts == {} && (session.Some? <==> old(session).Some?)
      ensures session.Some? ==> session.value == old(session).value.(archived := true)
    {
      if session.Some? { ArchiveSession(); }
      WriteClose(o.now);
    }

    // archiveSessionInTx, unless it is archived already.
    method ArchiveSession()
      requires session.Some?
      modifies this`session
      ensures session == Some(old(session).value.(archived := true))
    {
      if !session.value.archived { session := Some(session.value.(archived := true)); }
    }

    /** A sixth claim is never made: at five attempts the dream fails instead, and any other claim is one more, in flight. */
    method ClaimArm(o: Observed)
      modifies this
      ensures View() == if old(attempts) >= dreamStartAttempts then FailDream(old(View()), o) else ClaimStart(old(View()), o.now)
      ensures old(attempts) < dreamStartAttempts ==>
        attempts == old(attempts) + 1 <= dreamStartAttempts && attempts in starting && status == old(status)
      ensures old(attempts) >= dreamStartAttempts ==> attempts == old(attempts) && status == Failed && starting == old(starting)
      ensures Inv(old(View())) && o.tick <= o.now && old(status).Pending? && Candidate(old(View()).dream, o.tick) && o.tick - createdAt <= o.budget ==>
        Inv(View()) && Follows(old(View()), View())
    {
      hide Inv, Follows, FailDream, Candidate;
      if Inv(View()) && o.tick <= o.now && status.Pending? && Candidate(View().dream, o.tick) && o.tick - createdAt <= o.budget {
        ClaimArmKeeps(View(), o);
      }
      if attempts >= dreamStartAttempts {
        Fail(o);
        return;
      }
      WriteClaim(o.now);
    }

    method WriteClaim(now: int)
      modifies this`attempts, this`updatedAt, this`starting, this`claims, this`history
      ensures attempts == old(attempts) + 1 && updatedAt == now && starting == old(starting) + {attempts}
      ensures claims == old(claims) + [now] && history == old(history) + [Claimed(now)]
    {
      attempts, updatedAt := attempts + 1, now;
      starting := starting + {attempts};
      claims, history := claims + [now], history + [Claimed(now)];
    }

    // Arms 6 to 10.
    method TurnArms(o: Observed)
      requires session.Some? && status.Running? && !closed
      requires Decide(View().dream, o) == DecideTurn(View().dream, o)
      modifies this
      ensures View() == ArmStep(old(View()), o)
    {
      if stage < 1 || stage > dreamStageCount {
        Fail(o);
      } else if o.turns > TurnCap(stage) {
        Fail(o);
      } else if o.status == Working || o.status == Rescheduling {
        updatedAt := o.now;
      } else if o.asks {
        Fail(o);
      } else if stage < dreamStageCount {
        AdvanceArm(o);
      } else if o.secret {
        Fail(o);
      } else {
        Settle(Completed, o.now);
      }
    }

    /** The stage and its message move together, on an idle session alone; otherwise the dream fails or nothing moves. */
    method AdvanceArm(o: Observed)
      requires session.Some?
      modifies this
      ensures stage != old(stage) ==>
        && stage == old(stage) + 1 && status == old(status) && old(session).value.status.Idle?
        && session.Some? && session.value.status.Working? && session.value.stages == old(session).value.stages + [stage]
      ensures stage == old(stage) ==> View() == old(View()) || status == Failed
      ensures Inv(old(View())) && old(status).Running? && old(stage) < dreamStageCount ==>
        Inv(View()) && Follows(old(View()), View())
      ensures old(session).value.archived || (old(session).value.status.Idle? && o.unanswered) ==> View() == FailDream(old(View()), o)
      ensures !old(session).value.archived && !old(session).value.status.Idle? ==> View() == old(View())
      ensures !old(session).value.archived && old(session).value.status.Idle? && !o.unanswered ==>
        View() == AdvanceStage(old(View()), o.now)
    {
      hide Inv, Follows;
      if Inv(View()) && status.Running? && stage < dreamStageCount { AdvanceKeeps(View(), o.now); Same(View()); FailKeeps(View(), o); }
      var p := session.value;
      if p.archived {
        Fail(o);
      } else if p.status != Idle {
        return;
      } else if o.unanswered {
        Fail(o);
      } else {
        stage, updatedAt := stage + 1, o.now;
        session := Some(p.(status := Working, stages := p.stages + [stage]));
        history := history + [Advanced(stage)];
      }
    }

    /** One tick's arm on the row: the first arm that matches, and only that one; every invariant of the dream kept. */
    method Arm(o: Observed)
      requires o.tick <= o.now
      modifies this
      ensures View() == ArmStep(old(View()), o)
      ensures Inv(old(View())) ==> Inv(View()) && Follows(old(View()), View())
    {
      hide Inv, Follows;
      ghost var was := View();
      if Inv(was) { ArmKeeps(was, o); }
      if closed || (status == Pending && attempts > 0 && updatedAt > o.tick - dreamStartLease) { return; }
      if status != Pending && status != Running {
        ClosingArm(o);
      } else if o.tick - createdAt > o.budget {
        Fail(o);
      } else if status == Pending {
        ClaimArm(o);
      } else if o.unavailable || session.None? {
        Fail(o);
      } else if o.status == Terminated {
        Fail(o);
      } else if o.status == Idle && o.failedTurn {
        Fail(o);
      } else {
        TurnArms(o);
      }
    }

    /** The claimant's continuation: render, write, and after the last failed attempt settle. */
    method FinishStart(attempt: nat, now: int, outcome: Outcome)
      modifies this
      ensures View() == FinishStartStep(old(View()), attempt, now, outcome)
      ensures Inv(old(View())) ==> Inv(View()) && Follows(old(View()), View())
    {
      hide Inv, Follows, CommitStart, EndPending;
      if Inv(View()) { FinishStartKeeps(View(), attempt, now, outcome); }
      if attempt !in starting { return; }
      starting := starting - {attempt};
      match outcome {
        case Died =>
        case Blocked =>
        case Errored => if attempt >= dreamStartAttempts { spent := spent + {attempt}; }
        case Classified =>
          if status == Pending { EndUnstarted(Failed, now); }
        case Commits(files, clone) =>
          if status == Pending && files != {} && files !! minted {
            WriteStart(files, clone, now);
          }
      }
    }

    // writeDreamStart's steps 4 to 7.
    method WriteStart(files: set<FileId>, clone: StoreId, now: int)
      modifies this
      ensures View() == CommitStart(old(View()), files, clone, now)
    {
      WriteFiles(files);
      WriteRunning(clone, now);
    }

    method WriteRunning(clone: StoreId, now: int)
      modifies this`outputs, this`session, this`status, this`stage, this`updatedAt
      ensures outputs == [if target.Some? then input else clone]
      ensures session == Some(Session(Working, false, [1]))
      ensures status == Running && stage == 1 && updatedAt == now
    {
      outputs := [if target.Some? then input else clone];
      session := Some(Session(Working, false, [1]));
      status, stage, updatedAt := Running, 1, now;
    }

    method WriteFiles(files: set<FileId>)
      modifies this`transcripts, this`minted, this`rendered, this`history
      ensures transcripts == rendered == files && minted == old(minted) + files && history == old(history) + [Started(files)]
    {
      transcripts, minted := files, minted + files;
      rendered, history := files, history + [Started(files)];
    }

    method EndUnstarted(to: Status, now: int)
      modifies this
      ensures View() == EndPending(old(View()), to, now)
    {
      status, closed, updatedAt := to, true, now;
      history := history + [Settled(to), Closed];
    }

    method SettleExhausted(attempt: nat, now: int, died: bool)
      modifies this
      ensures View() == SettleExhaustedStep(old(View()), attempt, now, died)
      ensures Inv(old(View())) ==> Inv(View()) && Follows(old(View()), View())
    {
      hide Inv, Follows;
      if Inv(View()) { SettleExhaustedKeeps(View(), attempt, now, died); }
      if attempt !in spent { return; }
      spent := spent - {attempt};
      if status == Pending && !died { EndUnstarted(Failed, now); }
    }

    /** POST cancel: refused is the answer for a dream that has ended otherwise. */
    method Cancel(now: int, after: SessionStatus) returns (refused: bool)
      modifies this
      ensures View() == CancelStep(old(View()), now, after)
      ensures refused <==> old(status).Completed? || old(status).Failed?
      ensures Inv(old(View())) ==> Inv(View()) && Follows(old(View()), View())
    {
      hide Inv, Follows;
      if Inv(View()) { CancelKeeps(View(), now, after); }
      refused := false;
      match status {
        case Canceled =>
        case Pending => EndUnstarted(Canceled, now);
        case Running =>
          InterruptSession(after);
          status, updatedAt := Canceled, now;
          history := history + [Settled(Canceled)];
        case _ => refused := true;
      }
    }

    method Archive(now: int) returns (refused: bool)
      modifies this
      ensures View() == ArchiveStep(old(View()), now)
      ensures refused <==> !old(archived) && !Terminal(old(status))
      ensures Inv(old(View())) ==> Inv(View()) && Follows(old(View()), View())
    {
      hide Inv, Follows;
      if Inv(View()) { ArchiveKeeps(View(), now); }
      if archived { return false; }
      if status == Pending || status == Running { return true; }
      archived, updatedAt := true, now;
      refused := false;
    }
  }
}
