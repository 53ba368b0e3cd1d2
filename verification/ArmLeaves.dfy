/**
 What the arms of a send leave in its layout, row by row: every row an arm hands
 over is filed where that arm's place says, and nothing else is
 (internal/api/events.go:1141-1210).
 */
module ArmLeaves {
  import opened Options
  import opened Rows
  import opened EventModel
  import opened SendLayout
  import opened LayoutConservation
  import opened LayoutUpdates
  import opened ArmOrder

  // ---------------------------------------------------------------- what one arm hands over

  function AheadOf(a: Arm, i: int): seq<Event> {
    if a.act.Ends? && a.at == i then a.act.out.settled else []
  }

  function BehindOf(a: Arm, i: int): seq<Event> {
    if a.act.Ends? && a.at == i then a.act.out.idled else []
  }

  function ParkedOf(a: Arm, i: int): seq<Event> {
    if a.act.Reparks? && a.at == i then a.act.pair else []
  }

  // The notice an ended thread's arm delivers, under the interrupt that ended it.
  function NoticesOf(a: Arm): seq<DeliveredRow> {
    if a.act.Ends? && a.act.out.told.Some? then [DeliveredRow(a.at, a.act.out.told.value.received)] else []
  }

  function WakeIf(t: ThreadId, pair: seq<Event>): seq<ThreadWake> {
    if pair == [] then [] else [ThreadWake(t, pair, [])]
  }

  // The wakes an arm makes, given its thread's steps: the told thread's, the primary's
  // redirect, the thread its answers resume, or the primary a message wakes.
  function WakesOf(a: Arm, steps: seq<AnswerStep>): seq<ThreadWake> {
    match a.act
    case Ends(out, _, _) =>
      (if out.told.Some? then WakeIf(out.told.value.received.thread, out.told.value.wake) else []) + WakeIf(PRIMARY, out.resume)
    case Resumes(pair) => [ThreadWake(a.thread, pair, if a.thread == PRIMARY then AllDenials(steps) else [])]
    case Wakes(pair) => WakeIf(PRIMARY, pair)
    case _ => []
  }

  // The steps an arm leaves its thread.
  function StepsAfter(a: Arm, steps: seq<AnswerStep>): seq<AnswerStep> {
    match a.act
    case Ends(_, _, mooted) => if mooted == [] then steps else mooted
    case Resumes(_) => if a.thread == PRIMARY then Stripped(steps) else steps
    case _ => steps
  }

  function ConsumedOf(a: Arm): set<Id> {
    if a.act.Ends? then a.act.consumed else {}
  }

  // How often an arm hands over row x.
  function HandedBy(a: Arm, x: Event): nat {
    match a.act
    case Ends(out, _, steps) =>
      N(out.settled, x) + N(out.idled, x) + N(out.resume, x) + N(AllDenials(steps), x)
      + (if out.told.Some? then N(out.told.value.wake, x) + (if out.told.value.received == x then 1 else 0) else 0)
    case Resumes(pair) => N(pair, x)
    case Reparks(pair) => N(pair, x)
    case Wakes(pair) => N(pair, x)
    case Rests => 0
  }

  // A wake and a notice file nothing around an interrupt.
  predicate SameAround(l: Layout, r: Layout) {
    r.settled == l.settled && r.idled == l.idled && r.parked == l.parked
  }

  lemma ToldFiles(l: Layout, at: int, told: Option<Delivery>, t: ThreadId, pair: seq<Event>)
    ensures SameAround(l, Told(l, at, told)) && SameAround(l, Woke(l, t, pair)) && Woke(l, t, pair).delivered == l.delivered
    ensures Told(l, at, told).delivered == l.delivered + (if told.Some? then [DeliveredRow(at, told.value.received)] else [])
  {
  }

  lemma SettledFiles(l: Layout, at: int, settled: seq<Event>, idled: seq<Event>, i: int)
    ensures var r := Settled(l, at, settled, idled);
      && At(r.settled, i) == At(l.settled, i) + (if i == at then settled else [])
      && At(r.idled, i) == At(l.idled, i) + (if i == at then idled else [])
      && r.parked == l.parked && r.delivered == l.delivered
  {
  }

  lemma EndsFiles(l: Layout, at: int, out: InterruptOut, i: int)
    ensures var r := Interrupted(l, at, out);
      && At(r.settled, i) == At(l.settled, i) + (if i == at then out.settled else [])
      && At(r.idled, i) == At(l.idled, i) + (if i == at then out.idled else [])
      && r.parked == l.parked
      && r.delivered == l.delivered + (if out.told.Some? then [DeliveredRow(at, out.told.value.received)] else [])
  {
    hide At, Settled, Told, Woke;
    var l1 := Settled(l, at, out.settled, out.idled);
    SettledFiles(l, at, out.settled, out.idled, i);
    ToldFiles(l1, at, out.told, PRIMARY, out.resume);
    ToldFiles(Told(l1, at, out.told), at, out.told, PRIMARY, out.resume);
  }

  lemma OthersFile(l: Layout, a: Arm, i: int)
    requires !a.act.Ends?
    ensures RunArm(l, a).settled == l.settled && RunArm(l, a).idled == l.idled && RunArm(l, a).delivered == l.delivered
    ensures At(RunArm(l, a).parked, i) == At(l.parked, i) + ParkedOf(a, i)
  {
  }

  lemma StepFiles(l: Layout, a: Arm, i: int)
    ensures At(RunArm(l, a).settled, i) == At(l.settled, i) + AheadOf(a, i)
    ensures At(RunArm(l, a).idled, i) == At(l.idled, i) + BehindOf(a, i)
    ensures At(RunArm(l, a).parked, i) == At(l.parked, i) + ParkedOf(a, i)
    ensures RunArm(l, a).delivered == l.delivered + NoticesOf(a)
  {
    hide At, Interrupted;
    if a.act.Ends? { EndsFiles(l, a.at, a.act.out, i); } else { OthersFile(l, a, i); }
  }

  lemma EndsWakes(l: Layout, at: int, out: InterruptOut)
    ensures Interrupted(l, at, out).plan == l.plan
    ensures Interrupted(l, at, out).wakes
         == l.wakes + (if out.told.Some? then WakeIf(out.told.value.received.thread, out.told.value.wake) else []) + WakeIf(PRIMARY, out.resume)
  {
  }

  lemma StepWakes(l: Layout, a: Arm)
    ensures RunArm(l, a).wakes == l.wakes + WakesOf(a, Steps(l.plan, a.thread))
  {
    hide Interrupted;
    if a.act.Ends? { EndsWakes(l, a.at, a.act.out); }
    if a.act.Resumes? && a.thread == PRIMARY && a.thread !in l.plan.steps { assert AllDenials([]) == []; }
  }

  lemma StepPlan(l: Layout, a: Arm, t: ThreadId)
    ensures Steps(RunArm(l, a).plan, t) == if t == a.thread then StepsAfter(a, Steps(l.plan, t)) else Steps(l.plan, t)
    ensures RunArm(l, a).plan.pending == l.plan.pending - ConsumedOf(a)
  {
    hide Interrupted;
    if a.act.Ends? { EndsWakes(l, a.at, a.act.out); }
  }

  // ---------------------------------------------------------------- what a run of arms leaves

  function AheadAll(arms: seq<Arm>, i: int): seq<Event> {
    if arms == [] then [] else AheadAll(arms[..|arms| - 1], i) + AheadOf(arms[|arms| - 1], i)
  }

  function BehindAll(arms: seq<Arm>, i: int): seq<Event> {
    if arms == [] then [] else BehindAll(arms[..|arms| - 1], i) + BehindOf(arms[|arms| - 1], i)
  }

  function ParkedAll(arms: seq<Arm>, i: int): seq<Event> {
    if arms == [] then [] else ParkedAll(arms[..|arms| - 1], i) + ParkedOf(arms[|arms| - 1], i)
  }

  function NoticesAll(arms: seq<Arm>): seq<DeliveredRow> {
    if arms == [] then [] else NoticesAll(arms[..|arms| - 1]) + NoticesOf(arms[|arms| - 1])
  }

  // Each arm's wakes, by the steps its own thread was planned.
  function WakesAll(plan: AnswerPlan, arms: seq<Arm>): seq<ThreadWake> {
    if arms == [] then []
    else
      var a := arms[|arms| - 1];
      WakesAll(plan, arms[..|arms| - 1]) + WakesOf(a, Steps(plan, a.thread))
  }

  function HandedAll(arms: seq<Arm>, x: Event): nat {
    if arms == [] then 0 else HandedAll(arms[..|arms| - 1], x) + HandedBy(arms[|arms| - 1], x)
  }

  /** An arm's rows are filed under its own place, arm by arm: ahead of its interrupt, behind it, or at its settlement. */
  lemma {:induction false} RunFiles(l: Layout, arms: seq<Arm>, i: int)
    ensures At(RunAll(l, arms).settled, i) == At(l.settled, i) + AheadAll(arms, i)
    ensures At(RunAll(l, arms).idled, i) == At(l.idled, i) + BehindAll(arms, i)
    ensures At(RunAll(l, arms).parked, i) == At(l.parked, i) + ParkedAll(arms, i)
    ensures RunAll(l, arms).delivered == l.delivered + NoticesAll(arms)
    decreases |arms|
  {
    hide At, RunArm, AheadOf, BehindOf, ParkedOf, NoticesOf;
    if arms != [] {
      RunFiles(l, arms[..|arms| - 1], i);
      StepFiles(RunAll(l, arms[..|arms| - 1]), arms[|arms| - 1], i);
    }
  }

  lemma {:induction false} StepsKept(l: Layout, arms: seq<Arm>, t: ThreadId)
    requires forall k :: 0 <= k < |arms| ==> arms[k].thread != t
    ensures Steps(RunAll(l, arms).plan, t) == Steps(l.plan, t)
    decreases |arms|
  {
    hide RunArm, Steps;
    if arms != [] {
      StepsKept(l, arms[..|arms| - 1], t);
      StepPlan(RunAll(l, arms[..|arms| - 1]), arms[|arms| - 1], t);
    }
  }

  /** And the wakes it makes follow in the order the arms ran, each naming the thread it woke. */
  lemma {:induction false} RunWakes(l: Layout, arms: seq<Arm>)
    requires forall i, j :: 0 <= i < j < |arms| ==> arms[i].thread != arms[j].thread
    ensures RunAll(l, arms).wakes == l.wakes + WakesAll(l.plan, arms)
    decreases |arms|
  {
    hide RunArm, WakesOf, Steps;
    if arms != [] {
      var done, a := arms[..|arms| - 1], arms[|arms| - 1];
      RunWakes(l, done);
      StepsKept(l, done, a.thread);
      StepWakes(RunAll(l, done), a);
    }
  }

  // An arm's own rows are a piece of what is filed under its place.
  predicate PieceAt<T(==)>(piece: seq<T>, all: seq<T>, n: nat) {
    n + |piece| <= |all| && all[n..n + |piece|] == piece
  }

  ghost predicate Within<T>(piece: seq<T>, all: seq<T>) {
    exists n :: PieceAt(piece, all, n)
  }

  lemma WithinLonger<T>(piece: seq<T>, all: seq<T>, more: seq<T>)
    requires Within(piece, all)
    ensures Within(piece, all + more)
  {
    var n :| PieceAt(piece, all, n);
    assert PieceAt(piece, all + more, n);
  }

  lemma WithinEnd<T>(all: seq<T>, piece: seq<T>)
    ensures Within(piece, all + piece)
  {
    assert PieceAt(piece, all + piece, |all|);
  }

  ghost predicate Filed(arms: seq<Arm>, plan: AnswerPlan, a: Arm) {
    && Within(AheadOf(a, a.at), AheadAll(arms, a.at))
    && Within(BehindOf(a, a.at), BehindAll(arms, a.at))
    && Within(ParkedOf(a, a.at), ParkedAll(arms, a.at))
    && Within(NoticesOf(a), NoticesAll(arms))
    && Within(WakesOf(a, Steps(plan, a.thread)), WakesAll(plan, arms))
  }

  lemma {:induction false} ArmFiled(arms: seq<Arm>, plan: AnswerPlan, k: nat)
    requires k < |arms|
    ensures Filed(arms, plan, arms[k])
    decreases |arms|
  {
    hide Within, AheadOf, BehindOf, ParkedOf, NoticesOf, WakesOf;
    var done, last, a := arms[..|arms| - 1], arms[|arms| - 1], arms[k];
    if k == |arms| - 1 {
      WithinEnd(AheadAll(done, a.at), AheadOf(a, a.at));
      WithinEnd(BehindAll(done, a.at), BehindOf(a, a.at));
      WithinEnd(ParkedAll(done, a.at), ParkedOf(a, a.at));
      WithinEnd(NoticesAll(done), NoticesOf(a));
      WithinEnd(WakesAll(plan, done), WakesOf(a, Steps(plan, a.thread)));
    } else {
      ArmFiled(done, plan, k);
      WithinLonger(AheadOf(a, a.at), AheadAll(done, a.at), AheadOf(last, a.at));
      WithinLonger(BehindOf(a, a.at), BehindAll(done, a.at), BehindOf(last, a.at));
      WithinLonger(ParkedOf(a, a.at), ParkedAll(done, a.at), ParkedOf(last, a.at));
      WithinLonger(NoticesOf(a), NoticesAll(done), NoticesOf(last));
      WithinLonger(WakesOf(a, Steps(plan, a.thread)), WakesAll(plan, done), WakesOf(last, Steps(plan, last.thread)));
    }
  }

  // Every notice is some ended thread's.
  lemma {:induction false} NoticeIsSomeones(arms: seq<Arm>, d: nat)
    requires d < |NoticesAll(arms)|
    ensures exists k :: 0 <= k < |arms| && NoticesOf(arms[k]) == [NoticesAll(arms)[d]]
    decreases |arms|
  {
    var done := arms[..|arms| - 1];
    if d < |NoticesAll(done)| {
      NoticeIsSomeones(done, d);
      var k :| 0 <= k < |done| && NoticesOf(done[k]) == [NoticesAll(done)[d]];
      assert arms[k] == done[k];
    } else {
      assert NoticesOf(arms[|arms| - 1]) == [NoticesAll(arms)[d]];
    }
  }

  /** The arms write exactly the rows they were handed, each as often as it was handed over. */
  lemma {:induction false} RunWrites(l: Layout, arms: seq<Arm>, x: Event)
    requires Valid(l) && ValidArms(l, arms)
    ensures Written(RunAll(l, arms), x) == Written(l, x) + HandedAll(arms, x)
    decreases |arms|
  {
    hide Written, Valid, RunArm, ValidArm, HandedBy, N, Follows;
    if arms != [] {
      var done, a := arms[..|arms| - 1], arms[|arms| - 1];
      assert ValidArms(l, done) && ValidArm(l, a);
      RunWrites(l, done, x);
      RunFollows(l, done);
      StepWrites(l, RunAll(l, done), done, a, x);
    }
  }

  lemma StepWrites(l0: Layout, l: Layout, done: seq<Arm>, a: Arm, x: Event)
    requires Follows(l0, l, done) && ValidArm(l0, a) && forall k :: 0 <= k < |done| ==> done[k].thread != a.thread
    ensures Written(RunArm(l, a), x) == Written(l, x) + HandedBy(a, x)
  {
    hide Written, N, AllDenials, Follows, ValidWalk;
    FollowsValid(l0, l, done);
    match a.act {
      case Ends(out, consumed, steps) =>
        EndsFollows(l0, l, done, a);
        InterruptedWritten(l, a.at, out, x);
        EndsValid(l0, l, done, a);
        PlannedWritten(Interrupted(l, a.at, out), a.thread, consumed, steps, x);
      case Resumes(pair) => ResumedWritten(l, a.thread, pair, x);
      case Reparks(pair) =>
        QuietFollows(l0, l, done, a);
        ReidledWritten(l, a.at, pair, x);
      case Wakes(pair) => WokeWritten(l, PRIMARY, pair, x);
      case Rests =>
    }
  }

  lemma FollowsValid(l0: Layout, l: Layout, done: seq<Arm>)
    requires Follows(l0, l, done)
    ensures Valid(l) && l.posted == l0.posted
  {
  }

  lemma EndsValid(l0: Layout, l: Layout, done: seq<Arm>, a: Arm)
    requires Follows(l0, l, done) && ValidArm(l0, a) && a.act.Ends?
    ensures Valid(Interrupted(l, a.at, a.act.out))
  {
    hide Valid;
    FollowsValid(l0, l, done);
    InterruptedValid(l, a.at, a.act.out);
  }

  lemma {:induction false} HandedInserted(s: seq<Arm>, a: Arm, x: Event)
    ensures HandedAll(InsertArm(s, a), x) == HandedAll(s, x) + HandedBy(a, x)
    decreases |s|
  {
    hide HandedBy;
    if s == [] || s[|s| - 1].at <= a.at {
      assert (s + [a])[..|s|] == s;
    } else {
      var short, last := s[..|s| - 1], s[|s| - 1];
      HandedInserted(short, a, x);
      assert (InsertArm(short, a) + [last])[..|InsertArm(short, a)|] == InsertArm(short, a);
    }
  }

  // Sorting the arms changes nothing they hand over.
  lemma {:induction false} HandedSorted(arms: seq<Arm>, x: Event)
    ensures HandedAll(SortArms(arms), x) == HandedAll(arms, x)
    decreases |arms|
  {
    hide HandedBy, InsertArm;
    if arms != [] {
      HandedSorted(arms[..|arms| - 1], x);
      HandedInserted(SortArms(arms[..|arms| - 1]), arms[|arms| - 1], x);
    }
  }

  lemma {:induction false} FirstWakes(plan: AnswerPlan, arms: seq<Arm>)
    requires arms != []
    ensures WakesOf(arms[0], Steps(plan, arms[0].thread)) <= WakesAll(plan, arms)
    decreases |arms|
  {
    hide WakesOf;
    if |arms| > 1 {
      FirstWakes(plan, arms[..|arms| - 1]);
    } else {
      assert arms[..0] == [] && WakesAll(plan, []) == [];
    }
  }
}
