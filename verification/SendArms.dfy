/**
 A whole send: each live thread's arm found by what the send posts to it, placed
 by armOrder, and run in that order (internal/api/events.go:437-660).
 */
module SendArms {
  import opened Options
  import opened Rows
  import opened EventModel
  import opened SendLayout
  import opened LayoutUpdates
  import opened SendProgram
  import opened ArmOrder
  import opened ArmTrace
  import AnswerWalk

  // What one walk of a thread's calls takes: the answers it consumes and its steps.
  datatype Walk = Walk(consumed: set<Id>, steps: seq<AnswerStep>)

  // SettleTransition: where a settlement moves its thread, with the rows that announce it.
  datatype Move = Stays | Runs(pair: seq<Event>) | Parks(pair: seq<Event>)

  /**
   A live thread. rests: it is idle or running, where a settlement can move it.
   The rest is what the code beside the arms hands over: the settlement's walk
   and move, the interrupt arm's rows and the walk behind it, and the running
   pair of a primary a message wakes, empty when none does.
   */
  datatype Live = Live(
    id: ThreadId, rests: bool, walk: Walk, move: Move, ended: InterruptOut, mooted: Walk, woken: seq<Event>)

  // ---------------------------------------------------------------- which arm, and where

  // The first received interrupt that reaches a thread, from k on; -1 for none.
  function FirstReach(posted: seq<Event>, scoped: seq<bool>, t: ThreadId, k: nat): (i: int)
    requires |scoped| == |posted|
    ensures i == -1 || (k <= i < |posted| && Reaches(posted, scoped, t, i))
    decreases |posted| - k
  {
    if k >= |posted| then -1
    else if Reaches(posted, scoped, t, k) then k
    else FirstReach(posted, scoped, t, k + 1)
  }

  lemma {:induction false} FirstReachIs(posted: seq<Event>, scoped: seq<bool>, t: ThreadId, k: nat, i: int)
    requires |scoped| == |posted| && IsFirst(posted, scoped, t, i) && (i == -1 || k <= i)
    ensures FirstReach(posted, scoped, t, k) == i
    decreases |posted| - k
  {
    if k < |posted| && k != i { FirstReachIs(posted, scoped, t, k + 1, i); }
  }

  predicate Answered(posted: seq<Event>, t: ThreadId) {
    exists i :: 0 <= i < |posted| && IsAnswer(posted[i].kind) && posted[i].thread == t
  }

  // Answered, not interrupted, and resting where a settlement can move it.
  predicate Settles(posted: seq<Event>, scoped: seq<bool>, th: Live)
    requires |scoped| == |posted|
  {
    FirstReach(posted, scoped, th.id, 0) < 0 && Answered(posted, th.id) && th.rests
  }

  // settledAt
  function SettledPlace(l: Layout, t: ThreadId): int {
    var slots := Slots(l, t, |l.posted|);
    if slots == [] then |l.posted| else slots[|slots| - 1]
  }

  // armOrder: a thread's interrupt, else its settlement, else the primary ahead
  // of everything, else behind everything.
  function ArmPlace(l: Layout, scoped: seq<bool>, th: Live): int
    requires |scoped| == |l.posted|
  {
    var i := FirstReach(l.posted, scoped, th.id, 0);
    if i >= 0 then i
    else if Settles(l.posted, scoped, th) then SettledPlace(l, th.id)
    else if th.id == PRIMARY then -1
    else |l.posted|
  }

  // The arm a thread takes.
  function ActOf(l: Layout, scoped: seq<bool>, th: Live): Act
    requires |scoped| == |l.posted|
  {
    if FirstReach(l.posted, scoped, th.id, 0) >= 0 then Ends(th.ended, th.mooted.consumed, th.mooted.steps)
    else if Settles(l.posted, scoped, th) then
      match th.move
      case Stays => Rests
      case Runs(pair) => Resumes(pair)
      case Parks(pair) => Reparks(pair)
    else if th.id == PRIMARY then Wakes(th.woken)
    else Rests
  }

  function ArmOf(l: Layout, scoped: seq<bool>, th: Live): Arm
    requires |scoped| == |l.posted|
  {
    Arm(th.id, ArmPlace(l, scoped, th), ActOf(l, scoped, th))
  }

  function Arms(l: Layout, scoped: seq<bool>, threads: seq<Live>): (r: seq<Arm>)
    requires |scoped| == |l.posted|
    ensures |r| == |threads| && forall k :: 0 <= k < |r| ==> r[k] == ArmOf(l, scoped, threads[k])
  {
    seq(|threads|, k requires 0 <= k < |threads| => ArmOf(l, scoped, threads[k]))
  }

  // The layout once every settling thread has been walked, before any arm runs.
  function WalkAll(l: Layout, scoped: seq<bool>, threads: seq<Live>): (r: Layout)
    requires |scoped| == |l.posted|
    ensures r.posted == l.posted
    decreases |threads|
  {
    if threads == [] then l
    else
      var th, before := threads[|threads| - 1], WalkAll(l, scoped, threads[..|threads| - 1]);
      if Settles(l.posted, scoped, th) then Planned(before, th.id, th.walk.consumed, th.walk.steps) else before
  }

  // ---------------------------------------------------------------- what the walks promise

  // A walk consumes distinct posted answers of its own thread.
  ghost predicate GoodWalk(posted: seq<Event>, t: ThreadId, w: Walk) {
    && (forall j :: 0 <= j < |w.steps| ==> w.steps[j].answer in w.consumed && ValidStep(posted, {}, t, w.steps[j]))
    && (forall i, j :: 0 <= i < j < |w.steps| ==> w.steps[i].answer != w.steps[j].answer)
  }

  ghost predicate GoodThreads(posted: seq<Event>, threads: seq<Live>) {
    && (forall k :: 0 <= k < |threads| ==>
          GoodWalk(posted, threads[k].id, threads[k].walk) && GoodWalk(posted, threads[k].id, threads[k].mooted))
    && (forall i, j :: 0 <= i < j < |threads| ==> threads[i].id != threads[j].id)
  }

  lemma GoodIsValid(l: Layout, t: ThreadId, w: Walk)
    requires GoodWalk(l.posted, t, w) && t !in l.plan.steps
    ensures ValidWalk(l, t, w.consumed, w.steps)
  {
    forall j | 0 <= j < |w.steps| ensures ValidStep(l.posted, l.plan.pending - w.consumed, t, w.steps[j]) {
      assert ValidStep(l.posted, {}, t, w.steps[j]);
    }
  }

  /** The walk of a thread's calls over the routed answers is such a walk: it consumes what its steps name. */
  lemma CallsWalkWell(
    l: Layout, t: ThreadId, calls: seq<AnswerWalk.Call>, answers: seq<AnswerWalk.Answer>, owner: Id -> ThreadId, denial: Id -> Event)
    requires Valid(l) && t !in l.plan.steps && AnswerWalk.Routed(l.posted, answers, owner)
    requires forall id :: id in l.plan.pending ==> PostAt(l.posted, id) >= 0
    requires forall k :: 0 <= k < |calls| ==> owner(calls[k].id) == t
    requires forall k, i :: 0 <= k < |calls| && 0 <= i < |l.posted| ==> !AnswerWalk.ReadBy(calls[k], l.posted[i].id)
    ensures var steps := AnswerWalk.PlanSteps(AnswerWalk.Merge(calls, answers), l.plan.pending, [], denial);
      GoodWalk(l.posted, t, Walk(set st | st in steps :: st.answer, steps))
  {
    hide Valid;
    AnswerWalk.WalkIsValid(l, t, calls, answers, owner, denial);
    var steps := AnswerWalk.PlanSteps(AnswerWalk.Merge(calls, answers), l.plan.pending, [], denial);
    var consumed := set st | st in steps :: st.answer;
    forall j | 0 <= j < |steps| ensures steps[j].answer in consumed && ValidStep(l.posted, {}, t, steps[j]) {
      assert steps[j] in steps;
      assert ValidStep(l.posted, l.plan.pending - consumed, t, steps[j]);
    }
  }

  // The walks leave a valid layout with nothing recorded but the plan, which
  // holds steps of settling threads alone.
  ghost predicate Walked(l: Layout, r: Layout, scoped: seq<bool>, threads: seq<Live>)
    requires |scoped| == |l.posted|
  {
    && Valid(r) && Fresh(r) && r.posted == l.posted
    && forall t :: t in r.plan.steps ==>
         exists k :: 0 <= k < |threads| && threads[k].id == t && Settles(l.posted, scoped, threads[k])
  }

  lemma WalkOne(l: Layout, r: Layout, scoped: seq<bool>, done: seq<Live>, th: Live)
    requires |scoped| == |l.posted| && Walked(l, r, scoped, done)
    requires GoodWalk(l.posted, th.id, th.walk) && Settles(l.posted, scoped, th)
    requires forall k :: 0 <= k < |done| ==> done[k].id != th.id
    ensures ValidWalk(r, th.id, th.walk.consumed, th.walk.steps)
    ensures Walked(l, Planned(r, th.id, th.walk.consumed, th.walk.steps), scoped, done + [th])
  {
    hide Settles, GoodWalk, Valid, ValidWalk;
    GoodIsValid(r, th.id, th.walk);
    PlannedValid(r, th.id, th.walk.consumed, th.walk.steps);
    var n, all := Planned(r, th.id, th.walk.consumed, th.walk.steps), done + [th];
    WalkedMore(l, r, scoped, done, th);
    assert all[|done|] == th;
  }

  lemma WalkedMore(l: Layout, r: Layout, scoped: seq<bool>, done: seq<Live>, th: Live)
    requires |scoped| == |l.posted| && Walked(l, r, scoped, done)
    ensures Walked(l, r, scoped, done + [th])
  {
    hide Settles, Valid;
    forall t | t in r.plan.steps
      ensures exists k :: 0 <= k < |done + [th]| && (done + [th])[k].id == t && Settles(l.posted, scoped, (done + [th])[k])
    {
      var k :| 0 <= k < |done| && done[k].id == t && Settles(l.posted, scoped, done[k]);
      assert (done + [th])[k] == done[k];
    }
  }

  lemma {:induction false} WalkAllWalked(l: Layout, scoped: seq<bool>, threads: seq<Live>)
    requires |scoped| == |l.posted| && Valid(l) && Fresh(l) && l.plan.steps == map[] && GoodThreads(l.posted, threads)
    ensures Walked(l, WalkAll(l, scoped, threads), scoped, threads)
    decreases |threads|
  {
    hide Settles, GoodWalk, Valid;
    if threads != [] {
      var done, th := threads[..|threads| - 1], threads[|threads| - 1];
      WalkAllWalked(l, scoped, done);
      assert done + [th] == threads;
      if Settles(l.posted, scoped, th) {
        WalkOne(l, WalkAll(l, scoped, done), scoped, done, th);
      } else {
        WalkedMore(l, WalkAll(l, scoped, done), scoped, done, th);
      }
    }
  }

  // ---------------------------------------------------------------- the arms are what ArmsAgree asks

  // A settlement is processed at a place its thread's walk fills, or behind everything received.
  lemma SettledPlaceIs(l: Layout, t: ThreadId)
    ensures SettledPlace(l, t) == |l.posted| || (0 <= SettledPlace(l, t) < |l.posted| && IsSlot(l, SettledPlace(l, t)))
  {
    var slots := Slots(l, t, |l.posted|);
    if slots != [] { SlotsMember(l, t, |l.posted|, slots[|slots| - 1]); }
  }

  lemma ArmIsValid(l: Layout, r: Layout, scoped: seq<bool>, threads: seq<Live>, k: nat)
    requires |scoped| == |l.posted| && Walked(l, r, scoped, threads) && GoodThreads(l.posted, threads) && k < |threads|
    ensures ValidArm(r, ArmOf(r, scoped, threads[k]))
  {
    hide Valid, SettledPlace, IsSlot;
    var th := threads[k];
    SettledPlaceIs(r, th.id);
    if FirstReach(r.posted, scoped, th.id, 0) >= 0 {
      assert th.id !in r.plan.steps;
    }
  }

  /** The arms armOrder places are valid, of distinct threads, and sorted by it in a valid run. */
  lemma ArmsAreValid(l: Layout, scoped: seq<bool>, threads: seq<Live>)
    requires |scoped| == |l.posted| && Valid(l) && Fresh(l) && l.plan.steps == map[] && GoodThreads(l.posted, threads)
    ensures var r := WalkAll(l, scoped, threads); var arms := Arms(r, scoped, threads);
      && Valid(r) && Fresh(r)
      && (forall k :: 0 <= k < |arms| ==> ValidArm(r, arms[k]))
      && (forall i, j :: 0 <= i < j < |arms| ==> arms[i].thread != arms[j].thread)
      && ValidArms(r, SortArms(arms))
  {
    hide Valid, ValidArm, ArmPlace, ActOf, WalkAll;
    WalkAllWalked(l, scoped, threads);
    var r := WalkAll(l, scoped, threads);
    var arms := Arms(r, scoped, threads);
    forall k | 0 <= k < |arms| ensures ValidArm(r, arms[k]) { ArmIsValid(l, r, scoped, threads, k); }
    SortedArms(r, arms, SortArms(arms));
  }

  // p picks idle and running rows alone: nothing posted, denied, settled or delivered.
  ghost predicate Quiet(posted: seq<Event>, threads: seq<Live>, p: Event -> bool) {
    No(p, posted) && forall k :: 0 <= k < |threads| ==> QuietThread(threads[k], p)
  }

  ghost predicate QuietThread(th: Live, p: Event -> bool) {
    && (forall j :: 0 <= j < |th.walk.steps| ==> No(p, th.walk.steps[j].denials))
    && (forall j :: 0 <= j < |th.mooted.steps| ==> No(p, th.mooted.steps[j].denials))
    && No(p, th.ended.settled) && (th.ended.told.Some? ==> !p(th.ended.told.value.received))
  }

  lemma NewQuiet(posted: seq<Event>, p: Event -> bool)
    requires No(p, posted)
    ensures OnlyStatus(NewLayout(posted), p)
  {
  }

  lemma {:induction false} WalkAllQuiet(l: Layout, scoped: seq<bool>, threads: seq<Live>, p: Event -> bool)
    requires |scoped| == |l.posted| && OnlyStatus(l, p) && forall k :: 0 <= k < |threads| ==> QuietThread(threads[k], p)
    ensures OnlyStatus(WalkAll(l, scoped, threads), p)
    decreases |threads|
  {
    hide OnlyStatus, Settles, Planned, No;
    if threads != [] {
      var done, th := threads[..|threads| - 1], threads[|threads| - 1];
      WalkAllQuiet(l, scoped, done, p);
      PlanQuiet(WalkAll(l, scoped, done), th.id, th.walk.consumed, th.walk.steps, p);
    }
  }

  lemma ArmsQuiet(l: Layout, scoped: seq<bool>, threads: seq<Live>, p: Event -> bool)
    requires |scoped| == |l.posted| && forall k :: 0 <= k < |threads| ==> QuietThread(threads[k], p)
    ensures forall k :: 0 <= k < |threads| ==> ArmQuiet(Arms(l, scoped, threads)[k], p)
  {
    hide No, SettledPlace, Settles;
  }

  /**
   interruptAt, settledAt, armOrder and the layout agree, for every mix of named
   and session-wide interrupts, settlements and messages: the status rows p
   picks stand in the batch in the order the arms ran, idle and re-park rows
   first and then running rows.
   */
  lemma SendAgrees(posted: seq<Event>, scoped: seq<bool>, threads: seq<Live>, p: Event -> bool)
    requires DistinctIds(posted) && |scoped| == |posted| && GoodThreads(posted, threads) && Quiet(posted, threads, p)
    ensures var r := WalkAll(NewLayout(posted), scoped, threads); var arms := SortArms(Arms(r, scoped, threads));
      && InOrder(arms) && multiset(arms) == multiset(Arms(r, scoped, threads)) && Valid(RunAll(r, arms))
      && Keep(Order(RunAll(r, arms)), p) == Keep(IdleTrace(arms), p) + Keep(RunningTrace(arms), p)
  {
    hide Valid, Order, WalkAll, GoodThreads, ArmOf, RunAll, IdleTrace, RunningTrace, Keep, OnlyStatus, QuietThread, ArmQuiet;
    var l := NewLayout(posted);
    NewIsFresh(posted);
    ArmsAreValid(l, scoped, threads);
    NewQuiet(posted, p);
    WalkAllQuiet(l, scoped, threads, p);
    var r := WalkAll(l, scoped, threads);
    ArmsQuiet(r, scoped, threads, p);
    SortedQuiet(Arms(r, scoped, threads), p);
    ArmsAgree(r, SortArms(Arms(r, scoped, threads)), p);
  }

  lemma SortedQuiet(arms: seq<Arm>, p: Event -> bool)
    requires forall k :: 0 <= k < |arms| ==> ArmQuiet(arms[k], p)
    ensures forall k :: 0 <= k < |SortArms(arms)| ==> ArmQuiet(SortArms(arms)[k], p)
  {
    hide ArmQuiet;
    var sorted := SortArms(arms);
    forall k | 0 <= k < |sorted| ensures ArmQuiet(sorted[k], p) {
      assert sorted[k] in multiset(arms);
    }
  }

  // ---------------------------------------------------------------- the send

  lemma {:induction false} SlotsSame(l: Layout, r: Layout, t: ThreadId, k: nat)
    requires k <= |l.posted| && r.posted == l.posted && Steps(r.plan, t) == Steps(l.plan, t)
    ensures Slots(r, t, k) == Slots(l, t, k)
    decreases k
  {
    if k > 0 { SlotsSame(l, r, t, k - 1); }
  }

  lemma OtherPlaces(l: Layout, u: ThreadId, w: Walk, t: ThreadId)
    requires t != u
    ensures SettledPlace(Planned(l, u, w.consumed, w.steps), t) == SettledPlace(l, t)
  {
    SlotsSame(l, Planned(l, u, w.consumed, w.steps), t, |l.posted|);
  }

  lemma LastSlot(l: Layout, t: ThreadId)
    ensures SettledPlace(l, t) == var slots := Slots(l, t, |l.posted|); if slots == [] then |l.posted| else slots[|slots| - 1]
  {
  }

  // The first pass: each settling thread walked, and its settlement's place kept.
  method WalkThreads(s: Send, scoped: seq<bool>, threads: seq<Live>) returns (settling: map<ThreadId, int>)
    requires s.ValidSend() && |scoped| == |s.posted| && Fresh(s.View()) && s.plan.steps == map[]
    requires GoodThreads(s.posted, threads)
    modifies s
    ensures s.ValidSend() && s.View() == WalkAll(old(s.View()), scoped, threads)
    ensures forall t :: t in settling <==> exists k :: 0 <= k < |threads| && threads[k].id == t && Settles(s.posted, scoped, threads[k])
    ensures forall t :: t in settling ==> settling[t] == SettledPlace(s.View(), t)
  {
    hide Valid, GoodWalk, Settles, SettledPlace, ValidWalk;
    ghost var l := s.View();
    settling := map[];
    for n := 0 to |threads|
      invariant s.ValidSend() && s.View() == WalkAll(l, scoped, threads[..n]) && s.posted == l.posted
      invariant Walked(l, s.View(), scoped, threads[..n])
      invariant forall t :: t in settling <==> exists k :: 0 <= k < n && threads[k].id == t && Settles(l.posted, scoped, threads[k])
      invariant forall t :: t in settling ==> settling[t] == SettledPlace(s.View(), t)
    {
      var th := threads[n];
      assert threads[..n + 1][..n] == threads[..n] && threads[..n + 1] == threads[..n] + [th];
      if Settles(s.posted, scoped, th) {
        ghost var r := s.View();
        WalkOne(l, r, scoped, threads[..n], th);
        s.Plan(th.id, th.walk.consumed, th.walk.steps);
        forall t | t != th.id ensures SettledPlace(s.View(), t) == SettledPlace(r, t) { OtherPlaces(r, th.id, th.walk, t); }
        var at := s.SettledAt(th.id);
        LastSlot(s.View(), th.id);
        settling := settling[th.id := at];
      } else {
        WalkedMore(l, s.View(), scoped, threads[..n], th);
      }
    }
    assert threads[..|threads|] == threads;
  }

  // The second: each thread's arm, at the place armOrder gives it.
  method PlaceArms(s: Send, scoped: seq<bool>, threads: seq<Live>, settling: map<ThreadId, int>) returns (arms: seq<Arm>)
    requires |scoped| == |s.posted|
    requires forall i, j :: 0 <= i < j < |threads| ==> threads[i].id != threads[j].id
    requires forall t :: t in settling <==> exists k :: 0 <= k < |threads| && threads[k].id == t && Settles(s.posted, scoped, threads[k])
    requires forall t :: t in settling ==> settling[t] == SettledPlace(s.View(), t)
    ensures arms == Arms(s.View(), scoped, threads)
  {
    hide SettledPlace;
    arms := [];
    for n := 0 to |threads|
      invariant |arms| == n && forall k :: 0 <= k < n ==> arms[k] == ArmOf(s.View(), scoped, threads[k])
    {
      var th := threads[n];
      var i := InterruptAt(s.posted, scoped, th.id);
      FirstReachIs(s.posted, scoped, th.id, 0, i);
      SettlesAlone(s.posted, scoped, threads, n, settling);
      var arm;
      if i >= 0 {
        arm := Arm(th.id, i, Ends(th.ended, th.mooted.consumed, th.mooted.steps));
      } else if th.id in settling {
        arm := Arm(th.id, settling[th.id], match th.move case Stays => Rests case Runs(pair) => Resumes(pair) case Parks(pair) => Reparks(pair));
      } else if th.id == PRIMARY {
        arm := Arm(th.id, -1, Wakes(th.woken));
      } else {
        arm := Arm(th.id, |s.posted|, Rests);
      }
      assert arm == ArmOf(s.View(), scoped, th);
      arms := arms + [arm];
    }
  }

  lemma SettlesAlone(posted: seq<Event>, scoped: seq<bool>, threads: seq<Live>, n: nat, settling: map<ThreadId, int>)
    requires |scoped| == |posted| && n < |threads|
    requires forall i, j :: 0 <= i < j < |threads| ==> threads[i].id != threads[j].id
    requires forall t :: t in settling <==> exists k :: 0 <= k < |threads| && threads[k].id == t && Settles(posted, scoped, threads[k])
    ensures threads[n].id in settling <==> Settles(posted, scoped, threads[n])
  {
    hide Settles;
    var t := threads[n].id;
    if t in settling {
      var k :| 0 <= k < |threads| && threads[k].id == t && Settles(posted, scoped, threads[k]);
      assert k == n;
    }
  }

  /**
   The send, from the posted events to the batch it appends: walks, arms sorted
   by armOrder, each run on the layout, and the layout laid out.
   */
  method SendSessionEvents(posted: seq<Event>, scoped: seq<bool>, threads: seq<Live>) returns (batch: seq<Event>)
    requires DistinctIds(posted) && |scoped| == |posted| && GoodThreads(posted, threads)
    ensures var r := WalkAll(NewLayout(posted), scoped, threads); var arms := SortArms(Arms(r, scoped, threads));
      Valid(RunAll(r, arms)) && batch == Order(RunAll(r, arms))
  {
    hide Valid, Order, WalkAll, GoodThreads, ArmOf, RunAll;
    var s := new Send(posted);
    ghost var l := s.View();
    NewIsFresh(posted);
    ArmsAreValid(l, scoped, threads);
    DistinctThreads(posted, threads);
    var settling := WalkThreads(s, scoped, threads);
    var arms := PlaceArms(s, scoped, threads, settling);
    var sorted;
    sorted, batch := RunSend(s, arms);
  }

  ghost function NewLayout(posted: seq<Event>): Layout {
    Layout(posted, map[], map[], map[], [], [], AnswerPlan(set ev | ev in posted && IsAnswer(ev.kind) :: ev.id, map[]))
  }

  lemma NewIsFresh(posted: seq<Event>)
    requires DistinctIds(posted)
    ensures Fresh(NewLayout(posted)) && NewLayout(posted).plan.steps == map[] && Valid(NewLayout(posted))
  {
    FreshValid(posted, NewLayout(posted).plan);
  }

  lemma DistinctThreads(posted: seq<Event>, threads: seq<Live>)
    requires GoodThreads(posted, threads)
    ensures forall i, j :: 0 <= i < j < |threads| ==> threads[i].id != threads[j].id
  {
  }
}
