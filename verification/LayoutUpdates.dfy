/** What each recording step does to a layout: it stays valid, and it holds exactly what it was given. */
module LayoutUpdates {
  import opened Rows
  import opened Options
  import opened EventModel
  import opened SendLayout
  import opened LayoutConservation

  function Append(m: map<int, seq<Event>>, i: int, rows: seq<Event>): map<int, seq<Event>> {
    m[i := At(m, i) + rows]
  }

  function Woke(l: Layout, t: ThreadId, pair: seq<Event>): Layout {
    if pair == [] then l else l.(wakes := l.wakes + [ThreadWake(t, pair, [])])
  }

  function Delivered(l: Layout, at: int, row: Event): Layout {
    l.(delivered := l.delivered + [DeliveredRow(at, row)])
  }

  function Told(l: Layout, at: int, told: Option<Delivery>): Layout {
    match told
    case None => l
    case Some(d) => Delivered(Woke(l, d.received.thread, d.wake), at, d.received)
  }

  // What an interrupt's arm wrote ahead of it and behind it.
  function Settled(l: Layout, at: int, settled: seq<Event>, idled: seq<Event>): Layout {
    l.(settled := Append(l.settled, at, settled), idled := Append(l.idled, at, idled))
  }

  function Interrupted(l: Layout, at: int, out: InterruptOut): Layout {
    Woke(Told(Settled(l, at, out.settled, out.idled), at, out.told), PRIMARY, out.resume)
  }

  function Reidled(l: Layout, at: int, pair: seq<Event>): Layout {
    l.(parked := Append(l.parked, at, pair))
  }

  function AllDenials(steps: seq<AnswerStep>): seq<Event> {
    if steps == [] then [] else AllDenials(steps[..|steps| - 1]) + steps[|steps| - 1].denials
  }

  function Stripped(steps: seq<AnswerStep>): (r: seq<AnswerStep>)
    ensures |r| == |steps|
    ensures forall j :: 0 <= j < |r| ==> r[j] == AnswerStep(steps[j].answer, [])
  {
    seq(|steps|, j requires 0 <= j < |steps| => AnswerStep(steps[j].answer, []))
  }

  // A resumed primary's denial results move from their steps to its wake.
  function Resumed(l: Layout, t: ThreadId, pair: seq<Event>): Layout {
    if t == PRIMARY && t in l.plan.steps then
      l.(plan := l.plan.(steps := l.plan.steps[t := Stripped(l.plan.steps[t])]),
         wakes := l.wakes + [ThreadWake(t, pair, AllDenials(l.plan.steps[t]))])
    else l.(wakes := l.wakes + [ThreadWake(t, pair, [])])
  }

  // A walk of thread t recorded in the plan: it takes what it consumes out of
  // pending and leaves the thread's steps.
  function Planned(l: Layout, t: ThreadId, consumed: set<Id>, steps: seq<AnswerStep>): Layout {
    l.(plan := AnswerPlan(l.plan.pending - consumed,
                          if steps == [] then l.plan.steps else l.plan.steps[t := steps]))
  }

  ghost predicate ValidWalk(l: Layout, t: ThreadId, consumed: set<Id>, steps: seq<AnswerStep>) {
    && t !in l.plan.steps
    && (forall j :: 0 <= j < |steps| ==> ValidStep(l.posted, l.plan.pending - consumed, t, steps[j]))
    && (forall i, j :: 0 <= i < j < |steps| ==> steps[i].answer != steps[j].answer)
  }

  // ---------------------------------------------------------------- validity

  lemma DeliveredValid(l: Layout, at: int, row: Event)
    requires Valid(l) && 0 <= at < |l.posted|
    ensures Valid(Delivered(l, at, row))
  {
  }

  lemma SettledValid(l: Layout, at: int, settled: seq<Event>, idled: seq<Event>)
    requires Valid(l) && 0 <= at < |l.posted| && l.posted[at].kind == Interrupt
    ensures Valid(Settled(l, at, settled, idled))
  {
    var r := Settled(l, at, settled, idled);
    assert forall i :: 0 <= i < |l.posted| ==> IsSlot(r, i) == IsSlot(l, i);
  }

  lemma InterruptedValid(l: Layout, at: int, out: InterruptOut)
    requires Valid(l) && 0 <= at < |l.posted| && l.posted[at].kind == Interrupt
    ensures Valid(Interrupted(l, at, out))
  {
    hide Valid;
    SettledValid(l, at, out.settled, out.idled);
    var l1 := Settled(l, at, out.settled, out.idled);
    if out.told.Some? {
      var d := out.told.value;
      WokeValid(l1, d.received.thread, d.wake);
      DeliveredValid(Woke(l1, d.received.thread, d.wake), at, d.received);
    }
    WokeValid(Told(l1, at, out.told), PRIMARY, out.resume);
  }

  lemma ReidledValid(l: Layout, at: int, pair: seq<Event>)
    requires Valid(l) && (at == |l.posted| || (0 <= at < |l.posted| && IsSlot(l, at)))
    ensures Valid(Reidled(l, at, pair))
  {
  }

  lemma WokeValid(l: Layout, t: ThreadId, pair: seq<Event>)
    requires Valid(l)
    ensures Valid(Woke(l, t, pair))
  {
  }

  lemma ResumedSlots(l: Layout, t: ThreadId, pair: seq<Event>, i: nat)
    requires i < |l.posted|
    ensures IsSlot(Resumed(l, t, pair), i) == IsSlot(l, i)
  {
  }

  lemma ResumedPlan(l: Layout, t: ThreadId, pair: seq<Event>)
    requires Valid(l)
    ensures ValidPlan(l.posted, Resumed(l, t, pair).plan)
  {
    var plan := Resumed(l, t, pair).plan;
    forall u, j | u in plan.steps && 0 <= j < |plan.steps[u]|
      ensures u in l.plan.steps && j < |l.plan.steps[u]|
      ensures plan.steps[u][j].answer == l.plan.steps[u][j].answer
      ensures ValidStep(l.posted, plan.pending, u, plan.steps[u][j])
    {
      assert ValidStep(l.posted, l.plan.pending, u, l.plan.steps[u][j]);
    }
  }

  lemma ResumedValid(l: Layout, t: ThreadId, pair: seq<Event>)
    requires Valid(l)
    ensures Valid(Resumed(l, t, pair))
  {
    ResumedPlan(l, t, pair);
    var r := Resumed(l, t, pair);
    assert r.settled == l.settled && r.idled == l.idled && r.parked == l.parked && r.delivered == l.delivered;
    forall i: nat | i < |l.posted| ensures IsSlot(r, i) == IsSlot(l, i) { ResumedSlots(l, t, pair, i); }
    hide ValidPlan, IsSlot, Resumed;
  }

  lemma PlannedValid(l: Layout, t: ThreadId, consumed: set<Id>, steps: seq<AnswerStep>)
    requires Valid(l) && ValidWalk(l, t, consumed, steps)
    ensures Valid(Planned(l, t, consumed, steps))
  {
  }

  // ---------------------------------------------------------------- conservation

  // What an interrupt arm hands over, as often as it holds x.
  function OutRows(out: InterruptOut, x: Event): nat {
    N(out.settled, x) + N(out.idled, x) + N(out.resume, x)
    + (match out.told
       case None => 0
       case Some(d) => N(d.wake, x) + (if d.received == x then 1 else 0))
  }

  lemma AroundStep(l: Layout, k: nat, x: Event)
    requires k < |l.posted|
    ensures AroundUpTo(l, k + 1, x) == AroundUpTo(l, k, x) + Around(l, k, x) + N(OwnDenials(l, k), x)
  {
  }

  lemma NoneAround(l: Layout, x: Event)
    ensures AroundUpTo(l, 0, x) == 0
  {
  }

  lemma SameDenials(l: Layout, r: Layout, k: nat)
    requires k < |l.posted| && r.posted == l.posted && r.plan == l.plan
    ensures OwnDenials(r, k) == OwnDenials(l, k)
  {
  }

  lemma {:induction false} AroundChanged(l: Layout, r: Layout, at: int, k: nat, x: Event, d: int)
    requires k <= |l.posted| && r.posted == l.posted && r.plan == l.plan
    requires forall i: nat :: i < |l.posted| && i != at ==> Around(r, i, x) == Around(l, i, x)
    requires 0 <= at < |l.posted| ==> Around(r, at, x) == Around(l, at, x) + d
    ensures AroundUpTo(r, k, x) == AroundUpTo(l, k, x) + (if 0 <= at < k then d else 0)
    decreases k
  {
    hide OwnDenials, Around, N, AroundUpTo;
    if k > 0 {
      SameDenials(l, r, k - 1);
      AroundChanged(l, r, at, k - 1, x, d);
      AroundStep(l, k - 1, x);
      AroundStep(r, k - 1, x);
    } else {
      NoneAround(l, x);
      NoneAround(r, x);
    }
  }

  lemma WakeSnoc(wakes: seq<ThreadWake>, w: ThreadWake, x: Event)
    ensures WakeRows(wakes + [w], x) == WakeRows(wakes, x) + N(w.pair, x) + N(w.consumed, x)
  {
  }

  lemma DeliveredSnoc(ds: seq<DeliveredRow>, d: DeliveredRow, x: Event)
    ensures DeliveredRows(ds + [d], x) == DeliveredRows(ds, x) + (if d.row == x then 1 else 0)
  {
  }

  lemma {:induction false} AroundSame(l: Layout, r: Layout, k: nat, x: Event)
    requires k <= |l.posted| && r.posted == l.posted && r.plan == l.plan
    requires r.settled == l.settled && r.idled == l.idled && r.parked == l.parked
    ensures AroundUpTo(r, k, x) == AroundUpTo(l, k, x)
    decreases k
  {
    if k > 0 { AroundSame(l, r, k - 1, x); }
  }

  lemma WokeWritten(l: Layout, t: ThreadId, pair: seq<Event>, x: Event)
    ensures Written(Woke(l, t, pair), x) == Written(l, x) + N(pair, x)
  {
    AroundSame(l, Woke(l, t, pair), |l.posted|, x);
    WakeSnoc(l.wakes, ThreadWake(t, pair, []), x);
  }

  lemma DeliveredWritten(l: Layout, at: int, row: Event, x: Event)
    ensures Written(Delivered(l, at, row), x) == Written(l, x) + (if row == x then 1 else 0)
  {
    AroundSame(l, Delivered(l, at, row), |l.posted|, x);
    DeliveredSnoc(l.delivered, DeliveredRow(at, row), x);
  }

  lemma SettledWritten(l: Layout, at: int, settled: seq<Event>, idled: seq<Event>, x: Event)
    requires 0 <= at < |l.posted|
    ensures Written(Settled(l, at, settled, idled), x) == Written(l, x) + N(settled, x) + N(idled, x)
  {
    NConcat(At(l.settled, at), settled, x);
    NConcat(At(l.idled, at), idled, x);
    AroundChanged(l, Settled(l, at, settled, idled), at, |l.posted|, x, N(settled, x) + N(idled, x));
  }

  lemma InterruptedWritten(l: Layout, at: int, out: InterruptOut, x: Event)
    requires 0 <= at < |l.posted|
    ensures Written(Interrupted(l, at, out), x) == Written(l, x) + OutRows(out, x)
  {
    hide Written, N;
    SettledWritten(l, at, out.settled, out.idled, x);
    var l1 := Settled(l, at, out.settled, out.idled);
    if out.told.Some? {
      var d := out.told.value;
      WokeWritten(l1, d.received.thread, d.wake, x);
      DeliveredWritten(Woke(l1, d.received.thread, d.wake), at, d.received, x);
    }
    WokeWritten(Told(l1, at, out.told), PRIMARY, out.resume, x);
  }

  lemma ReidledWritten(l: Layout, at: int, pair: seq<Event>, x: Event)
    requires 0 <= at <= |l.posted|
    ensures Written(Reidled(l, at, pair), x) == Written(l, x) + N(pair, x)
  {
    NConcat(At(l.parked, at), pair, x);
    AroundChanged(l, Reidled(l, at, pair), at, |l.posted|, x, N(pair, x));
  }

  // ---------------------------------------------------------------- a thread's denials

  // How often x is among the denials planned beside thread t's posted answers.
  ghost function Beside(l: Layout, t: ThreadId, i: nat, x: Event): nat
    requires i < |l.posted|
  {
    if l.posted[i].thread == t then N(OwnDenials(l, i), x) else 0
  }

  ghost function BesideAll(l: Layout, t: ThreadId, x: Event): (r: seq<nat>)
    ensures |r| == |l.posted|
    ensures forall i :: 0 <= i < |r| ==> r[i] == Beside(l, t, i, x)
  {
    seq(|l.posted|, i requires 0 <= i < |l.posted| => Beside(l, t, i, x))
  }

  ghost function Walked(l: Layout, t: ThreadId, k: nat, x: Event): (r: seq<nat>)
    requires Valid(l) && k <= |l.posted|
    ensures |r| == k
    ensures forall i :: 0 <= i < k ==> r[i] == Beside(l, t, Listed(l, i), x)
  {
    seq(k, i requires 0 <= i < k => Beside(l, t, Listed(l, i), x))
  }

  lemma WalkedAt(l: Layout, t: ThreadId, i: nat, x: Event)
    requires Valid(l) && i < |l.posted|
    ensures Beside(l, t, Listed(l, i), x)
         == if l.posted[i].thread == t && IsSlot(l, i) then N(StepFor(l, i).denials, x) else 0
  {
    if IsSlot(l, i) {
      ListedSlot(l, i);
      ListedDenials(l, i);
    }
  }

  lemma {:induction false} WalkedSum(l: Layout, t: ThreadId, k: nat, x: Event)
    requires Valid(l) && k <= |l.posted|
    requires |Slots(l, t, k)| <= |Steps(l.plan, t)|
    ensures Sum(Walked(l, t, k, x)) == N(AllDenials(Steps(l.plan, t)[..|Slots(l, t, k)|]), x)
    decreases k
  {
    hide *;
    if k > 0 {
      FewerSlots(l, t, k - 1);
      WalkedSum(l, t, k - 1, x);
      WalkedStep(l, t, k - 1, x);
    } else {
      NothingWalked(l, t, x);
    }
  }

  lemma FewerSlots(l: Layout, t: ThreadId, k: nat)
    requires k < |l.posted|
    ensures |Slots(l, t, k)| <= |Slots(l, t, k + 1)|
  {
  }

  lemma NothingWalked(l: Layout, t: ThreadId, x: Event)
    requires Valid(l)
    ensures Sum(Walked(l, t, 0, x)) == 0 && Slots(l, t, 0) == [] && N(AllDenials(Steps(l.plan, t)[..0]), x) == 0
  {
  }

  lemma WalkedStep(l: Layout, t: ThreadId, k: nat, x: Event)
    requires Valid(l) && k < |l.posted|
    requires |Slots(l, t, k)| <= |Slots(l, t, k + 1)| <= |Steps(l.plan, t)|
    ensures Sum(Walked(l, t, k + 1, x)) - Sum(Walked(l, t, k, x))
         == N(AllDenials(Steps(l.plan, t)[..|Slots(l, t, k + 1)|]), x)
            - N(AllDenials(Steps(l.plan, t)[..|Slots(l, t, k)|]), x)
  {
    WalkedSnoc(l, t, k, x);
    WalkedAt(l, t, k, x);
    var steps, m := Steps(l.plan, t), |Slots(l, t, k)|;
    if l.posted[k].thread == t && IsSlot(l, k) {
      DenialsSnoc(steps, m, x);
    }
    hide Walked, AllDenials, Sum, N, Valid, Beside;
  }

  lemma WalkedSnoc(l: Layout, t: ThreadId, k: nat, x: Event)
    requires Valid(l) && k < |l.posted|
    ensures Sum(Walked(l, t, k + 1, x)) == Sum(Walked(l, t, k, x)) + Beside(l, t, Listed(l, k), x)
  {
    assert Walked(l, t, k + 1, x)[..k] == Walked(l, t, k, x);
  }

  lemma DenialsSnoc(steps: seq<AnswerStep>, m: nat, x: Event)
    requires m < |steps|
    ensures N(AllDenials(steps[..m + 1]), x) == N(AllDenials(steps[..m]), x) + N(steps[m].denials, x)
  {
    assert steps[..m + 1][..m] == steps[..m];
    NConcat(AllDenials(steps[..m]), steps[m].denials, x);
  }

  // The denials beside a thread's answers are the denials of its steps.
  lemma ThreadDenials(l: Layout, t: ThreadId, x: Event)
    requires Valid(l)
    ensures Sum(BesideAll(l, t, x)) == N(AllDenials(Steps(l.plan, t)), x)
  {
    var n := |l.posted|;
    SortedTargets(l, t);
    WalkedSum(l, t, n, x);
    assert Steps(l.plan, t)[..|Slots(l, t, n)|] == Steps(l.plan, t);
    SumReindexed(BesideAll(l, t, x), ListedAll(l));
    assert Through(BesideAll(l, t, x), ListedAll(l)) == Walked(l, t, n, x);
  }

  // Changing the plan of one thread changes only what is beside its answers.
  lemma {:induction false} OtherThreads(l: Layout, r: Layout, t: ThreadId, k: nat, x: Event)
    requires k <= |l.posted| && r.posted == l.posted
    requires r.settled == l.settled && r.idled == l.idled && r.parked == l.parked
    requires forall u :: u != t ==> Steps(r.plan, u) == Steps(l.plan, u)
    ensures AroundUpTo(r, k, x) - Sum(BesideAll(r, t, x)[..k]) == AroundUpTo(l, k, x) - Sum(BesideAll(l, t, x)[..k])
    decreases k
  {
    hide *;
    if k > 0 {
      OtherThreadAt(l, r, t, k - 1, x);
      OtherThreads(l, r, t, k - 1, x);
      BesideStep(l, t, k - 1, x);
      BesideStep(r, t, k - 1, x);
      AroundStep(l, k - 1, x);
      AroundStep(r, k - 1, x);
    } else {
      NoneAround(l, x);
      NoneAround(r, x);
      NothingBeside(l, t, x);
      NothingBeside(r, t, x);
    }
  }

  lemma NothingBeside(l: Layout, t: ThreadId, x: Event)
    ensures Sum(BesideAll(l, t, x)[..0]) == 0
  {
  }

  lemma OtherThreadAt(l: Layout, r: Layout, t: ThreadId, i: nat, x: Event)
    requires i < |l.posted| && r.posted == l.posted
    requires r.settled == l.settled && r.idled == l.idled && r.parked == l.parked
    requires forall u :: u != t ==> Steps(r.plan, u) == Steps(l.plan, u)
    ensures Around(r, i, x) == Around(l, i, x)
    ensures N(OwnDenials(r, i), x) - Beside(r, t, i, x) == N(OwnDenials(l, i), x) - Beside(l, t, i, x)
  {
  }

  lemma BesideStep(l: Layout, t: ThreadId, k: nat, x: Event)
    requires k < |l.posted|
    ensures Sum(BesideAll(l, t, x)[..k + 1]) == Sum(BesideAll(l, t, x)[..k]) + Beside(l, t, k, x)
  {
    assert BesideAll(l, t, x)[..k + 1][..k] == BesideAll(l, t, x)[..k];
  }

  lemma PlanWritten(l: Layout, r: Layout, t: ThreadId, x: Event)
    requires Valid(l) && Valid(r) && r.posted == l.posted
    requires r.settled == l.settled && r.idled == l.idled && r.parked == l.parked
    requires forall u :: u != t ==> Steps(r.plan, u) == Steps(l.plan, u)
    ensures AroundUpTo(r, |l.posted|, x) + N(AllDenials(Steps(l.plan, t)), x)
         == AroundUpTo(l, |l.posted|, x) + N(AllDenials(Steps(r.plan, t)), x)
  {
    var n := |l.posted|;
    OtherThreads(l, r, t, n, x);
    assert BesideAll(l, t, x)[..n] == BesideAll(l, t, x);
    assert BesideAll(r, t, x)[..n] == BesideAll(r, t, x);
    ThreadDenials(l, t, x);
    ThreadDenials(r, t, x);
  }

  lemma {:induction false} StrippedDenials(steps: seq<AnswerStep>)
    requires forall j :: 0 <= j < |steps| ==> steps[j].denials == []
    ensures AllDenials(steps) == []
    decreases |steps|
  {
    if steps != [] { StrippedDenials(steps[..|steps| - 1]); }
  }

  /** Resuming a thread adds its running pair and keeps every denial result, moved or not. */
  lemma ResumedWritten(l: Layout, t: ThreadId, pair: seq<Event>, x: Event)
    requires Valid(l)
    ensures Written(Resumed(l, t, pair), x) == Written(l, x) + N(pair, x)
  {
    hide *;
    ResumedValid(l, t, pair);
    var r, w := Resumed(l, t, pair), ResumedWake(l, t, pair);
    ResumedParts(l, t, pair, x);
    PlanWritten(l, r, t, x);
    WakeSnoc(l.wakes, w, x);
    WrittenIs(l, x);
    WrittenIs(r, x);
  }

  function ResumedWake(l: Layout, t: ThreadId, pair: seq<Event>): ThreadWake {
    ThreadWake(t, pair, if t == PRIMARY && t in l.plan.steps then AllDenials(l.plan.steps[t]) else [])
  }

  lemma ResumedParts(l: Layout, t: ThreadId, pair: seq<Event>, x: Event)
    ensures var r, w := Resumed(l, t, pair), ResumedWake(l, t, pair);
      && r == l.(plan := r.plan, wakes := l.wakes + [w])
      && w.pair == pair
      && (forall u :: u != t ==> Steps(r.plan, u) == Steps(l.plan, u))
      && N(AllDenials(Steps(r.plan, t)), x) + N(w.consumed, x) == N(AllDenials(Steps(l.plan, t)), x)
  {
    var r := Resumed(l, t, pair);
    if t == PRIMARY && t in l.plan.steps { StrippedDenials(r.plan.steps[t]); }
  }

  lemma WrittenIs(l: Layout, x: Event)
    ensures Written(l, x) == AroundUpTo(l, |l.posted|, x) + N(At(l.parked, |l.posted|), x)
                           + WakeRows(l.wakes, x) + DeliveredRows(l.delivered, x)
  {
  }

  lemma PlannedWritten(l: Layout, t: ThreadId, consumed: set<Id>, steps: seq<AnswerStep>, x: Event)
    requires Valid(l) && ValidWalk(l, t, consumed, steps)
    ensures Written(Planned(l, t, consumed, steps), x) == Written(l, x) + N(AllDenials(steps), x)
  {
    PlannedValid(l, t, consumed, steps);
    PlanWritten(l, Planned(l, t, consumed, steps), t, x);
  }
}
