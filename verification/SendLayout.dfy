/**
 The layout of one send and the order its rows are processed in
 (internal/api/events.go, sendLayout and processingOrder).

 `Order` is the reference order: what a row's place is, said without the
 bookkeeping the program keeps. `SendProgram.Send.ProcessingOrder` is the program.
 */
module SendLayout {
  import opened Rows
  import opened EventModel

  datatype Layout = Layout(
    posted: seq<Event>,
    settled: map<int, seq<Event>>,
    idled: map<int, seq<Event>>,
    parked: map<int, seq<Event>>,
    wakes: seq<ThreadWake>,
    delivered: seq<DeliveredRow>,
    plan: AnswerPlan)

  // ---------------------------------------------------------------- places

  // Where an id was posted, -1 when it was not; the last place wins, as in a map filled in order.
  function PostAt(posted: seq<Event>, id: Id): (i: int)
    ensures -1 <= i < |posted|
    ensures i >= 0 ==> posted[i].id == id
    ensures i == -1 ==> forall k :: 0 <= k < |posted| ==> posted[k].id != id
  {
    if posted == [] then -1
    else if posted[|posted| - 1].id == id then |posted| - 1
    else PostAt(posted[..|posted| - 1], id)
  }

  function StepIndex(steps: seq<AnswerStep>, id: Id): (j: int)
    ensures -1 <= j < |steps|
    ensures j >= 0 ==> steps[j].answer == id
    ensures j == -1 ==> forall k :: 0 <= k < |steps| ==> steps[k].answer != id
  {
    if steps == [] then -1
    else if steps[|steps| - 1].answer == id then |steps| - 1
    else StepIndex(steps[..|steps| - 1], id)
  }

  function Steps(plan: AnswerPlan, t: ThreadId): seq<AnswerStep> {
    if t in plan.steps then plan.steps[t] else []
  }

  ghost predicate DistinctIds(posted: seq<Event>) {
    forall i, j :: 0 <= i < j < |posted| ==> posted[i].id != posted[j].id
  }

  // A posted answer its thread's walk processes: one of the places that walk fills.
  predicate IsSlot(l: Layout, i: int)
    requires 0 <= i < |l.posted|
  {
    StepIndex(Steps(l.plan, l.posted[i].thread), l.posted[i].id) >= 0
  }

  ghost predicate ValidStep(posted: seq<Event>, pending: set<Id>, t: ThreadId, st: AnswerStep) {
    var i := PostAt(posted, st.answer);
    i >= 0 && IsAnswer(posted[i].kind) && posted[i].thread == t && st.answer !in pending
  }

  // Each step names a distinct, posted, non-pending answer of its thread.
  ghost predicate ValidPlan(posted: seq<Event>, plan: AnswerPlan) {
    && (forall i :: 0 <= i < |posted| && posted[i].id in plan.pending ==> IsAnswer(posted[i].kind))
    && (forall t, j :: t in plan.steps && 0 <= j < |plan.steps[t]| ==>
          ValidStep(posted, plan.pending, t, plan.steps[t][j]))
    && (forall t, i, j :: t in plan.steps && 0 <= i < j < |plan.steps[t]| ==>
          plan.steps[t][i].answer != plan.steps[t][j].answer)
  }

  ghost predicate Valid(l: Layout) {
    && DistinctIds(l.posted)
    && ValidPlan(l.posted, l.plan)
    && (forall i :: i in l.settled ==> 0 <= i < |l.posted| && l.posted[i].kind == Interrupt)
    && (forall i :: i in l.idled ==> 0 <= i < |l.posted| && l.posted[i].kind == Interrupt)
    && (forall i :: i in l.parked ==> i == |l.posted| || (0 <= i < |l.posted| && IsSlot(l, i)))
    && (forall k :: 0 <= k < |l.delivered| ==> 0 <= l.delivered[k].cause < |l.posted|)
  }

  // The places thread t's processed answers were received in, up to k.
  function Slots(l: Layout, t: ThreadId, k: nat): seq<int>
    requires k <= |l.posted|
  {
    if k == 0 then []
    else Slots(l, t, k - 1) + (if l.posted[k - 1].thread == t && IsSlot(l, k - 1) then [k - 1] else [])
  }

  lemma {:induction false} SlotsMember(l: Layout, t: ThreadId, k: nat, i: int)
    requires k <= |l.posted|
    ensures i in Slots(l, t, k) <==> 0 <= i < k && l.posted[i].thread == t && IsSlot(l, i)
    decreases k
  {
    hide IsSlot;
    if k > 0 { SlotsMember(l, t, k - 1, i); }
  }

  lemma {:induction false} SlotsAscend(l: Layout, t: ThreadId, k: nat)
    requires k <= |l.posted|
    ensures Ascending(Slots(l, t, k))
    decreases k
  {
    hide IsSlot;
    if k > 0 {
      SlotsAscend(l, t, k - 1);
      var s := Slots(l, t, k - 1);
      forall j | 0 <= j < |s| ensures s[j] < k - 1 { SlotsMember(l, t, k - 1, s[j]); }
    }
  }

  lemma SlotsMembers(l: Layout, t: ThreadId, k: nat)
    requires k <= |l.posted|
    ensures Ascending(Slots(l, t, k))
    ensures forall i :: i in Slots(l, t, k) <==> 0 <= i < k && l.posted[i].thread == t && IsSlot(l, i)
  {
    hide IsSlot, Slots, Ascending;
    SlotsAscend(l, t, k);
    forall i ensures i in Slots(l, t, k) <==> 0 <= i < k && l.posted[i].thread == t && IsSlot(l, i) {
      SlotsMember(l, t, k, i);
    }
  }

  // Where each step's own answer was received, in walk order.
  ghost function Targets(l: Layout, t: ThreadId): (s: seq<int>)
    requires Valid(l)
    ensures |s| == |Steps(l.plan, t)|
    ensures forall j :: 0 <= j < |s| ==> s[j] == PostAt(l.posted, Steps(l.plan, t)[j].answer)
    ensures Distinct(s)
  {
    var steps := Steps(l.plan, t);
    var s := seq(|steps|, j requires 0 <= j < |steps| => PostAt(l.posted, steps[j].answer));
    assert forall j :: 0 <= j < |s| ==> ValidStep(l.posted, l.plan.pending, t, steps[j]);
    s
  }

  lemma PostAtIs(posted: seq<Event>, i: nat)
    requires DistinctIds(posted) && i < |posted|
    ensures PostAt(posted, posted[i].id) == i
  {
    var k := PostAt(posted, posted[i].id);
    assert k >= 0;
  }

  // Sorting a thread's targets gives exactly the places its answers were received in.
  lemma {:induction false} SortedTargets(l: Layout, t: ThreadId)
    requires Valid(l)
    ensures SortInts(Targets(l, t)) == Slots(l, t, |l.posted|)
    ensures |Slots(l, t, |l.posted|)| == |Steps(l.plan, t)|
  {
    var a, b := SortInts(Targets(l, t)), Slots(l, t, |l.posted|);
    SlotsMembers(l, t, |l.posted|);
    var steps := Steps(l.plan, t);
    forall x ensures x in a <==> x in b {
      if x in a {
        var j :| 0 <= j < |steps| && Targets(l, t)[j] == x;
        assert ValidStep(l.posted, l.plan.pending, t, steps[j]);
        PostAtIs(l.posted, x);
        assert IsSlot(l, x);
      }
      if x in b {
        var j := StepIndex(steps, l.posted[x].id);
        PostAtIs(l.posted, x);
        assert Targets(l, t)[j] == x;
      }
    }
    AscendingUnique(a, b);
  }

  lemma {:induction false} SlotsGrow(l: Layout, t: ThreadId, i: nat, k: nat)
    requires i <= k <= |l.posted|
    ensures Slots(l, t, i) <= Slots(l, t, k)
  {
    if i < k {
      SlotsGrow(l, t, i, k - 1);
    }
  }

  // The place of i among its thread's slots.
  lemma RankOf(l: Layout, i: nat)
    requires Valid(l) && i < |l.posted| && IsSlot(l, i)
    ensures var t := l.posted[i].thread;
      && |Slots(l, t, i)| < |Slots(l, t, |l.posted|)| == |Steps(l.plan, t)|
      && Slots(l, t, |l.posted|)[|Slots(l, t, i)|] == i
  {
    var t := l.posted[i].thread;
    SortedTargets(l, t);
    SlotsGrow(l, t, i + 1, |l.posted|);
    assert Slots(l, t, i + 1) == Slots(l, t, i) + [i];
  }

  // The step listed in slot i: the thread's slots, in receipt order, take its
  // steps, in walk order.
  ghost function StepFor(l: Layout, i: nat): (st: AnswerStep)
    requires Valid(l) && i < |l.posted| && IsSlot(l, i)
    ensures ValidStep(l.posted, l.plan.pending, l.posted[i].thread, st)
  {
    RankOf(l, i);
    var t := l.posted[i].thread;
    assert t in l.plan.steps;
    Steps(l.plan, t)[|Slots(l, t, i)|]
  }

  // ---------------------------------------------------------------- the reference order

  // What is consumed on receipt at place i.
  ghost function ReceiptAt(l: Layout, i: nat): seq<Event>
    requires Valid(l) && i < |l.posted|
  {
    var ev := l.posted[i];
    if ev.id in l.plan.pending then []
    else if IsAnswer(ev.kind) then
      if IsSlot(l, i) then
        [l.posted[PostAt(l.posted, StepFor(l, i).answer)]] + StepFor(l, i).denials + At(l.parked, i)
      else [ev]
    else if ev.kind == Interrupt then At(l.settled, i) + [ev] + At(l.idled, i)
    else []
  }

  ghost function Receipt(l: Layout, k: nat): seq<Event>
    requires Valid(l) && k <= |l.posted|
  {
    if k == 0 then [] else Receipt(l, k - 1) + ReceiptAt(l, k - 1)
  }

  datatype Input = Input(cause: int, thread: ThreadId, ev: Event, queued: bool)

  // What a posted event leaves to a later turn.
  function PostedInput(l: Layout, i: nat): seq<Input>
    requires i < |l.posted|
  {
    var ev := l.posted[i];
    if ev.id in l.plan.pending then [Input(i, PRIMARY, ev, true)]
    else if IsAnswer(ev.kind) || ev.kind == Interrupt then []
    else [Input(i, ev.thread, ev, false)]
  }

  function DeliveredBy(delivered: seq<DeliveredRow>, i: int): seq<Input> {
    if delivered == [] then []
    else
      var d := delivered[|delivered| - 1];
      DeliveredBy(delivered[..|delivered| - 1], i)
      + (if d.cause == i then [Input(i, d.row.thread, d.row, false)] else [])
  }

  // The input of the send, each row at the posted event that caused it.
  function Inputs(l: Layout, k: nat): seq<Input>
    requires k <= |l.posted|
  {
    if k == 0 then []
    else Inputs(l, k - 1) + PostedInput(l, k - 1) + DeliveredBy(l.delivered, k - 1)
  }

  // The input the threads in ts consume, in order.
  function For(ins: seq<Input>, ts: set<ThreadId>): seq<Event> {
    if ins == [] then []
    else
      var x := ins[|ins| - 1];
      For(ins[..|ins| - 1], ts) + (if !x.queued && x.thread in ts then [x.ev] else [])
  }

  // The input no thread in ts consumes, in order.
  function NotFor(ins: seq<Input>, ts: set<ThreadId>): seq<Event> {
    if ins == [] then []
    else
      var x := ins[|ins| - 1];
      NotFor(ins[..|ins| - 1], ts) + (if x.queued || x.thread !in ts then [x.ev] else [])
  }

  function Threads(wakes: seq<ThreadWake>): set<ThreadId> {
    set w | w in wakes :: w.thread
  }

  // What the k-th wake's turn consumes: its thread's input, unless the thread already woke.
  function ConsumedBy(ins: seq<Input>, wakes: seq<ThreadWake>, k: nat): seq<Event>
    requires k < |wakes|
  {
    if wakes[k].thread in Threads(wakes[..k]) then [] else For(ins, {wakes[k].thread})
  }

  function Woken(ins: seq<Input>, wakes: seq<ThreadWake>, k: nat): seq<Event>
    requires k <= |wakes|
  {
    if k == 0 then []
    else Woken(ins, wakes, k - 1) + wakes[k - 1].pair + wakes[k - 1].consumed + ConsumedBy(ins, wakes, k - 1)
  }

  ghost function Order(l: Layout): seq<Event>
    requires Valid(l)
  {
    var n := |l.posted|;
    Receipt(l, n) + At(l.parked, n)
    + Woken(Inputs(l, n), l.wakes, |l.wakes|)
    + NotFor(Inputs(l, n), Threads(l.wakes))
  }
}
