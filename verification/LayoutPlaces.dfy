/** Where the processing order puts every posted event, and in what order that leaves them. */
module LayoutPlaces {
  import opened Rows
  import opened EventModel
  import opened SendLayout
  import opened LayoutConservation
  import opened SendProgram

  // What the processing order consumes: a posted event, or a row delivered by processing one.
  datatype Item = Posted(i: nat) | Notice(d: nat)

  predicate In(l: Layout, x: Item) {
    match x
    case Posted(i) => i < |l.posted|
    case Notice(d) => d < |l.delivered|
  }

  function EventOf(l: Layout, x: Item): Event
    requires In(l, x)
  {
    if x.Posted? then l.posted[x.i] else l.delivered[x.d].row
  }

  // The posted event an item is, or was delivered by.
  function CauseOf(l: Layout, x: Item): int
    requires In(l, x)
  {
    if x.Posted? then x.i else l.delivered[x.d].cause
  }

  datatype Stage = OnReceipt | ByWake | AtTail

  // When an item is consumed: on receipt, by a turn this send starts, or later.
  function StageOf(l: Layout, x: Item): Stage
    requires In(l, x)
  {
    var ev := EventOf(l, x);
    if x.Posted? && ev.id in l.plan.pending then AtTail
    else if x.Posted? && (IsAnswer(ev.kind) || ev.kind == Interrupt) then OnReceipt
    else if ev.thread in Threads(l.wakes) then ByWake
    else AtTail
  }

  // The receipt place a posted event is processed at: a stepped answer's is the
  // slot its walk puts it in, every other event's its own.
  ghost function Key(l: Layout, i: nat): (k: nat)
    requires Valid(l) && i < |l.posted|
    ensures k < |l.posted|
  {
    if IsSlot(l, i) then
      var t := l.posted[i].thread;
      var j := StepIndex(Steps(l.plan, t), l.posted[i].id);
      SlotOf(l, t, j);
      Slots(l, t, |l.posted|)[j]
    else i
  }

  // The first wake of a woken thread.
  function FirstWake(wakes: seq<ThreadWake>, t: ThreadId): (k: nat)
    requires t in Threads(wakes)
    ensures k < |wakes| && wakes[k].thread == t && t !in Threads(wakes[..k])
  {
    assert wakes == wakes[..|wakes| - 1] + [wakes[|wakes| - 1]];
    if t in Threads(wakes[..|wakes| - 1]) then
      var k := FirstWake(wakes[..|wakes| - 1], t);
      assert wakes[..|wakes| - 1][..k] == wakes[..k];
      k
    else |wakes| - 1
  }

  // Where the k-th wake's running pair starts.
  ghost function PairStart(l: Layout, k: nat): nat
    requires Valid(l) && k <= |l.wakes|
  {
    |Receipt(l, |l.posted|)| + |At(l.parked, |l.posted|)| + |Woken(Inputs(l, |l.posted|), l.wakes, k)|
  }

  // The input ahead of an item, in the order of what caused it.
  ghost function Ahead(l: Layout, x: Item): seq<Input>
    requires Valid(l) && In(l, x)
  {
    if x.Posted? then Inputs(l, x.i)
    else
      var c := l.delivered[x.d].cause;
      Inputs(l, c) + PostedInput(l, c) + DeliveredBy(l.delivered[..x.d], c)
  }

  ghost function Place(l: Layout, x: Item): nat
    requires Valid(l) && In(l, x)
  {
    match StageOf(l, x)
    case OnReceipt => |Receipt(l, Key(l, x.i))| + Behind(l, x.i)
    case ByWake =>
      var k := FirstWake(l.wakes, EventOf(l, x).thread);
      PairStart(l, k) + |l.wakes[k].pair| + |l.wakes[k].consumed| + |For(Ahead(l, x), {EventOf(l, x).thread})|
    case AtTail =>
      PairStart(l, |l.wakes|) + |NotFor(Ahead(l, x), Threads(l.wakes))|
  }

  // Where in its receipt place's rows a consumed event stands.
  ghost function Behind(l: Layout, i: nat): nat
    requires i < |l.posted|
  {
    if l.posted[i].kind == Interrupt then |At(l.settled, i)| else 0
  }

  // ---------------------------------------------------------------- parts of the order

  lemma {:induction false} ReceiptGrows(l: Layout, i: nat, k: nat)
    requires Valid(l) && i <= k <= |l.posted|
    ensures Receipt(l, i) <= Receipt(l, k)
    decreases k
  {
    hide *;
    if i < k {
      ReceiptGrows(l, i, k - 1);
      ReceiptNext(l, k - 1);
    }
  }

  lemma ReceiptNext(l: Layout, k: nat)
    requires Valid(l) && k < |l.posted|
    ensures Receipt(l, k + 1) == Receipt(l, k) + ReceiptAt(l, k)
  {
  }

  lemma ReceiptLeads(l: Layout)
    requires Valid(l)
    ensures Receipt(l, |l.posted|) <= Order(l)
  {
  }

  lemma ReceiptPart(l: Layout, i: nat)
    requires Valid(l) && i < |l.posted|
    ensures var a := |Receipt(l, i)|;
      a + |ReceiptAt(l, i)| <= |Receipt(l, |l.posted|)| <= |Order(l)|
      && Order(l)[a..a + |ReceiptAt(l, i)|] == ReceiptAt(l, i)
  {
    hide *;
    ReceiptGrows(l, i + 1, |l.posted|);
    ReceiptNext(l, i);
    ReceiptLeads(l);
  }

  lemma {:induction false} WokenGrows(ins: seq<Input>, wakes: seq<ThreadWake>, i: nat, k: nat)
    requires i <= k <= |wakes|
    ensures Woken(ins, wakes, i) <= Woken(ins, wakes, k)
    decreases k
  {
    if i < k { WokenGrows(ins, wakes, i, k - 1); }
  }

  lemma {:induction false} InputsGrow(l: Layout, i: nat, k: nat)
    requires i <= k <= |l.posted|
    ensures Inputs(l, i) <= Inputs(l, k)
    decreases k
  {
    hide *;
    if i < k {
      InputsGrow(l, i, k - 1);
      InputsNext(l, k - 1);
    }
  }

  // An item as the input it is.
  ghost function InputOf(l: Layout, x: Item): Input
    requires Valid(l) && In(l, x) && !StageOf(l, x).OnReceipt?
  {
    if x.Posted? then PostedInput(l, x.i)[0]
    else Input(l.delivered[x.d].cause, l.delivered[x.d].row.thread, l.delivered[x.d].row, false)
  }

  lemma InputOfIs(l: Layout, x: Item)
    requires Valid(l) && In(l, x) && !StageOf(l, x).OnReceipt?
    ensures InputOf(l, x).ev == EventOf(l, x)
    ensures StageOf(l, x).ByWake? ==> !InputOf(l, x).queued && InputOf(l, x).thread == EventOf(l, x).thread
    ensures StageOf(l, x).AtTail? ==> InputOf(l, x).queued || InputOf(l, x).thread !in Threads(l.wakes)
    ensures x.Posted? ==> PostedInput(l, x.i) == [InputOf(l, x)]
  {
    hide Valid, Threads;
  }

  lemma {:induction false} DeliveredGrows(ds: seq<DeliveredRow>, c: int, d: nat, e: nat)
    requires d <= e <= |ds|
    ensures DeliveredBy(ds[..d], c) <= DeliveredBy(ds[..e], c)
    decreases e
  {
    if d < e {
      DeliveredGrows(ds, c, d, e - 1);
      assert ds[..e][..e - 1] == ds[..e - 1];
    }
  }

  lemma DeliveredNext(ds: seq<DeliveredRow>, d: nat)
    requires d < |ds|
    ensures var c, row := ds[d].cause, ds[d].row;
      DeliveredBy(ds[..d + 1], c) == DeliveredBy(ds[..d], c) + [Input(c, row.thread, row, false)]
  {
    assert ds[..d + 1][..d] == ds[..d];
  }

  lemma InputsNext(l: Layout, i: nat)
    requires i < |l.posted|
    ensures Inputs(l, i + 1) == Inputs(l, i) + PostedInput(l, i) + DeliveredBy(l.delivered, i)
  {
  }

  lemma NoticeCause(l: Layout, d: nat)
    requires Valid(l) && d < |l.delivered|
    ensures 0 <= l.delivered[d].cause < |l.posted|
  {
  }

  // An item stands behind the input ahead of it, among the input of its cause.
  lemma AheadWithin(l: Layout, x: Item)
    requires Valid(l) && In(l, x) && !StageOf(l, x).OnReceipt?
    ensures 0 <= CauseOf(l, x) < |l.posted|
    ensures Ahead(l, x) + [InputOf(l, x)] <= Inputs(l, CauseOf(l, x) + 1)
  {
    hide Valid, StageOf, Inputs, DeliveredBy, PostedInput, Threads;
    InputOfIs(l, x);
    if x.Notice? {
      NoticeCause(l, x.d);
      DeliveredNext(l.delivered, x.d);
      DeliveredGrows(l.delivered, CauseOf(l, x), x.d + 1, |l.delivered|);
      assert l.delivered[..|l.delivered|] == l.delivered;
    }
    InputsNext(l, CauseOf(l, x));
  }

  lemma InputHere(l: Layout, x: Item)
    requires Valid(l) && In(l, x) && !StageOf(l, x).OnReceipt?
    ensures var ins, a := Inputs(l, |l.posted|), Ahead(l, x);
      |a| < |ins| && ins[..|a|] == a && ins[|a|] == InputOf(l, x)
  {
    hide Valid, StageOf, Inputs, Ahead, InputOf;
    AheadWithin(l, x);
    InputsGrow(l, CauseOf(l, x) + 1, |l.posted|);
    var a := Ahead(l, x) + [InputOf(l, x)];
    assert a <= Inputs(l, |l.posted|);
    assert a[|Ahead(l, x)|] == InputOf(l, x) && a[..|Ahead(l, x)|] == Ahead(l, x);
  }

  lemma {:induction false} ForGrows(ins: seq<Input>, ts: set<ThreadId>, j: nat, k: nat)
    requires j <= k <= |ins|
    ensures For(ins[..j], ts) <= For(ins[..k], ts)
    ensures NotFor(ins[..j], ts) <= NotFor(ins[..k], ts)
    decreases k
  {
    if j < k {
      ForGrows(ins, ts, j, k - 1);
      assert ins[..k][..k - 1] == ins[..k - 1];
    }
  }

  lemma ForHere(ins: seq<Input>, ts: set<ThreadId>, j: nat)
    requires j < |ins|
    ensures !ins[j].queued && ins[j].thread in ts ==>
      |For(ins[..j], ts)| < |For(ins, ts)| && For(ins, ts)[|For(ins[..j], ts)|] == ins[j].ev
    ensures ins[j].queued || ins[j].thread !in ts ==>
      |NotFor(ins[..j], ts)| < |NotFor(ins, ts)| && NotFor(ins, ts)[|NotFor(ins[..j], ts)|] == ins[j].ev
  {
    ForGrows(ins, ts, j + 1, |ins|);
    assert ins[..|ins|] == ins;
    assert ins[..j + 1][..j] == ins[..j];
  }

  // ---------------------------------------------------------------- every event is where Place says

  lemma KeyLists(l: Layout, i: nat)
    requires Valid(l) && i < |l.posted| && IsSlot(l, i)
    ensures var k := Key(l, i);
      IsSlot(l, k) && l.posted[k].thread == l.posted[i].thread && Listed(l, k) == i
  {
    var t := l.posted[i].thread;
    var j := StepIndex(Steps(l.plan, t), l.posted[i].id);
    SlotOf(l, t, j);
    PostAtIs(l.posted, i);
  }

  lemma ReceiptLists(l: Layout, i: nat)
    requires Valid(l) && i < |l.posted| && StageOf(l, Posted(i)) == OnReceipt
    ensures var rows, p := ReceiptAt(l, Key(l, i)), Behind(l, i); p < |rows| && rows[p] == l.posted[i]
  {
    if IsSlot(l, i) {
      var k := Key(l, i);
      KeyLists(l, i);
      SlotAnswer(l, k);
      SlotAnswer(l, i);
    }
  }

  lemma PlaceOnReceiptIs(l: Layout, i: nat)
    requires Valid(l) && i < |l.posted| && StageOf(l, Posted(i)) == OnReceipt
    ensures Place(l, Posted(i)) == |Receipt(l, Key(l, i))| + Behind(l, i)
  {
    hide Valid, Receipt, Key;
  }

  lemma PlaceOnReceipt(l: Layout, i: nat)
    requires Valid(l) && i < |l.posted| && StageOf(l, Posted(i)) == OnReceipt
    ensures Place(l, Posted(i)) < |Receipt(l, |l.posted|)| && |Receipt(l, |l.posted|)| <= |Order(l)|
    ensures Order(l)[Place(l, Posted(i))] == l.posted[i]
    ensures |Receipt(l, Key(l, i))| <= Place(l, Posted(i)) < |Receipt(l, Key(l, i) + 1)|
  {
    hide *;
    ReceiptLists(l, i);
    var k, p := Key(l, i), Behind(l, i);
    PlaceOnReceiptIs(l, i);
    ReceiptPart(l, k);
    ReceiptNext(l, k);
    var rows, a := ReceiptAt(l, k), |Receipt(l, k)|;
    assert Order(l)[a..a + |rows|][p] == rows[p];
  }

  /**
   A wake is its running pair, then what the send itself wrote for its turn,
   then the input its thread consumes, and the next wake behind that.
   */
  lemma WakePlace(l: Layout, k: nat)
    requires Valid(l) && k < |l.wakes|
    ensures var w := l.wakes[k]; var got := ConsumedBy(Inputs(l, |l.posted|), l.wakes, k); var s := PairStart(l, k);
      && s + |w.pair| + |w.consumed| + |got| == PairStart(l, k + 1) <= PairStart(l, |l.wakes|) <= |Order(l)|
      && Order(l)[s..PairStart(l, k + 1)] == w.pair + w.consumed + got
  {
    hide *;
    var ins := Inputs(l, |l.posted|);
    var head := Receipt(l, |l.posted|) + At(l.parked, |l.posted|);
    var woken, tail := Woken(ins, l.wakes, |l.wakes|), NotFor(ins, Threads(l.wakes));
    OrderIs(l);
    WokenGrows(ins, l.wakes, k + 1, |l.wakes|);
    WokenNext(ins, l.wakes, k);
    PairStartIs(l, k);
    PairStartIs(l, k + 1);
    PairStartIs(l, |l.wakes|);
    var w, got := l.wakes[k], ConsumedBy(ins, l.wakes, k);
    CutAt(head, Woken(ins, l.wakes, k), w.pair + w.consumed + got, woken, tail);
    assert Woken(ins, l.wakes, k) + (w.pair + w.consumed + got) == Woken(ins, l.wakes, k + 1);
  }

  lemma OrderIs(l: Layout)
    requires Valid(l)
    ensures var ins := Inputs(l, |l.posted|);
      Order(l) == (Receipt(l, |l.posted|) + At(l.parked, |l.posted|)) + Woken(ins, l.wakes, |l.wakes|)
                  + NotFor(ins, Threads(l.wakes))
  {
  }

  lemma PairStartIs(l: Layout, k: nat)
    requires Valid(l) && k <= |l.wakes|
    ensures PairStart(l, k) == |Receipt(l, |l.posted|) + At(l.parked, |l.posted|)| + |Woken(Inputs(l, |l.posted|), l.wakes, k)|
  {
  }

  lemma WokenNext(ins: seq<Input>, wakes: seq<ThreadWake>, k: nat)
    requires k < |wakes|
    ensures Woken(ins, wakes, k + 1) == Woken(ins, wakes, k) + wakes[k].pair + wakes[k].consumed + ConsumedBy(ins, wakes, k)
  {
  }

  lemma CutAt(head: seq<Event>, a: seq<Event>, b: seq<Event>, e: seq<Event>, tail: seq<Event>)
    requires a + b <= e
    ensures var all := head + e + tail; var s := |head| + |a|; s + |b| <= |all| && all[s..s + |b|] == b
  {
    var f := e[|a + b|..];
    assert e == a + b + f;
    assert head + e + tail == (head + a) + b + (f + tail);
  }

  lemma TailPart(l: Layout)
    requires Valid(l)
    ensures PairStart(l, |l.wakes|) <= |Order(l)|
    ensures Order(l)[PairStart(l, |l.wakes|)..] == NotFor(Inputs(l, |l.posted|), Threads(l.wakes))
  {
  }

  /** The re-parks of settlements that process no answer stand behind everything consumed on receipt, ahead of every wake. */
  lemma LateParkPlace(l: Layout)
    requires Valid(l)
    ensures var a, rows := |Receipt(l, |l.posted|)|, At(l.parked, |l.posted|);
      a + |rows| == PairStart(l, 0) <= |Order(l)| && Order(l)[a..PairStart(l, 0)] == rows
  {
    hide Valid, Receipt, Inputs, NotFor, Threads;
    OrderIs(l);
    var ins := Inputs(l, |l.posted|);
    CutAt(Receipt(l, |l.posted|), [], At(l.parked, |l.posted|), At(l.parked, |l.posted|),
          Woken(ins, l.wakes, |l.wakes|) + NotFor(ins, Threads(l.wakes)));
    assert [] + At(l.parked, |l.posted|) == At(l.parked, |l.posted|);
    assert Order(l) == Receipt(l, |l.posted|) + At(l.parked, |l.posted|) + (Woken(ins, l.wakes, |l.wakes|) + NotFor(ins, Threads(l.wakes)));
  }

  lemma WokenThread(l: Layout, x: Item)
    requires In(l, x) && StageOf(l, x) == ByWake
    ensures EventOf(l, x).thread in Threads(l.wakes)
  {
  }

  // A woken thread's input: what its first wake consumes, and where in that this item stands.
  lemma PlaceByWakeIs(l: Layout, x: Item)
    requires Valid(l) && In(l, x) && StageOf(l, x) == ByWake
    ensures var t := EventOf(l, x).thread; var k := FirstWake(l.wakes, t);
      && ConsumedBy(Inputs(l, |l.posted|), l.wakes, k) == For(Inputs(l, |l.posted|), {t})
      && Place(l, x) == PairStart(l, k) + |l.wakes[k].pair| + |l.wakes[k].consumed| + |For(Ahead(l, x), {t})|
  {
    hide Valid, Inputs, For, PairStart, Ahead;
  }

  /** Input to a woken thread, posted or delivered, stands behind that thread's first running pair and consumed rows. */
  lemma PlaceByWake(l: Layout, x: Item)
    requires Valid(l) && In(l, x) && StageOf(l, x) == ByWake
    ensures var k := FirstWake(l.wakes, EventOf(l, x).thread); var w := l.wakes[k];
      && PairStart(l, k) + |w.pair| + |w.consumed| <= Place(l, x) < PairStart(l, k + 1) <= PairStart(l, |l.wakes|) <= |Order(l)|
      && Order(l)[PairStart(l, k)..PairStart(l, k) + |w.pair|] == w.pair
    ensures Order(l)[Place(l, x)] == EventOf(l, x)
  {
    hide *;
    WokenThread(l, x);
    var t, ins := EventOf(l, x).thread, Inputs(l, |l.posted|);
    var k := FirstWake(l.wakes, t);
    PlaceByWakeIs(l, x);
    WakePlace(l, k);
    InputHere(l, x);
    InputOfIs(l, x);
    ForHere(ins, {t}, |Ahead(l, x)|);
    var q := |For(Ahead(l, x), {t})|;
    var w, got := l.wakes[k], ConsumedBy(ins, l.wakes, k);
    assert Order(l)[PairStart(l, k)..PairStart(l, k + 1)][|w.pair| + |w.consumed| + q] == got[q];
    assert Order(l)[PairStart(l, k)..PairStart(l, k + 1)][..|w.pair|] == w.pair;
  }

  lemma PlaceAtTailIs(l: Layout, x: Item)
    requires Valid(l) && In(l, x) && StageOf(l, x) == AtTail
    ensures Place(l, x) == PairStart(l, |l.wakes|) + |NotFor(Ahead(l, x), Threads(l.wakes))|
  {
    hide Valid, Ahead, NotFor, PairStart, Threads;
  }

  /** Pending answers, and posted or delivered input to a thread not woken, stand behind every wake. */
  lemma PlaceAtTail(l: Layout, x: Item)
    requires Valid(l) && In(l, x) && StageOf(l, x) == AtTail
    ensures PairStart(l, |l.wakes|) <= Place(l, x) < |Order(l)|
    ensures Order(l)[Place(l, x)] == EventOf(l, x)
  {
    hide *;
    var ins := Inputs(l, |l.posted|);
    TailPart(l);
    PlaceAtTailIs(l, x);
    InputHere(l, x);
    InputOfIs(l, x);
    ForHere(ins, Threads(l.wakes), |Ahead(l, x)|);
    var q := |NotFor(Ahead(l, x), Threads(l.wakes))|;
    assert Order(l)[PairStart(l, |l.wakes|)..][q] == EventOf(l, x);
  }

  lemma ReceivedIsPosted(l: Layout, x: Item)
    requires In(l, x) && StageOf(l, x) == OnReceipt
    ensures x == Posted(x.i) && x.i < |l.posted| && EventOf(l, x) == l.posted[x.i]
  {
  }

  /** Every posted event and every delivered row is in the order, at its place. */
  lemma Placed(l: Layout, x: Item)
    requires Valid(l) && In(l, x)
    ensures Place(l, x) < |Order(l)| && Order(l)[Place(l, x)] == EventOf(l, x)
  {
    hide *;
    match StageOf(l, x)
    case OnReceipt => ReceivedIsPosted(l, x); PlaceOnReceipt(l, x.i);
    case ByWake => PlaceByWake(l, x);
    case AtTail => PlaceAtTail(l, x);
  }

  lemma InterruptReceipt(l: Layout, i: nat)
    requires Valid(l) && i < |l.posted| && l.posted[i].kind == Interrupt
    ensures ReceiptAt(l, i) == At(l.settled, i) + [l.posted[i]] + At(l.idled, i)
    ensures Place(l, Posted(i)) == |Receipt(l, i)| + |At(l.settled, i)|
  {
    hide Receipt;
    if IsSlot(l, i) { SlotAnswer(l, i); }
  }

  /**
   A posted interrupt stands right behind what settling it wrote and right ahead
   of the idle pairs of the threads it ended.
   */
  lemma InterruptPlace(l: Layout, i: nat)
    requires Valid(l) && i < |l.posted| && l.posted[i].kind == Interrupt
    ensures var p, before, behind := Place(l, Posted(i)), At(l.settled, i), At(l.idled, i);
      && |before| <= p && p + 1 + |behind| <= |Order(l)|
      && Order(l)[p - |before|..p + 1 + |behind|] == before + [l.posted[i]] + behind
  {
    hide *;
    ReceiptPart(l, i);
    InterruptReceipt(l, i);
  }

  // The posted answer of thread t's j-th step, and the j-th place its answers were received in.
  ghost function AnswerOf(l: Layout, t: ThreadId, j: nat): (i: nat)
    requires Valid(l) && j < |Steps(l.plan, t)|
    ensures i < |l.posted| && l.posted[i].id == Steps(l.plan, t)[j].answer && l.posted[i].thread == t
  {
    StepIsItsOwn(l, t, j);
    PostAt(l.posted, Steps(l.plan, t)[j].answer)
  }

  ghost function SlotAt(l: Layout, t: ThreadId, j: nat): (i: nat)
    requires Valid(l) && j < |Steps(l.plan, t)|
    ensures i < |l.posted| && l.posted[i].thread == t && IsSlot(l, i)
  {
    SlotOf(l, t, j);
    Slots(l, t, |l.posted|)[j]
  }

  /** A walked answer is followed by the denial results its walk writes there, then by its thread's re-park. */
  lemma AnswerPlace(l: Layout, t: ThreadId, j: nat)
    requires Valid(l) && j < |Steps(l.plan, t)|
    ensures
      var rows := [l.posted[AnswerOf(l, t, j)]] + Steps(l.plan, t)[j].denials + At(l.parked, SlotAt(l, t, j));
      var p := Place(l, Posted(AnswerOf(l, t, j)));
      p + |rows| <= |Order(l)| && Order(l)[p..p + |rows|] == rows
  {
    hide *;
    AnswerRows(l, t, j);
    ReceiptPart(l, SlotAt(l, t, j));
  }

  lemma AnswerRows(l: Layout, t: ThreadId, j: nat)
    requires Valid(l) && j < |Steps(l.plan, t)|
    ensures ReceiptAt(l, SlotAt(l, t, j))
         == [l.posted[AnswerOf(l, t, j)]] + Steps(l.plan, t)[j].denials + At(l.parked, SlotAt(l, t, j))
    ensures Place(l, Posted(AnswerOf(l, t, j))) == |Receipt(l, SlotAt(l, t, j))|
  {
    SlotOf(l, t, j);
    StepIsItsOwn(l, t, j);
    var slot, i := SlotAt(l, t, j), AnswerOf(l, t, j);
    assert Key(l, i) == slot;
    SlotAnswer(l, slot);
    SlotAnswer(l, i);
  }

  lemma StepIsItsOwn(l: Layout, t: ThreadId, j: nat)
    requires Valid(l) && j < |Steps(l.plan, t)|
    ensures var i := PostAt(l.posted, Steps(l.plan, t)[j].answer);
      0 <= i && l.posted[i].thread == t && StepIndex(Steps(l.plan, t), l.posted[i].id) == j && IsSlot(l, i)
  {
  }

  // ---------------------------------------------------------------- the order of any two

  predicate Earlier(a: Stage, b: Stage) {
    (a.OnReceipt? && !b.OnReceipt?) || (a.ByWake? && b.AtTail?)
  }

  // Input is in the order of what caused it: a posted event ahead of the rows it
  // delivered, and those in the order they were delivered.
  predicate InputBefore(l: Layout, x: Item, y: Item)
    requires In(l, x) && In(l, y)
  {
    || CauseOf(l, x) < CauseOf(l, y)
    || (CauseOf(l, x) == CauseOf(l, y) && ((x.Posted? && y.Notice?) || (x.Notice? && y.Notice? && x.d < y.d)))
  }

  // x comes ahead of y, by what they are.
  ghost predicate Precedes(l: Layout, x: Item, y: Item)
    requires Valid(l) && In(l, x) && In(l, y)
  {
    var a, b := StageOf(l, x), StageOf(l, y);
    || Earlier(a, b)
    || (a.OnReceipt? && b.OnReceipt? && Key(l, x.i) < Key(l, y.i))
    || (a.ByWake? && b.ByWake? &&
        var u, v := FirstWake(l.wakes, EventOf(l, x).thread), FirstWake(l.wakes, EventOf(l, y).thread);
        u < v || (u == v && InputBefore(l, x, y)))
    || (a.AtTail? && b.AtTail? && InputBefore(l, x, y))
  }

  lemma {:induction false} PairStartGrows(l: Layout, k: nat, m: nat)
    requires Valid(l) && k <= m <= |l.wakes|
    ensures PairStart(l, k) <= PairStart(l, m)
  {
    WokenGrows(Inputs(l, |l.posted|), l.wakes, k, m);
  }

  // What is ahead of the later of two is behind the earlier.
  lemma AheadGrows(l: Layout, x: Item, y: Item)
    requires Valid(l) && In(l, x) && In(l, y) && InputBefore(l, x, y) && !StageOf(l, x).OnReceipt?
    ensures Ahead(l, x) + [InputOf(l, x)] <= Ahead(l, y)
  {
    hide Valid, StageOf, Inputs, DeliveredBy, PostedInput, Threads;
    AheadWithin(l, x);
    if y.Notice? { NoticeCause(l, y.d); }
    if CauseOf(l, x) < CauseOf(l, y) {
      InputsGrow(l, CauseOf(l, x) + 1, CauseOf(l, y));
    } else if x.Posted? {
      InputOfIs(l, x);
    } else {
      DeliveredNext(l.delivered, x.d);
      DeliveredGrows(l.delivered, CauseOf(l, x), x.d + 1, y.d);
    }
  }

  // Of two items the same turn consumes, or none does, the one caused first comes first.
  lemma InputOrderKept(l: Layout, ts: set<ThreadId>, x: Item, y: Item)
    requires Valid(l) && In(l, x) && In(l, y) && InputBefore(l, x, y) && !StageOf(l, x).OnReceipt?
    ensures var i := InputOf(l, x);
      && (!i.queued && i.thread in ts ==> |For(Ahead(l, x), ts)| < |For(Ahead(l, y), ts)|)
      && (i.queued || i.thread !in ts ==> |NotFor(Ahead(l, x), ts)| < |NotFor(Ahead(l, y), ts)|)
  {
    hide Valid, StageOf, Ahead, InputOf, InputBefore;
    AheadGrows(l, x, y);
    var a, ins := Ahead(l, x), Ahead(l, y);
    assert (a + [InputOf(l, x)])[..|a|] == a && (a + [InputOf(l, x)])[|a|] == InputOf(l, x);
    assert ins[..|a|] == a && ins[|a|] == InputOf(l, x);
    ForHere(ins, ts, |a|);
  }

  /**
   The order of any two items. What is consumed on receipt comes first, by the
   place it is processed at; then each woken thread's input, by the thread's
   first wake and then by cause; then the rest, by cause.
   */
  lemma OrderOfTwo(l: Layout, x: Item, y: Item)
    requires Valid(l) && In(l, x) && In(l, y) && Precedes(l, x, y)
    ensures Place(l, x) < Place(l, y)
  {
    hide Valid, Place, Precedes;
    match StageOf(l, x)
    case OnReceipt => ReceiptFirst(l, x, y);
    case ByWake => WakeNext(l, x, y);
    case AtTail => TailNext(l, x, y);
  }

  lemma ReceiptFirst(l: Layout, x: Item, y: Item)
    requires Valid(l) && In(l, x) && In(l, y) && Precedes(l, x, y) && StageOf(l, x) == OnReceipt
    ensures Place(l, x) < Place(l, y)
  {
    hide *;
    ReceivedIsPosted(l, x);
    PlaceOnReceipt(l, x.i);
    match StageOf(l, y)
    case OnReceipt =>
      ReceivedIsPosted(l, y);
      SameStage(l, x, y);
      PlaceOnReceipt(l, y.i);
      ReceiptGrows(l, Key(l, x.i) + 1, Key(l, y.i));
    case ByWake =>
      WokenThread(l, y);
      PlaceByWake(l, y);
      PairStartGrows(l, 0, FirstWake(l.wakes, EventOf(l, y).thread));
      PairStartIs(l, 0);
    case AtTail =>
      PlaceAtTail(l, y);
      PairStartGrows(l, 0, |l.wakes|);
      PairStartIs(l, 0);
  }

  // Items of one stage, by what that stage orders them by.
  lemma SameStage(l: Layout, x: Item, y: Item)
    requires Valid(l) && In(l, x) && In(l, y) && Precedes(l, x, y)
    ensures StageOf(l, x) == StageOf(l, y) == OnReceipt ==> Key(l, x.i) < Key(l, y.i)
    ensures StageOf(l, x) == AtTail ==> StageOf(l, y) == AtTail && InputBefore(l, x, y)
    ensures StageOf(l, x) == ByWake ==> StageOf(l, y) == AtTail || StageOf(l, y) == ByWake
    ensures StageOf(l, x) == StageOf(l, y) == ByWake ==>
      var u, v := FirstWake(l.wakes, EventOf(l, x).thread), FirstWake(l.wakes, EventOf(l, y).thread);
      u < v || (u == v && EventOf(l, x).thread == EventOf(l, y).thread && InputBefore(l, x, y))
  {
    hide Valid, Key, InputBefore, Threads;
  }

  lemma TailNext(l: Layout, x: Item, y: Item)
    requires Valid(l) && In(l, x) && In(l, y) && Precedes(l, x, y) && StageOf(l, x) == AtTail
    ensures Place(l, x) < Place(l, y)
  {
    hide *;
    SameStage(l, x, y);
    PlaceAtTailIs(l, x);
    PlaceAtTailIs(l, y);
    InputOfIs(l, x);
    InputOrderKept(l, Threads(l.wakes), x, y);
  }

  lemma WakeNext(l: Layout, x: Item, y: Item)
    requires Valid(l) && In(l, x) && In(l, y) && Precedes(l, x, y) && StageOf(l, x) == ByWake
    ensures Place(l, x) < Place(l, y)
  {
    hide *;
    SameStage(l, x, y);
    WokenThread(l, x);
    PlaceByWake(l, x);
    if StageOf(l, y) == AtTail {
      PlaceAtTail(l, y);
    } else {
      WokenThread(l, y);
      PlaceByWake(l, y);
      var u, v := FirstWake(l.wakes, EventOf(l, x).thread), FirstWake(l.wakes, EventOf(l, y).thread);
      if u < v {
        PairStartGrows(l, u + 1, v);
      } else {
        PlaceByWakeIs(l, x);
        PlaceByWakeIs(l, y);
        InputOfIs(l, x);
        InputOrderKept(l, {EventOf(l, x).thread}, x, y);
      }
    }
  }

  /** Any two items are ordered one way or the other, so OrderOfTwo decides the whole order. */
  lemma TotalOrder(l: Layout, x: Item, y: Item)
    requires Valid(l) && In(l, x) && In(l, y) && x != y
    ensures Precedes(l, x, y) || Precedes(l, y, x)
  {
    if StageOf(l, x).OnReceipt? && StageOf(l, y).OnReceipt? { KeysApart(l, x.i, y.i); }
  }

  lemma KeysApart(l: Layout, i: nat, j: nat)
    requires Valid(l) && i < |l.posted| && j < |l.posted| && i != j
    ensures Key(l, i) != Key(l, j)
  {
    if IsSlot(l, i) { KeyLists(l, i); }
    if IsSlot(l, j) { KeyLists(l, j); }
  }

  /**
   A thread's walked answers fill exactly the places they were received in,
   taken in receipt order, each place by the next answer of its walk.
   */
  lemma WalkOrder(l: Layout, t: ThreadId, j: nat, k: nat)
    requires Valid(l) && j < k < |Steps(l.plan, t)|
    ensures SlotAt(l, t, j) < SlotAt(l, t, k)
    ensures Key(l, AnswerOf(l, t, j)) == SlotAt(l, t, j) && Key(l, AnswerOf(l, t, k)) == SlotAt(l, t, k)
    ensures Place(l, Posted(AnswerOf(l, t, j))) < Place(l, Posted(AnswerOf(l, t, k)))
  {
    hide *;
    AnswerKey(l, t, j);
    AnswerKey(l, t, k);
    SlotsRise(l, t, j, k);
    ReceiptBefore(l, AnswerOf(l, t, j), AnswerOf(l, t, k));
    OrderOfTwo(l, Posted(AnswerOf(l, t, j)), Posted(AnswerOf(l, t, k)));
  }

  lemma SlotsRise(l: Layout, t: ThreadId, j: nat, k: nat)
    requires Valid(l) && j < k < |Steps(l.plan, t)|
    ensures SlotAt(l, t, j) < SlotAt(l, t, k)
  {
    hide Valid, IsSlot, Slots;
    SlotOf(l, t, j);
    SlotsAscend(l, t, |l.posted|);
  }

  lemma AnswerKey(l: Layout, t: ThreadId, j: nat)
    requires Valid(l) && j < |Steps(l.plan, t)|
    ensures In(l, Posted(AnswerOf(l, t, j))) && StageOf(l, Posted(AnswerOf(l, t, j))) == OnReceipt
    ensures Key(l, AnswerOf(l, t, j)) == SlotAt(l, t, j)
  {
    StepIsItsOwn(l, t, j);
    SlotAnswer(l, AnswerOf(l, t, j));
  }

  lemma ReceiptBefore(l: Layout, i: nat, j: nat)
    requires Valid(l) && i < |l.posted| && j < |l.posted| && Key(l, i) < Key(l, j)
    requires StageOf(l, Posted(i)) == StageOf(l, Posted(j)) == OnReceipt
    ensures Precedes(l, Posted(i), Posted(j))
  {
    hide Valid, Key;
  }

  /** The places a thread's walk fills are the places its walked answers were received in. */
  lemma WalkFills(l: Layout, t: ThreadId, i: nat)
    requires Valid(l) && i < |l.posted|
    ensures (exists j: nat :: j < |Steps(l.plan, t)| && SlotAt(l, t, j) == i)
       <==> (exists j: nat :: j < |Steps(l.plan, t)| && AnswerOf(l, t, j) == i)
  {
    var steps, slots := Steps(l.plan, t), Slots(l, t, |l.posted|);
    SortedTargets(l, t);
    SlotsMember(l, t, |l.posted|, i);
    if j: nat :| j < |steps| && SlotAt(l, t, j) == i {
      assert slots[j] == i;
      var k := StepIndex(steps, l.posted[i].id);
      PostAtIs(l.posted, i);
      assert AnswerOf(l, t, k) == i;
    }
    if j: nat :| j < |steps| && AnswerOf(l, t, j) == i {
      StepIsItsOwn(l, t, j);
      PostAtIs(l.posted, i);
      var k: nat :| k < |slots| && slots[k] == i;
      assert SlotAt(l, t, k) == i;
    }
  }
}
