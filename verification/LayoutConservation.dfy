/** Nothing is lost and nothing is doubled by the processing order. */
module LayoutConservation {
  import opened Rows
  import opened EventModel
  import opened SendLayout

  // ---------------------------------------------------------------- what a layout holds

  // The denial results planned beside the posted answer at i.
  function OwnDenials(l: Layout, i: nat): seq<Event>
    requires i < |l.posted|
  {
    var steps := Steps(l.plan, l.posted[i].thread);
    var j := StepIndex(steps, l.posted[i].id);
    if j >= 0 then steps[j].denials else []
  }

  // How often the platform wrote row x around posted place i.
  function Around(l: Layout, i: nat, x: Event): nat
    requires i < |l.posted|
  {
    N(At(l.settled, i), x) + N(At(l.idled, i), x) + N(At(l.parked, i), x)
  }

  function AroundUpTo(l: Layout, k: nat, x: Event): nat
    requires k <= |l.posted|
  {
    if k == 0 then 0
    else AroundUpTo(l, k - 1, x) + Around(l, k - 1, x) + N(OwnDenials(l, k - 1), x)
  }

  function WakeRows(wakes: seq<ThreadWake>, x: Event): nat {
    if wakes == [] then 0
    else
      var w := wakes[|wakes| - 1];
      WakeRows(wakes[..|wakes| - 1], x) + N(w.pair, x) + N(w.consumed, x)
  }

  function DeliveredRows(delivered: seq<DeliveredRow>, x: Event): nat {
    if delivered == [] then 0
    else DeliveredRows(delivered[..|delivered| - 1], x) + (if delivered[|delivered| - 1].row == x then 1 else 0)
  }

  // How often the platform wrote row x into the layout.
  function Written(l: Layout, x: Event): nat {
    AroundUpTo(l, |l.posted|, x) + N(At(l.parked, |l.posted|), x)
    + WakeRows(l.wakes, x) + DeliveredRows(l.delivered, x)
  }

  // ---------------------------------------------------------------- answers change places

  // The posted answer listed at place i.
  ghost function Listed(l: Layout, i: nat): (k: nat)
    requires Valid(l) && i < |l.posted|
    ensures k < |l.posted|
  {
    if IsSlot(l, i) then PostAt(l.posted, StepFor(l, i).answer) else i
  }

  // A listed answer was itself received in a slot of the same thread.
  lemma ListedSlot(l: Layout, i: nat)
    requires Valid(l) && i < |l.posted| && IsSlot(l, i)
    ensures var k, t := Listed(l, i), l.posted[i].thread;
      && IsSlot(l, k) && l.posted[k].thread == t
      && |Slots(l, t, i)| < |Steps(l.plan, t)|
      && Steps(l.plan, t)[|Slots(l, t, i)|].answer == l.posted[k].id
  {
    RankOf(l, i);
    var k := Listed(l, i);
    var steps := Steps(l.plan, l.posted[i].thread);
    assert steps[|Slots(l, l.posted[i].thread, i)|].answer == l.posted[k].id;
  }

  lemma StepsApart(l: Layout, t: ThreadId, a: nat, b: nat)
    requires Valid(l) && a < b < |Steps(l.plan, t)|
    ensures Steps(l.plan, t)[a].answer != Steps(l.plan, t)[b].answer
  {
  }

  lemma SlotsBefore(l: Layout, t: ThreadId, i: nat, j: nat)
    requires i < j <= |l.posted| && l.posted[i].thread == t && IsSlot(l, i)
    ensures |Slots(l, t, i)| < |Slots(l, t, j)|
  {
  }

  lemma SlotsApart(l: Layout, i: nat, j: nat)
    requires Valid(l) && i < j < |l.posted| && IsSlot(l, i) && IsSlot(l, j)
    requires l.posted[i].thread == l.posted[j].thread
    ensures Listed(l, i) != Listed(l, j)
  {
    hide *;
    var t := l.posted[i].thread;
    ListedSlot(l, i);
    ListedSlot(l, j);
    SlotsBefore(l, t, i, j);
    StepsApart(l, t, |Slots(l, t, i)|, |Slots(l, t, j)|);
  }

  lemma ListedApart(l: Layout, i: nat, j: nat)
    requires Valid(l) && i < j < |l.posted|
    ensures Listed(l, i) != Listed(l, j)
  {
    if IsSlot(l, i) && IsSlot(l, j) && l.posted[i].thread == l.posted[j].thread {
      SlotsApart(l, i, j);
    } else {
      if IsSlot(l, i) { ListedSlot(l, i); }
      if IsSlot(l, j) { ListedSlot(l, j); }
    }
  }

  ghost function ListedAll(l: Layout): (at: seq<nat>)
    requires Valid(l)
    ensures |at| == |l.posted|
    ensures forall i :: 0 <= i < |at| ==> at[i] == Listed(l, i) && at[i] < |at|
    ensures Injective(at)
  {
    var at := seq(|l.posted|, i requires 0 <= i < |l.posted| => Listed(l, i));
    assert Injective(at) by {
      forall i, j | 0 <= i < j < |at| ensures at[i] != at[j] { ListedApart(l, i, j); }
    }
    at
  }

  // A posted event with the denial results planned beside it.
  ghost function Bundle(l: Layout, i: nat, x: Event): nat
    requires i < |l.posted|
  {
    N([l.posted[i]], x) + N(OwnDenials(l, i), x)
  }

  ghost function Bundles(l: Layout, k: nat, x: Event): (r: seq<nat>)
    requires k <= |l.posted|
    ensures |r| == k
    ensures forall i :: 0 <= i < k ==> r[i] == Bundle(l, i, x)
  {
    seq(k, i requires 0 <= i < k => Bundle(l, i, x))
  }

  ghost function Rearranged(l: Layout, k: nat, x: Event): (r: seq<nat>)
    requires Valid(l) && k <= |l.posted|
    ensures |r| == k
    ensures forall i :: 0 <= i < k ==> r[i] == Bundle(l, Listed(l, i), x)
  {
    seq(k, i requires 0 <= i < k => Bundle(l, Listed(l, i), x))
  }

  lemma RearrangedSum(l: Layout, x: Event)
    requires Valid(l)
    ensures Sum(Rearranged(l, |l.posted|, x)) == Sum(Bundles(l, |l.posted|, x))
  {
    var n := |l.posted|;
    SumReindexed(Bundles(l, n, x), ListedAll(l));
    assert Through(Bundles(l, n, x), ListedAll(l)) == Rearranged(l, n, x);
  }

  lemma {:induction false} BundlesSum(l: Layout, k: nat, x: Event)
    requires k <= |l.posted|
    ensures Sum(Bundles(l, k, x)) + AroundSum(l, k, x) == N(l.posted[..k], x) + AroundUpTo(l, k, x)
    decreases k
  {
    hide *;
    if k > 0 {
      BundlesSum(l, k - 1, x);
      BundlesStep(l, k - 1, x);
    } else {
      NoBundles(l, x);
    }
  }

  lemma NoBundles(l: Layout, x: Event)
    ensures Sum(Bundles(l, 0, x)) == 0 && AroundSum(l, 0, x) == 0 && N(l.posted[..0], x) == 0 && AroundUpTo(l, 0, x) == 0
  {
  }

  lemma BundlesSnoc(l: Layout, k: nat, x: Event)
    requires k < |l.posted|
    ensures Sum(Bundles(l, k + 1, x)) == Sum(Bundles(l, k, x)) + Bundle(l, k, x)
  {
    hide Bundle;
    assert Bundles(l, k + 1, x)[..k] == Bundles(l, k, x);
  }

  lemma AroundNext(l: Layout, k: nat, x: Event)
    requires k < |l.posted|
    ensures AroundSum(l, k + 1, x) == AroundSum(l, k, x) + Around(l, k, x)
    ensures AroundUpTo(l, k + 1, x) == AroundUpTo(l, k, x) + Around(l, k, x) + N(OwnDenials(l, k), x)
  {
  }

  lemma PostedNext(l: Layout, k: nat, x: Event)
    requires k < |l.posted|
    ensures N(l.posted[..k + 1], x) == N(l.posted[..k], x) + N([l.posted[k]], x)
  {
    assert l.posted[..k + 1] == l.posted[..k] + [l.posted[k]];
    NConcat(l.posted[..k], [l.posted[k]], x);
  }

  lemma BundlesStep(l: Layout, k: nat, x: Event)
    requires k < |l.posted|
    ensures Sum(Bundles(l, k + 1, x)) == Sum(Bundles(l, k, x)) + Bundle(l, k, x)
    ensures AroundSum(l, k + 1, x) == AroundSum(l, k, x) + Around(l, k, x)
    ensures N(l.posted[..k + 1], x) + AroundUpTo(l, k + 1, x)
         == N(l.posted[..k], x) + AroundUpTo(l, k, x) + Bundle(l, k, x) + Around(l, k, x)
  {
    hide Bundles, Sum, AroundSum, AroundUpTo, Around, N, OwnDenials;
    BundlesSnoc(l, k, x);
    AroundNext(l, k, x);
    PostedNext(l, k, x);
  }

  ghost function AroundSum(l: Layout, k: nat, x: Event): nat
    requires k <= |l.posted|
  {
    if k == 0 then 0 else AroundSum(l, k - 1, x) + Around(l, k - 1, x)
  }

  // ---------------------------------------------------------------- receipt

  ghost function Evs(ins: seq<Input>, x: Event): nat {
    if ins == [] then 0 else Evs(ins[..|ins| - 1], x) + (if ins[|ins| - 1].ev == x then 1 else 0)
  }

  lemma {:induction false} EvsConcat(a: seq<Input>, b: seq<Input>, x: Event)
    ensures Evs(a + b, x) == Evs(a, x) + Evs(b, x)
  {
    if b == [] {
      assert a + b == a;
    } else {
      EvsConcat(a, b[..|b| - 1], x);
      assert (a + b)[..|a + b| - 1] == a + b[..|b| - 1];
    }
  }

  // Off the slots, a posted event stays where it is, an interrupt with its settlement around it.
  lemma OffSlots(l: Layout, i: nat)
    requires Valid(l) && i < |l.posted| && !IsSlot(l, i)
    ensures Listed(l, i) == i && OwnDenials(l, i) == [] && At(l.parked, i) == []
    ensures var ev := l.posted[i];
      if ev.kind == Interrupt then ReceiptAt(l, i) == At(l.settled, i) + [ev] + At(l.idled, i) && PostedInput(l, i) == []
      else && At(l.settled, i) == [] && At(l.idled, i) == []
           && (if PostedInput(l, i) == [] then ReceiptAt(l, i) == [ev] else ReceiptAt(l, i) == [] && |PostedInput(l, i)| == 1 && PostedInput(l, i)[0].ev == ev)
  {
  }

  lemma EvsOne(ins: seq<Input>, x: Event)
    requires |ins| <= 1
    ensures Evs(ins, x) == if ins != [] && ins[0].ev == x then 1 else 0
  {
  }

  // Every posted event is either listed on receipt or left as input.
  lemma ReceiptAtRows(l: Layout, i: nat, x: Event)
    requires Valid(l) && i < |l.posted|
    ensures N(ReceiptAt(l, i), x) + Evs(PostedInput(l, i), x) == Bundle(l, Listed(l, i), x) + Around(l, i, x)
  {
    hide Valid, IsSlot, ReceiptAt, PostedInput, Listed, OwnDenials, Evs;
    if IsSlot(l, i) {
      SlotRows(l, i, x);
      EvsOne([], x);
    } else {
      OffSlots(l, i);
      var ev := l.posted[i];
      EvsOne(PostedInput(l, i), x);
      NConcat(At(l.settled, i) + [ev], At(l.idled, i), x);
      NConcat(At(l.settled, i), [ev], x);
    }
  }

  lemma SlotAnswer(l: Layout, i: nat)
    requires Valid(l) && i < |l.posted| && IsSlot(l, i)
    ensures IsAnswer(l.posted[i].kind) && l.posted[i].id !in l.plan.pending
  {
  }

  lemma SlotRows(l: Layout, i: nat, x: Event)
    requires Valid(l) && i < |l.posted| && IsSlot(l, i)
    ensures N(ReceiptAt(l, i), x) == Bundle(l, Listed(l, i), x) + Around(l, i, x)
    ensures PostedInput(l, i) == []
  {
    SlotAnswer(l, i);
    ListedDenials(l, i);
    var k := Listed(l, i);
    NConcat([l.posted[k]] + OwnDenials(l, k), At(l.parked, i), x);
    NConcat([l.posted[k]], OwnDenials(l, k), x);
    assert i !in l.settled && i !in l.idled;
  }

  // A step's denials travel with its answer.
  lemma ListedDenials(l: Layout, i: nat)
    requires Valid(l) && i < |l.posted| && IsSlot(l, i)
    ensures OwnDenials(l, Listed(l, i)) == StepFor(l, i).denials
  {
    var t := l.posted[i].thread;
    var steps := Steps(l.plan, t);
    ListedSlot(l, i);
    var a, b := |Slots(l, t, i)|, StepIndex(steps, l.posted[Listed(l, i)].id);
    assert t in l.plan.steps && steps[a].answer == steps[b].answer;
  }

  lemma {:induction false} ReceiptRows(l: Layout, k: nat, x: Event)
    requires Valid(l) && k <= |l.posted|
    ensures N(Receipt(l, k), x) + PostedEvs(l, k, x) == Sum(Rearranged(l, k, x)) + AroundSum(l, k, x)
    decreases k
  {
    hide *;
    if k > 0 {
      ReceiptRows(l, k - 1, x);
      ReceiptAtRows(l, k - 1, x);
      ReceiptStep(l, k - 1, x);
      RearrangedStep(l, k - 1, x);
    } else {
      NoReceipt(l, x);
    }
  }

  lemma NoReceipt(l: Layout, x: Event)
    requires Valid(l)
    ensures N(Receipt(l, 0), x) == 0 && PostedEvs(l, 0, x) == 0 && Sum(Rearranged(l, 0, x)) == 0 && AroundSum(l, 0, x) == 0
  {
  }

  lemma ReceiptStep(l: Layout, k: nat, x: Event)
    requires Valid(l) && k < |l.posted|
    ensures N(Receipt(l, k + 1), x) == N(Receipt(l, k), x) + N(ReceiptAt(l, k), x)
    ensures PostedEvs(l, k + 1, x) == PostedEvs(l, k, x) + Evs(PostedInput(l, k), x)
    ensures AroundSum(l, k + 1, x) == AroundSum(l, k, x) + Around(l, k, x)
  {
  }

  lemma RearrangedStep(l: Layout, k: nat, x: Event)
    requires Valid(l) && k < |l.posted|
    ensures Sum(Rearranged(l, k + 1, x)) == Sum(Rearranged(l, k, x)) + Bundle(l, Listed(l, k), x)
  {
    assert Rearranged(l, k + 1, x)[..k] == Rearranged(l, k, x);
  }

  ghost function PostedEvs(l: Layout, k: nat, x: Event): nat
    requires k <= |l.posted|
  {
    if k == 0 then 0 else PostedEvs(l, k - 1, x) + Evs(PostedInput(l, k - 1), x)
  }

  // ---------------------------------------------------------------- input

  ghost function CausedUpTo(delivered: seq<DeliveredRow>, k: nat, x: Event): nat {
    if k == 0 then 0 else CausedUpTo(delivered, k - 1, x) + Evs(DeliveredBy(delivered, k - 1), x)
  }

  lemma {:induction false} InputsEvs(l: Layout, k: nat, x: Event)
    requires k <= |l.posted|
    ensures Evs(Inputs(l, k), x) == PostedEvs(l, k, x) + CausedUpTo(l.delivered, k, x)
    decreases k
  {
    hide Evs, Inputs, PostedEvs, CausedUpTo, PostedInput, DeliveredBy;
    if k > 0 {
      InputsEvs(l, k - 1, x);
      InputsStep(l, k - 1, x);
    } else {
      NoInputs(l, x);
    }
  }

  lemma NoInputs(l: Layout, x: Event)
    ensures Evs(Inputs(l, 0), x) == 0 && PostedEvs(l, 0, x) == 0 && CausedUpTo(l.delivered, 0, x) == 0
  {
  }

  lemma InputsStep(l: Layout, k: nat, x: Event)
    requires k < |l.posted|
    ensures Evs(Inputs(l, k + 1), x) - Evs(Inputs(l, k), x)
         == Evs(PostedInput(l, k), x) + Evs(DeliveredBy(l.delivered, k), x)
         == PostedEvs(l, k + 1, x) - PostedEvs(l, k, x)
            + CausedUpTo(l.delivered, k + 1, x) - CausedUpTo(l.delivered, k, x)
  {
    EvsConcat3(Inputs(l, k), PostedInput(l, k), DeliveredBy(l.delivered, k), x);
  }

  lemma EvsConcat3(a: seq<Input>, b: seq<Input>, c: seq<Input>, x: Event)
    ensures Evs(a + b + c, x) == Evs(a, x) + Evs(b, x) + Evs(c, x)
  {
    EvsConcat(a + b, c, x);
    EvsConcat(a, b, x);
  }

  // Each delivered row is counted at its one cause.
  lemma {:induction false} DeliveredOnce(delivered: seq<DeliveredRow>, n: nat, x: Event)
    requires forall k :: 0 <= k < |delivered| ==> 0 <= delivered[k].cause < n
    ensures CausedUpTo(delivered, n, x) == DeliveredRows(delivered, x)
    decreases |delivered|
  {
    if delivered == [] {
      NoneCaused(n, x);
    } else {
      DeliveredOnce(delivered[..|delivered| - 1], n, x);
      OneMoreCaused(delivered, n, x);
    }
  }

  lemma {:induction false} NoneCaused(n: nat, x: Event)
    ensures CausedUpTo([], n, x) == 0
    decreases n
  {
    if n > 0 { NoneCaused(n - 1, x); }
  }

  lemma {:induction false} OneMoreCaused(delivered: seq<DeliveredRow>, n: nat, x: Event)
    requires delivered != []
    ensures var d := delivered[|delivered| - 1];
      CausedUpTo(delivered, n, x) == CausedUpTo(delivered[..|delivered| - 1], n, x)
                                   + (if 0 <= d.cause < n && d.row == x then 1 else 0)
    decreases n
  {
    hide Evs, DeliveredBy;
    if n > 0 {
      OneMoreCaused(delivered, n - 1, x);
      OneMoreDelivered(delivered, n - 1, x);
    }
  }

  lemma OneMoreDelivered(delivered: seq<DeliveredRow>, i: int, x: Event)
    requires delivered != []
    ensures var d := delivered[|delivered| - 1];
      Evs(DeliveredBy(delivered, i), x) == Evs(DeliveredBy(delivered[..|delivered| - 1], i), x)
                                         + (if d.cause == i && d.row == x then 1 else 0)
  {
    var d := delivered[|delivered| - 1];
    EvsConcat(DeliveredBy(delivered[..|delivered| - 1], i),
              if d.cause == i then [Input(i, d.row.thread, d.row, false)] else [], x);
  }

  // ---------------------------------------------------------------- wakes and the tail

  lemma {:induction false} ForOrNotFor(ins: seq<Input>, ts: set<ThreadId>, x: Event)
    ensures N(For(ins, ts), x) + N(NotFor(ins, ts), x) == Evs(ins, x)
  {
    if ins != [] { ForOrNotFor(ins[..|ins| - 1], ts, x); }
  }

  lemma {:induction false} ForOneMore(ins: seq<Input>, ts: set<ThreadId>, t: ThreadId, x: Event)
    requires t !in ts
    ensures N(For(ins, ts + {t}), x) == N(For(ins, ts), x) + N(For(ins, {t}), x)
  {
    if ins != [] { ForOneMore(ins[..|ins| - 1], ts, t, x); }
  }

  lemma ThreadsOneMore(wakes: seq<ThreadWake>, k: nat)
    requires k < |wakes|
    ensures Threads(wakes[..k + 1]) == Threads(wakes[..k]) + {wakes[k].thread}
  {
  }

  lemma {:induction false} WokenRows(ins: seq<Input>, wakes: seq<ThreadWake>, k: nat, x: Event)
    requires k <= |wakes|
    ensures N(Woken(ins, wakes, k), x) == WakeRows(wakes[..k], x) + N(For(ins, Threads(wakes[..k])), x)
    decreases k
  {
    hide *;
    if k == 0 {
      NoneWoken(ins, wakes, x);
    } else {
      WokenRows(ins, wakes, k - 1, x);
      WokenStep(ins, wakes, k - 1, x);
      WakeRowsStep(wakes, k - 1, x);
    }
  }

  lemma NoneWoken(ins: seq<Input>, wakes: seq<ThreadWake>, x: Event)
    ensures N(Woken(ins, wakes, 0), x) == 0 && WakeRows(wakes[..0], x) == 0 && N(For(ins, Threads(wakes[..0])), x) == 0
  {
  }

  lemma WakeRowsStep(wakes: seq<ThreadWake>, k: nat, x: Event)
    requires k < |wakes|
    ensures WakeRows(wakes[..k + 1], x) == WakeRows(wakes[..k], x) + N(wakes[k].pair, x) + N(wakes[k].consumed, x)
  {
    assert wakes[..k + 1][..k] == wakes[..k];
  }

  lemma NoneConsumed(x: Event)
    ensures N([], x) == 0
  {
  }

  lemma WokenStep(ins: seq<Input>, wakes: seq<ThreadWake>, k: nat, x: Event)
    requires k < |wakes|
    ensures N(Woken(ins, wakes, k + 1), x)
         == N(Woken(ins, wakes, k), x) + N(wakes[k].pair, x) + N(wakes[k].consumed, x)
            + N(For(ins, Threads(wakes[..k + 1])), x) - N(For(ins, Threads(wakes[..k])), x)
  {
    hide N, For, Threads;
    var w, ts := wakes[k], Threads(wakes[..k]);
    ThreadsOneMore(wakes, k);
    if w.thread in ts {
      NoneConsumed(x);
      assert ts + {w.thread} == ts;
    } else {
      ForOneMore(ins, ts, w.thread, x);
    }
    NConcat(Woken(ins, wakes, k) + w.pair + w.consumed, ConsumedBy(ins, wakes, k), x);
    NConcat(Woken(ins, wakes, k) + w.pair, w.consumed, x);
    NConcat(Woken(ins, wakes, k), w.pair, x);
  }

  /**
   The processing order is a permutation of the posted events and everything the
   platform wrote: each row occurs in it as often as it was posted and written.
   */
  lemma OrderConserves(l: Layout, x: Event)
    requires Valid(l)
    ensures N(Order(l), x) == N(l.posted, x) + Written(l, x)
  {
    hide Order, Receipt, Inputs, Woken, NotFor, For, N, AroundUpTo, AroundSum, Valid, Evs,
         WakeRows, DeliveredRows, PostedEvs, CausedUpTo, Sum, Rearranged, Bundles, Threads;
    var n := |l.posted|;
    var ins := Inputs(l, n);
    OrderCount(l, x);
    ReceiptRows(l, n, x);
    RearrangedSum(l, x);
    BundlesSum(l, n, x);
    assert l.posted[..n] == l.posted;
    InputsEvs(l, n, x);
    ValidCauses(l);
    DeliveredOnce(l.delivered, n, x);
    WokenRows(ins, l.wakes, |l.wakes|, x);
    assert l.wakes[..|l.wakes|] == l.wakes;
    ForOrNotFor(ins, Threads(l.wakes), x);
  }

  lemma ValidCauses(l: Layout)
    requires Valid(l)
    ensures forall k :: 0 <= k < |l.delivered| ==> 0 <= l.delivered[k].cause < |l.posted|
  {
  }

  lemma OrderCount(l: Layout, x: Event)
    requires Valid(l)
    ensures var ins := Inputs(l, |l.posted|);
      N(Order(l), x) == N(Receipt(l, |l.posted|), x) + N(At(l.parked, |l.posted|), x)
                      + N(Woken(ins, l.wakes, |l.wakes|), x) + N(NotFor(ins, Threads(l.wakes)), x)
  {
  }

}
