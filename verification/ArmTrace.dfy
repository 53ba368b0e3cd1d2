/** The status rows of a send stand in its log in the order their arms ran. */
module ArmTrace {
  import opened Rows
  import opened Options
  import opened EventModel
  import opened SendLayout
  import opened LayoutUpdates
  import opened ArmOrder
  import LayoutConservation

  // The idle rows an arm writes: its idle pair, or its re-park.
  function IdleRows(a: Arm): seq<Event> {
    match a.act
    case Ends(out, _, _) => out.idled
    case Reparks(pair) => pair
    case _ => []
  }

  // The running rows an arm writes: a coordinator's wake, a redirect, a resume, a message's wake.
  function RunningRows(a: Arm): seq<Event> {
    match a.act
    case Ends(out, _, _) => (if out.told.Some? then out.told.value.wake else []) + out.resume
    case Resumes(pair) => pair
    case Wakes(pair) => pair
    case _ => []
  }

  function IdleTrace(arms: seq<Arm>): seq<Event> {
    if arms == [] then [] else IdleTrace(arms[..|arms| - 1]) + IdleRows(arms[|arms| - 1])
  }

  function RunningTrace(arms: seq<Arm>): seq<Event> {
    if arms == [] then [] else RunningTrace(arms[..|arms| - 1]) + RunningRows(arms[|arms| - 1])
  }

  // p picks no row of the list.
  ghost predicate No(p: Event -> bool, rows: seq<Event>) {
    forall ev :: ev in rows ==> !p(ev)
  }

  // ---------------------------------------------------------------- a layout's status rows

  function IdleAt(l: Layout, i: int): seq<Event> {
    At(l.idled, i) + At(l.parked, i)
  }

  function IdleUpTo(l: Layout, k: nat): seq<Event> {
    if k == 0 then [] else IdleUpTo(l, k - 1) + IdleAt(l, k - 1)
  }

  function WakePairs(wakes: seq<ThreadWake>): seq<Event> {
    if wakes == [] then [] else WakePairs(wakes[..|wakes| - 1]) + wakes[|wakes| - 1].pair
  }

  // p picks nothing the layout holds besides idle and running rows.
  ghost predicate OnlyStatus(l: Layout, p: Event -> bool) {
    && No(p, l.posted)
    && (forall i :: No(p, At(l.settled, i)))
    && (forall t, j :: t in l.plan.steps && 0 <= j < |l.plan.steps[t]| ==> No(p, l.plan.steps[t][j].denials))
    && (forall k :: 0 <= k < |l.wakes| ==> No(p, l.wakes[k].consumed))
    && (forall k :: 0 <= k < |l.delivered| ==> !p(l.delivered[k].row))
  }

  lemma KeepInterrupt(l: Layout, i: nat, p: Event -> bool)
    requires i < |l.posted| && OnlyStatus(l, p)
    ensures Keep(At(l.settled, i) + [l.posted[i]] + At(l.idled, i), p) == Keep(At(l.idled, i), p)
  {
    hide Keep;
    var head := At(l.settled, i) + [l.posted[i]];
    KeepConcat(head, At(l.idled, i), p);
    KeepNone(head, p);
    assert [] + Keep(At(l.idled, i), p) == Keep(At(l.idled, i), p);
  }

  // Off the slots, only an interrupt's place holds more than its event.
  lemma ReceiptOffSlots(l: Layout, i: nat)
    requires Valid(l) && i < |l.posted| && !IsSlot(l, i)
    ensures l.posted[i].kind == Interrupt && l.posted[i].id !in l.plan.pending ==>
      ReceiptAt(l, i) == At(l.settled, i) + [l.posted[i]] + At(l.idled, i) && IdleAt(l, i) == At(l.idled, i)
    ensures l.posted[i].kind != Interrupt || l.posted[i].id in l.plan.pending ==>
      (ReceiptAt(l, i) == [] || ReceiptAt(l, i) == [l.posted[i]]) && IdleAt(l, i) == []
  {
  }

  lemma KeepReceiptAt(l: Layout, i: nat, p: Event -> bool)
    requires Valid(l) && i < |l.posted| && OnlyStatus(l, p)
    ensures Keep(ReceiptAt(l, i), p) == Keep(IdleAt(l, i), p)
  {
    if IsSlot(l, i) {
      KeepSlot(l, i, p);
    } else {
      hide Valid, ReceiptAt, IdleAt, Keep, IsSlot;
      ReceiptOffSlots(l, i);
      if l.posted[i].kind == Interrupt && l.posted[i].id !in l.plan.pending {
        KeepInterrupt(l, i, p);
      } else {
        KeepNone(ReceiptAt(l, i), p);
        KeepNone([], p);
      }
    }
  }

  lemma KeepSlot(l: Layout, i: nat, p: Event -> bool)
    requires Valid(l) && i < |l.posted| && IsSlot(l, i) && OnlyStatus(l, p)
    ensures Keep(ReceiptAt(l, i), p) == Keep(IdleAt(l, i), p)
  {
    LayoutConservation.SlotAnswer(l, i);
    RankOf(l, i);
    var st, t := StepFor(l, i), l.posted[i].thread;
    assert t in l.plan.steps && st == l.plan.steps[t][|Slots(l, t, i)|];
    var ev := l.posted[PostAt(l.posted, st.answer)];
    KeepConcat([ev] + st.denials, At(l.parked, i), p);
    KeepNone([ev] + st.denials, p);
    assert IdleAt(l, i) == At(l.parked, i);
  }

  lemma {:induction false} KeepReceipt(l: Layout, k: nat, p: Event -> bool)
    requires Valid(l) && k <= |l.posted| && OnlyStatus(l, p)
    ensures Keep(Receipt(l, k), p) == Keep(IdleUpTo(l, k), p)
    decreases k
  {
    hide *;
    if k == 0 {
      NoReceipt(l);
    } else {
      KeepReceipt(l, k - 1, p);
      KeepReceiptAt(l, k - 1, p);
      ReceiptNext(l, k - 1);
      KeepConcat(Receipt(l, k - 1), ReceiptAt(l, k - 1), p);
      KeepConcat(IdleUpTo(l, k - 1), IdleAt(l, k - 1), p);
    }
  }

  lemma NoReceipt(l: Layout)
    requires Valid(l)
    ensures Receipt(l, 0) == [] && IdleUpTo(l, 0) == []
  {
  }

  lemma ReceiptNext(l: Layout, k: nat)
    requires Valid(l) && k < |l.posted|
    ensures Receipt(l, k + 1) == Receipt(l, k) + ReceiptAt(l, k)
    ensures IdleUpTo(l, k + 1) == IdleUpTo(l, k) + IdleAt(l, k)
  {
  }

  ghost predicate NoInput(ins: seq<Input>, p: Event -> bool) {
    forall k :: 0 <= k < |ins| ==> !p(ins[k].ev)
  }

  lemma {:induction false} InputsQuiet(l: Layout, k: nat, p: Event -> bool)
    requires k <= |l.posted| && OnlyStatus(l, p)
    ensures NoInput(Inputs(l, k), p)
    decreases k
  {
    if k > 0 {
      InputsQuiet(l, k - 1, p);
      DeliveredQuiet(l.delivered, k - 1, p);
      assert l.posted[k - 1] in l.posted;
    }
  }

  lemma {:induction false} DeliveredQuiet(ds: seq<DeliveredRow>, i: int, p: Event -> bool)
    requires forall k :: 0 <= k < |ds| ==> !p(ds[k].row)
    ensures NoInput(DeliveredBy(ds, i), p)
    decreases |ds|
  {
    if ds != [] { DeliveredQuiet(ds[..|ds| - 1], i, p); }
  }

  lemma {:induction false} ForQuiet(ins: seq<Input>, ts: set<ThreadId>, p: Event -> bool)
    requires NoInput(ins, p)
    ensures Keep(For(ins, ts), p) == [] && Keep(NotFor(ins, ts), p) == []
    decreases |ins|
  {
    if ins != [] {
      var short, x := ins[..|ins| - 1], ins[|ins| - 1];
      ForQuiet(short, ts, p);
      KeepConcat(For(short, ts), if !x.queued && x.thread in ts then [x.ev] else [], p);
      KeepConcat(NotFor(short, ts), if x.queued || x.thread !in ts then [x.ev] else [], p);
    }
  }

  lemma {:induction false} KeepWoken(l: Layout, ins: seq<Input>, k: nat, p: Event -> bool)
    requires k <= |l.wakes| && OnlyStatus(l, p) && NoInput(ins, p)
    ensures Keep(Woken(ins, l.wakes, k), p) == Keep(WakePairs(l.wakes[..k]), p)
    decreases k
  {
    if k > 0 {
      KeepWoken(l, ins, k - 1, p);
      var w := l.wakes[k - 1];
      ForQuiet(ins, {w.thread}, p);
      assert Keep(ConsumedBy(ins, l.wakes, k - 1), p) == [];
      KeepNone(w.consumed, p);
      WakePairsNext(l.wakes, k - 1);
      hide OnlyStatus, Keep, ConsumedBy, WakePairs, NoInput;
      var a := Woken(ins, l.wakes, k - 1);
      KeepConcat(a + w.pair + w.consumed, ConsumedBy(ins, l.wakes, k - 1), p);
      KeepConcat(a + w.pair, w.consumed, p);
      KeepConcat(a, w.pair, p);
      KeepConcat(WakePairs(l.wakes[..k - 1]), w.pair, p);
    }
  }

  lemma WakePairsNext(wakes: seq<ThreadWake>, k: nat)
    requires k < |wakes|
    ensures WakePairs(wakes[..k + 1]) == WakePairs(wakes[..k]) + wakes[k].pair
  {
    assert wakes[..k + 1][..k] == wakes[..k];
  }

  lemma OrderParts(l: Layout)
    requires Valid(l)
    ensures var ins := Inputs(l, |l.posted|);
      Order(l) == Receipt(l, |l.posted|) + At(l.parked, |l.posted|) + Woken(ins, l.wakes, |l.wakes|) + NotFor(ins, Threads(l.wakes))
  {
  }

  // The status rows of the order are the layout's idle rows by place, then its running pairs by wake.
  lemma KeepOrder(l: Layout, p: Event -> bool)
    requires Valid(l) && OnlyStatus(l, p)
    ensures Keep(Order(l), p) == Keep(IdleUpTo(l, |l.posted|) + At(l.parked, |l.posted|), p) + Keep(WakePairs(l.wakes), p)
  {
    hide *;
    var n := |l.posted|;
    var ins := Inputs(l, n);
    InputsQuiet(l, n, p);
    KeepReceipt(l, n, p);
    KeepWoken(l, ins, |l.wakes|, p);
    assert l.wakes[..|l.wakes|] == l.wakes;
    ForQuiet(ins, Threads(l.wakes), p);
    OrderParts(l);
    var a, b, c, d := Receipt(l, n), At(l.parked, n), Woken(ins, l.wakes, |l.wakes|), NotFor(ins, Threads(l.wakes));
    KeepConcat(a + b + c, d, p);
    KeepConcat(a + b, c, p);
    KeepConcat(a, b, p);
    KeepConcat(IdleUpTo(l, n), b, p);
  }

  // ---------------------------------------------------------------- what the arms leave

  // The layout the arms start from: nothing recorded but the plan.
  ghost predicate Fresh(l: Layout) {
    l.settled == map[] && l.idled == map[] && l.parked == map[] && l.wakes == [] && l.delivered == []
  }

  // Nothing is recorded past place m.
  ghost predicate Nothing(l: Layout, m: int) {
    forall i :: i > m ==> At(l.idled, i) == [] && At(l.parked, i) == []
  }

  lemma NothingAt(l: Layout, at: int, i: int)
    requires Nothing(l, at) && i > at
    ensures IdleAt(l, i) == []
  {
  }

  lemma {:induction false} IdleExtends(l: Layout, r: Layout, at: int, rows: seq<Event>, k: nat)
    requires Nothing(l, at)
    requires forall i :: i != at ==> IdleAt(r, i) == IdleAt(l, i)
    requires IdleAt(r, at) == IdleAt(l, at) + rows
    ensures IdleUpTo(r, k) == if 0 <= at < k then IdleUpTo(l, k) + rows else IdleUpTo(l, k)
    decreases k
  {
    hide IdleAt;
    if k > 0 {
      IdleExtends(l, r, at, rows, k - 1);
      if at < k - 1 {
        NothingAt(l, at, k - 1);
      }
    }
  }

  lemma {:induction false} IdleSame(l: Layout, r: Layout, k: nat)
    requires r.idled == l.idled && r.parked == l.parked
    ensures IdleUpTo(r, k) == IdleUpTo(l, k)
    decreases k
  {
    if k > 0 { IdleSame(l, r, k - 1); }
  }

  ghost function IdleAll(l: Layout): seq<Event> {
    IdleUpTo(l, |l.posted|) + At(l.parked, |l.posted|)
  }

  // An arm whose place is no earlier than any recorded place extends the idle rows at their end.
  lemma IdleStep(l: Layout, a: Arm)
    requires Valid(l) && Nothing(l, a.at)
    requires a.act.Ends? ==> 0 <= a.at < |l.posted| && l.posted[a.at].kind == Interrupt
    requires a.act.Reparks? ==> 0 <= a.at <= |l.posted|
    ensures IdleAll(RunArm(l, a)) == IdleAll(l) + IdleRows(a)
    ensures Nothing(RunArm(l, a), a.at)
  {
    if a.act.Ends? {
      EndsStep(l, a);
    } else if a.act.Reparks? {
      ReparkStep(l, a);
    } else {
      IdleSame(l, RunArm(l, a), |l.posted|);
    }
  }

  lemma EndsStep(l: Layout, a: Arm)
    requires Valid(l) && Nothing(l, a.at) && a.act.Ends?
    requires 0 <= a.at < |l.posted| && l.posted[a.at].kind == Interrupt
    ensures IdleAll(RunArm(l, a)) == IdleAll(l) + IdleRows(a) && Nothing(RunArm(l, a), a.at)
  {
    hide *;
    var r, n := RunArm(l, a), |l.posted|;
    EndsIdle(l, a);
    IdleAllIs(l);
    IdleAllIs(r);
    IdleExtends(l, r, a.at, IdleRows(a), n);
    assert At(r.parked, n) == [] && At(l.parked, n) == [];
  }

  lemma ReparkStep(l: Layout, a: Arm)
    requires Nothing(l, a.at) && a.act.Reparks? && 0 <= a.at <= |l.posted|
    ensures IdleAll(RunArm(l, a)) == IdleAll(l) + IdleRows(a) && Nothing(RunArm(l, a), a.at)
  {
    hide *;
    var r, n := RunArm(l, a), |l.posted|;
    ReparkIdle(l, a);
    IdleAllIs(l);
    IdleAllIs(r);
    IdleExtends(l, r, a.at, IdleRows(a), n);
  }

  lemma IdleAllIs(l: Layout)
    ensures IdleAll(l) == IdleUpTo(l, |l.posted|) + At(l.parked, |l.posted|)
  {
  }

  lemma EndsIdle(l: Layout, a: Arm)
    requires Valid(l) && Nothing(l, a.at) && a.act.Ends?
    requires 0 <= a.at < |l.posted| && l.posted[a.at].kind == Interrupt
    ensures var r := RunArm(l, a);
      && r.parked == l.parked && r.posted == l.posted && At(l.parked, |l.posted|) == []
      && IdleRows(a) == a.act.out.idled
      && (forall i :: i != a.at ==> IdleAt(r, i) == IdleAt(l, i))
      && IdleAt(r, a.at) == IdleAt(l, a.at) + a.act.out.idled
      && Nothing(r, a.at)
  {
    NotParked(l, a.at);
    EndsMaps(l, a);
    var r := RunArm(l, a);
    hide Valid, RunArm;
    forall i | i > a.at ensures At(r.idled, i) == [] && At(r.parked, i) == [] {
      assert At(l.idled, i) == [] && At(l.parked, i) == [];
    }
  }

  lemma NotParked(l: Layout, at: int)
    requires Valid(l) && 0 <= at < |l.posted| && l.posted[at].kind == Interrupt
    ensures at !in l.parked
  {
  }

  lemma EndsMaps(l: Layout, a: Arm)
    requires a.act.Ends?
    ensures var r := RunArm(l, a);
      r.idled == Append(l.idled, a.at, a.act.out.idled) && r.parked == l.parked && r.posted == l.posted
  {
  }

  lemma ReparkIdle(l: Layout, a: Arm)
    requires Nothing(l, a.at) && a.act.Reparks? && 0 <= a.at <= |l.posted|
    ensures var r, pair := RunArm(l, a), a.act.pair;
      && (forall i :: i != a.at ==> IdleAt(r, i) == IdleAt(l, i))
      && IdleAt(r, a.at) == IdleAt(l, a.at) + pair
      && Nothing(r, a.at)
      && IdleRows(a) == pair
      && r.posted == l.posted
      && At(r.parked, |l.posted|) == At(l.parked, |l.posted|) + (if a.at == |l.posted| then pair else [])
      && (a.at < |l.posted| ==> At(l.parked, |l.posted|) == [])
  {
    assert At(l.idled, a.at) + (At(l.parked, a.at) + a.act.pair) == At(l.idled, a.at) + At(l.parked, a.at) + a.act.pair;
    var r := RunArm(l, a);
    forall i | i > a.at ensures At(r.idled, i) == [] && At(r.parked, i) == [] {
      assert At(l.idled, i) == [] && At(l.parked, i) == [];
    }
  }

  lemma PlacesOk(l0: Layout, l: Layout, a: Arm)
    requires ValidArm(l0, a) && l.posted == l0.posted
    ensures a.act.Ends? ==> 0 <= a.at < |l.posted| && l.posted[a.at].kind == Interrupt
    ensures a.act.Reparks? ==> 0 <= a.at <= |l.posted|
  {
  }

  lemma {:induction false} IdleRun(l: Layout, arms: seq<Arm>)
    requires Valid(l) && Fresh(l) && ValidArms(l, arms)
    ensures IdleAll(RunAll(l, arms)) == IdleTrace(arms)
    ensures arms != [] ==> Nothing(RunAll(l, arms), arms[|arms| - 1].at)
    decreases |arms|
  {
    if arms == [] {
      FreshIdle(l, |l.posted|);
    } else {
      var done, a := arms[..|arms| - 1], arms[|arms| - 1];
      assert ValidArms(l, done) && ValidArm(l, a);
      IdleRun(l, done);
      RunFollows(l, done);
      var mid := RunAll(l, done);
      assert Valid(mid) && mid.posted == l.posted;
      PlacesOk(l, mid, a);
      assert Nothing(mid, a.at) by {
        if done != [] { assert done[|done| - 1].at <= a.at; }
      }
      hide Valid, IdleAll, IdleRows, RunArm, ValidArm, Follows;
      IdleStep(mid, a);
    }
  }

  lemma {:induction false} FreshIdle(l: Layout, k: nat)
    requires Fresh(l)
    ensures IdleUpTo(l, k) == []
    decreases k
  {
    if k > 0 { FreshIdle(l, k - 1); }
  }

  // ---------------------------------------------------------------- running pairs

  lemma WakePairsSnoc(wakes: seq<ThreadWake>, w: ThreadWake)
    ensures WakePairs(wakes + [w]) == WakePairs(wakes) + w.pair
  {
  }

  lemma WokePairs(l: Layout, t: ThreadId, pair: seq<Event>)
    ensures WakePairs(Woke(l, t, pair).wakes) == WakePairs(l.wakes) + pair
  {
  }

  lemma EndsRunning(l: Layout, at: int, out: InterruptOut)
    ensures WakePairs(Interrupted(l, at, out).wakes)
         == WakePairs(l.wakes) + (if out.told.Some? then out.told.value.wake else []) + out.resume
  {
    hide WakePairs, Woke;
    var l1 := Settled(l, at, out.settled, out.idled);
    if out.told.Some? {
      WokePairs(l1, out.told.value.received.thread, out.told.value.wake);
    }
    WokePairs(Told(l1, at, out.told), PRIMARY, out.resume);
  }

  lemma RunningStep(l: Layout, a: Arm)
    ensures WakePairs(RunArm(l, a).wakes) == WakePairs(l.wakes) + RunningRows(a)
  {
    hide WakePairs, Woke, Interrupted;
    match a.act {
      case Ends(out, _, _) => EndsRunning(l, a.at, out);
      case Resumes(pair) => WakePairsSnoc(l.wakes, ResumedWake(l, a.thread, pair));
      case Wakes(pair) => WokePairs(l, PRIMARY, pair);
      case _ =>
    }
  }

  lemma {:induction false} RunningRun(l: Layout, arms: seq<Arm>)
    requires Fresh(l)
    ensures WakePairs(RunAll(l, arms).wakes) == RunningTrace(arms)
    decreases |arms|
  {
    if arms != [] {
      RunningRun(l, arms[..|arms| - 1]);
      RunningStep(RunAll(l, arms[..|arms| - 1]), arms[|arms| - 1]);
    }
  }

  // ---------------------------------------------------------------- what p may not pick

  ghost predicate ArmQuiet(a: Arm, p: Event -> bool) {
    match a.act
    case Ends(out, _, steps) =>
      && No(p, out.settled)
      && (out.told.Some? ==> !p(out.told.value.received))
      && (forall j :: 0 <= j < |steps| ==> No(p, steps[j].denials))
    case _ => true
  }

  lemma {:induction false} DenialsQuiet(steps: seq<AnswerStep>, p: Event -> bool)
    requires forall j :: 0 <= j < |steps| ==> No(p, steps[j].denials)
    ensures No(p, AllDenials(steps))
    decreases |steps|
  {
    if steps != [] { DenialsQuiet(steps[..|steps| - 1], p); }
  }

  lemma SettledQuiet(l: Layout, at: int, settled: seq<Event>, idled: seq<Event>, p: Event -> bool)
    requires OnlyStatus(l, p) && No(p, settled)
    ensures OnlyStatus(Settled(l, at, settled, idled), p)
  {
    var r := Settled(l, at, settled, idled);
    forall i ensures No(p, At(r.settled, i)) {
      assert No(p, At(l.settled, i));
    }
  }

  lemma WokeQuiet(l: Layout, t: ThreadId, pair: seq<Event>, p: Event -> bool)
    requires OnlyStatus(l, p)
    ensures OnlyStatus(Woke(l, t, pair), p)
  {
  }

  lemma DeliverQuiet(l: Layout, at: int, row: Event, p: Event -> bool)
    requires OnlyStatus(l, p) && !p(row)
    ensures OnlyStatus(Delivered(l, at, row), p)
  {
  }

  lemma PlanQuiet(l: Layout, t: ThreadId, consumed: set<Id>, steps: seq<AnswerStep>, p: Event -> bool)
    requires OnlyStatus(l, p) && forall j :: 0 <= j < |steps| ==> No(p, steps[j].denials)
    ensures OnlyStatus(Planned(l, t, consumed, steps), p)
  {
    hide No;
  }

  lemma EndsQuiet(l: Layout, a: Arm, p: Event -> bool)
    requires OnlyStatus(l, p) && ArmQuiet(a, p) && a.act.Ends?
    ensures OnlyStatus(RunArm(l, a), p)
  {
    hide OnlyStatus, No, Woke, Delivered, Settled, Planned;
    var out := a.act.out;
    var l1 := Settled(l, a.at, out.settled, out.idled);
    SettledQuiet(l, a.at, out.settled, out.idled, p);
    if out.told.Some? {
      var d := out.told.value;
      WokeQuiet(l1, d.received.thread, d.wake, p);
      DeliverQuiet(Woke(l1, d.received.thread, d.wake), a.at, d.received, p);
    }
    WokeQuiet(Told(l1, a.at, out.told), PRIMARY, out.resume, p);
    PlanQuiet(Interrupted(l, a.at, out), a.thread, a.act.consumed, a.act.steps, p);
  }

  lemma StepQuiet(l: Layout, a: Arm, p: Event -> bool)
    requires OnlyStatus(l, p) && ArmQuiet(a, p)
    ensures OnlyStatus(RunArm(l, a), p)
  {
    match a.act {
      case Ends(_, _, _) => EndsQuiet(l, a, p);
      case Resumes(pair) =>
        if a.thread in l.plan.steps { DenialsQuiet(l.plan.steps[a.thread], p); }
      case _ =>
    }
  }

  lemma {:induction false} RunQuiet(l: Layout, arms: seq<Arm>, p: Event -> bool)
    requires OnlyStatus(l, p) && forall i :: 0 <= i < |arms| ==> ArmQuiet(arms[i], p)
    ensures OnlyStatus(RunAll(l, arms), p)
    decreases |arms|
  {
    if arms != [] {
      RunQuiet(l, arms[..|arms| - 1], p);
      hide OnlyStatus, ArmQuiet, RunArm;
      StepQuiet(RunAll(l, arms[..|arms| - 1]), arms[|arms| - 1], p);
    }
  }

  /**
   The arm order and the layout agree: among the rows p picks, none of them
   posted, settled, denied, delivered, or (per trace) of the other status, the
   log lists idle and re-park rows in the order their arms ran, and then running
   rows in the order their arms ran.
   */
  lemma ArmsAgree(l: Layout, arms: seq<Arm>, p: Event -> bool)
    requires Valid(l) && Fresh(l) && ValidArms(l, arms)
    requires OnlyStatus(l, p) && forall i :: 0 <= i < |arms| ==> ArmQuiet(arms[i], p)
    ensures Valid(RunAll(l, arms))
    ensures Keep(Order(RunAll(l, arms)), p) == Keep(IdleTrace(arms), p) + Keep(RunningTrace(arms), p)
  {
    RunFollows(l, arms);
    RunQuiet(l, arms, p);
    IdleRun(l, arms);
    RunningRun(l, arms);
    var r := RunAll(l, arms);
    assert r.posted == l.posted;
    KeepOrder(r, p);
  }
}
