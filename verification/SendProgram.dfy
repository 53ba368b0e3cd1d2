/** The send layout as the program keeps it: maps and slices appended to, and laid out by loops. */
module SendProgram {
  import opened Rows
  import opened Options
  import opened EventModel
  import opened SendLayout
  import opened InputOrder
  import opened LayoutConservation
  import opened LayoutUpdates

  lemma NoThreads(wakes: seq<ThreadWake>)
    ensures Threads(wakes[..0]) == {}
  {
  }

  // A posted answer per slot: `step` in the program.
  ghost predicate StepsPlaced(l: Layout, step: map<int, AnswerStep>, done: set<ThreadId>)
    requires Valid(l)
  {
    forall i :: (i in step <==> 0 <= i < |l.posted| && IsSlot(l, i) && l.posted[i].thread in done)
             && (i in step ==> step[i] == StepFor(l, i))
  }

  class Send {
    const posted: seq<Event>
    var settled: map<int, seq<Event>>
    var idled: map<int, seq<Event>>
    var parked: map<int, seq<Event>>
    var wakes: seq<ThreadWake>
    var delivered: seq<DeliveredRow>
    var plan: AnswerPlan
    // Every row handed to the layout so far.
    ghost var journal: multiset<Event>

    ghost function View(): Layout
      reads this
    {
      Layout(posted, settled, idled, parked, wakes, delivered, plan)
    }

    ghost predicate ValidSend()
      reads this
    {
      Valid(View()) && forall x :: journal[x] == Written(View(), x)
    }

    // newSendLayout, with the plan NewAnswerPlan starts: every posted answer pending.
    constructor (posted: seq<Event>)
      requires DistinctIds(posted)
      ensures ValidSend() && this.posted == posted && journal == multiset{}
      ensures View() == Layout(posted, map[], map[], map[], [], [],
                               AnswerPlan(set ev | ev in posted && IsAnswer(ev.kind) :: ev.id, map[]))
    {
      this.posted := posted;
      settled, idled, parked, wakes, delivered := map[], map[], map[], [], [];
      plan := AnswerPlan(set ev | ev in posted && IsAnswer(ev.kind) :: ev.id, map[]);
      journal := multiset{};
      new;
      forall x ensures Written(View(), x) == 0 { NothingAround(View(), |posted|, x); }
      FreshValid(posted, plan);
    }

    // The walk of one thread recorded in the plan (AnswerPlan.Settle, AnswerPlan.Interrupted).
    method Plan(t: ThreadId, consumed: set<Id>, steps: seq<AnswerStep>)
      requires ValidSend() && ValidWalk(View(), t, consumed, steps)
      modifies this
      ensures ValidSend() && View() == Planned(old(View()), t, consumed, steps)
      ensures journal == old(journal) + multiset(AllDenials(steps))
    {
      ghost var l := View();
      plan := AnswerPlan(plan.pending - consumed,
                         if steps == [] then plan.steps else plan.steps[t := steps]);
      journal := journal + multiset(AllDenials(steps));
      PlannedValid(l, t, consumed, steps);
      forall x ensures journal[x] == Written(View(), x) { PlannedWritten(l, t, consumed, steps, x); }
    }

    method Woke(t: ThreadId, pair: seq<Event>)
      requires ValidSend()
      modifies this
      ensures ValidSend() && View() == LayoutUpdates.Woke(old(View()), t, pair)
      ensures journal == old(journal) + multiset(pair)
    {
      ghost var l := View();
      if |pair| > 0 {
        wakes := wakes + [ThreadWake(t, pair, [])];
      }
      journal := journal + multiset(pair);
      WokeValid(l, t, pair);
      forall x ensures journal[x] == Written(View(), x) { WokeWritten(l, t, pair, x); }
    }

    method Settle(at: int, before: seq<Event>, behind: seq<Event>)
      requires ValidSend() && 0 <= at < |posted| && posted[at].kind == Interrupt
      modifies this
      ensures ValidSend() && View() == Settled(old(View()), at, before, behind)
      ensures journal == old(journal) + multiset(before) + multiset(behind)
    {
      ghost var l := View();
      settled := Append(settled, at, before);
      idled := Append(idled, at, behind);
      journal := journal + multiset(before) + multiset(behind);
      SettledValid(l, at, before, behind);
      forall x ensures journal[x] == Written(View(), x) { SettledWritten(l, at, before, behind, x); }
    }

    method Deliver(at: int, row: Event)
      requires ValidSend() && 0 <= at < |posted|
      modifies this
      ensures ValidSend() && View() == Delivered(old(View()), at, row)
      ensures journal == old(journal) + multiset{row}
    {
      ghost var l := View();
      delivered := delivered + [DeliveredRow(at, row)];
      journal := journal + multiset{row};
      DeliveredValid(l, at, row);
      forall x ensures journal[x] == Written(View(), x) { DeliveredWritten(l, at, row, x); }
    }

    method Interrupted(at: int, out: InterruptOut)
      requires ValidSend() && 0 <= at < |posted| && posted[at].kind == Interrupt
      modifies this
      ensures ValidSend() && View() == LayoutUpdates.Interrupted(old(View()), at, out)
      ensures journal == old(journal) + OutBag(out)
    {
      hide ValidSend, Append;
      Settle(at, out.settled, out.idled);
      match out.told {
        case None =>
        case Some(told) =>
          Woke(told.received.thread, told.wake);
          Deliver(at, told.received);
      }
      Woke(PRIMARY, out.resume);
    }

    method Reidled(at: int, pair: seq<Event>)
      requires ValidSend() && (at == |posted| || (0 <= at < |posted| && IsSlot(View(), at)))
      modifies this
      ensures ValidSend() && View() == LayoutUpdates.Reidled(old(View()), at, pair)
      ensures journal == old(journal) + multiset(pair)
    {
      ghost var l := View();
      parked := Append(parked, at, pair);
      journal := journal + multiset(pair);
      ReidledValid(l, at, pair);
      forall x ensures journal[x] == Written(View(), x) { ReidledWritten(l, at, pair, x); }
    }

    method Resumed(t: ThreadId, pair: seq<Event>)
      requires ValidSend()
      modifies this
      ensures ValidSend() && View() == LayoutUpdates.Resumed(old(View()), t, pair)
      ensures journal == old(journal) + multiset(pair)
    {
      ghost var l := View();
      var consumed: seq<Event> := [];
      if t == PRIMARY && t in plan.steps {
        var kept;
        consumed, kept := TakeDenials(plan.steps[t]);
        plan := plan.(steps := plan.steps[t := kept]);
      }
      wakes := wakes + [ThreadWake(t, pair, consumed)];
      journal := journal + multiset(pair);
      assert View() == LayoutUpdates.Resumed(l, t, pair);
      ResumedValid(l, t, pair);
      forall x ensures journal[x] == Written(View(), x) { ResumedWritten(l, t, pair, x); }
    }

    // Where the settlement of t's answers is processed: at the last place its
    // walk fills, or behind everything consumed on receipt when it fills none.
    method SettledAt(t: ThreadId) returns (last: int)
      requires ValidSend()
      ensures var slots := Slots(View(), t, |posted|);
        last == if slots == [] then |posted| else slots[|slots| - 1]
    {
      var steps := Steps(plan, t);
      ghost var l := View();
      SortedTargets(l, t);
      if |steps| == 0 {
        return |posted|;
      }
      last := LastAnswer(set st | st in steps :: st.answer, t);
    }

    method LastAnswer(answers: set<Id>, ghost t: ThreadId) returns (last: int)
      requires Valid(View()) && answers == set st | st in Steps(plan, t) :: st.answer
      ensures var slots := Slots(View(), t, |posted|); last == if slots == [] then 0 else slots[|slots| - 1]
    {
      hide Valid, IsSlot;
      ghost var l := View();
      last := 0;
      for i := 0 to |posted|
        invariant var slots := Slots(l, t, i); last == if slots == [] then 0 else slots[|slots| - 1]
      {
        AnswersAreSlots(l, t, i, answers);
        if posted[i].id in answers {
          last := i;
        }
      }
    }

    method PostedAt() returns (at: map<Id, int>)
      ensures forall ev :: ev in posted ==> ev.id in at && at[ev.id] == PostAt(posted, ev.id)
    {
      at := map[];
      for i := 0 to |posted|
        invariant forall id :: id in at ==> at[id] == PostAt(posted[..i], id)
        invariant forall k :: 0 <= k < i ==> posted[k].id in at
      {
        assert posted[..i + 1][..i] == posted[..i];
        at := at[posted[i].id := i];
      }
      assert posted[..|posted|] == posted;
    }

    // The threads come back in any order; each fills its own slots.
    method PlaceSteps(at: map<Id, int>) returns (step: map<int, AnswerStep>)
      requires ValidSend()
      requires forall ev :: ev in posted ==> ev.id in at && at[ev.id] == PostAt(posted, ev.id)
      ensures StepsPlaced(View(), step, plan.steps.Keys)
    {
      ghost var l := View();
      step := map[];
      var rest := plan.steps.Keys;
      ghost var done: set<ThreadId> := {};
      while rest != {}
        invariant rest <= plan.steps.Keys && done == plan.steps.Keys - rest
        invariant StepsPlaced(l, step, done)
      {
        var t :| t in rest;
        step := PlaceThread(at, t, step, done);
        rest, done := rest - {t}, done + {t};
      }
    }

    method PlaceThread(at: map<Id, int>, t: ThreadId, before: map<int, AnswerStep>, ghost done: set<ThreadId>)
      returns (step: map<int, AnswerStep>)
      requires ValidSend() && t in plan.steps && t !in done
      requires forall ev :: ev in posted ==> ev.id in at && at[ev.id] == PostAt(posted, ev.id)
      requires StepsPlaced(View(), before, done)
      ensures StepsPlaced(View(), step, done + {t})
    {
      ghost var l := View();
      var steps := plan.steps[t];
      var slots := ReceivedAt(at, t);
      slots := SortInts(slots);
      SortedTargets(l, t);
      step := Fill(before, slots, steps) by {
        forall j: nat | j < |steps| ensures slots[j] !in before { SlotOf(l, t, j); }
      }
      ThreadPlaced(l, t, before, step, done);
    }

    method ReceivedAt(at: map<Id, int>, t: ThreadId) returns (slots: seq<int>)
      requires Valid(View()) && t in plan.steps
      requires forall ev :: ev in posted ==> ev.id in at && at[ev.id] == PostAt(posted, ev.id)
      ensures slots == Targets(View(), t)
    {
      ghost var l := View();
      var steps := plan.steps[t];
      slots := [];
      for j := 0 to |steps|
        invariant slots == Targets(l, t)[..j]
      {
        assert ValidStep(posted, plan.pending, t, steps[j]);
        assert posted[PostAt(posted, steps[j].answer)] in posted;
        slots := slots + [at[steps[j].answer]];
      }
    }

    // What is consumed on receipt, and the input the posted events leave.
    method Receive(at: map<Id, int>, step: map<int, AnswerStep>) returns (out: seq<Event>, inputs: seq<Input>)
      requires ValidSend()
      requires forall ev :: ev in posted ==> ev.id in at && at[ev.id] == PostAt(posted, ev.id)
      requires StepsPlaced(View(), step, plan.steps.Keys)
      ensures out == Receipt(View(), |posted|)
      ensures inputs == PostedInputs(View(), |posted|)
    {
      ghost var l := View();
      assert Valid(l);
      out, inputs := [], [];
      hide Valid, ValidSend, StepsPlaced, ReceiptAt, PostedInput, PostAt;
      for i := 0 to |posted|
        invariant out == Receipt(l, i)
        invariant inputs == PostedInputs(l, i)
      {
        var rows, left := ReceiveOne(at, step, i);
        out, inputs := out + rows, inputs + left;
      }
    }

    method ReceiveOne(at: map<Id, int>, step: map<int, AnswerStep>, i: nat)
      returns (rows: seq<Event>, left: seq<Input>)
      requires ValidSend() && i < |posted|
      requires forall ev :: ev in posted ==> ev.id in at && at[ev.id] == PostAt(posted, ev.id)
      requires StepsPlaced(View(), step, plan.steps.Keys)
      ensures rows == ReceiptAt(View(), i) && left == PostedInput(View(), i)
    {
      ghost var l := View();
      var ev := posted[i];
      rows, left := [], [];
      if ev.id in plan.pending {
        left := [Input(i, PRIMARY, ev, true)];
      } else if IsAnswer(ev.kind) {
        assert IsSlot(l, i) ==> ev.thread in plan.steps.Keys;
        if i in step {
          var st := step[i];
          assert posted[PostAt(posted, st.answer)] in posted;
          rows := [posted[at[st.answer]]] + st.denials + At(parked, i);
        } else {
          rows := [ev];
        }
      } else if ev.kind == Interrupt {
        rows := At(settled, i) + [ev] + At(idled, i);
      } else {
        left := [Input(i, ev.thread, ev, false)];
      }
    }

    method AddDelivered(inputs: seq<Input>) returns (all: seq<Input>)
      ensures all == inputs + DeliveredInputs(delivered)
    {
      all := inputs;
      for k := 0 to |delivered|
        invariant all == inputs + DeliveredInputs(delivered[..k])
      {
        assert delivered[..k + 1][..k] == delivered[..k];
        var d := delivered[k];
        all := all + [Input(d.cause, d.row.thread, d.row, false)];
      }
      assert delivered[..|delivered|] == delivered;
    }

    // One wake: its pair, what it consumes of the send's own rows, then its thread's unplaced input.
    method PlaceInputs(ins: seq<Input>, placed: seq<bool>, t: ThreadId, ghost ts: set<ThreadId>)
      returns (rows: seq<Event>, now: seq<bool>)
      requires |placed| == |ins|
      requires forall j :: 0 <= j < |ins| ==> (placed[j] <==> !ins[j].queued && ins[j].thread in ts)
      ensures |now| == |ins|
      ensures forall j :: 0 <= j < |ins| ==> (now[j] <==> !ins[j].queued && ins[j].thread in ts + {t})
      ensures rows == if t in ts then [] else For(ins, {t})
    {
      rows, now := [], placed;
      for j := 0 to |ins|
        invariant |now| == |ins|
        invariant forall i :: 0 <= i < j ==> (now[i] <==> !ins[i].queued && ins[i].thread in ts + {t})
        invariant forall i :: j <= i < |ins| ==> now[i] == placed[i]
        invariant rows == if t in ts then [] else For(ins[..j], {t})
      {
        assert ins[..j + 1][..j] == ins[..j];
        if !now[j] && !ins[j].queued && ins[j].thread == t {
          rows, now := rows + [ins[j].ev], now[j := true];
        }
      }
      assert ins[..|ins|] == ins;
    }

    method PlaceWakes(ins: seq<Input>) returns (rows: seq<Event>, placed: seq<bool>)
      ensures rows == Woken(ins, wakes, |wakes|)
      ensures |placed| == |ins|
      ensures forall j :: 0 <= j < |ins| ==> (placed[j] <==> !ins[j].queued && ins[j].thread in Threads(wakes))
    {
      hide For, Threads;
      NoThreads(wakes);
      rows, placed := [], seq(|ins|, _ => false);
      for k := 0 to |wakes|
        invariant rows == Woken(ins, wakes, k)
        invariant |placed| == |ins|
        invariant forall j :: 0 <= j < |ins| ==> (placed[j] <==> !ins[j].queued && ins[j].thread in Threads(wakes[..k]))
      {
        var w := wakes[k];
        var taken;
        taken, placed := PlaceInputs(ins, placed, w.thread, Threads(wakes[..k]));
        rows := rows + w.pair + w.consumed + taken;
        ThreadsOneMore(wakes, k);
      }
      assert wakes[..|wakes|] == wakes;
    }

    method Leftover(ins: seq<Input>, placed: seq<bool>, ghost ts: set<ThreadId>) returns (rows: seq<Event>)
      requires |placed| == |ins|
      requires forall j :: 0 <= j < |ins| ==> (placed[j] <==> !ins[j].queued && ins[j].thread in ts)
      ensures rows == NotFor(ins, ts)
    {
      rows := [];
      for j := 0 to |ins|
        invariant rows == NotFor(ins[..j], ts)
      {
        assert ins[..j + 1][..j] == ins[..j];
        if !placed[j] {
          rows := rows + [ins[j].ev];
        }
      }
      assert ins[..|ins|] == ins;
    }

    /** processingOrder: the reference order, which loses and doubles nothing it was handed. */
    method ProcessingOrder() returns (out: seq<Event>)
      requires ValidSend()
      ensures out == Order(View())
      ensures multiset(out) == multiset(posted) + journal
    {
      var at := PostedAt();
      var step := PlaceSteps(at);
      var inputs;
      out, inputs := Receive(at, step);
      out := out + At(parked, |posted|);
      inputs := AddDelivered(inputs);
      inputs := SortByCause(inputs);
      SortedInputs(View());
      var woken, placed := PlaceWakes(inputs);
      var tail := Leftover(inputs, placed, Threads(wakes));
      out := out + woken + tail;
      Conserved(View(), out, journal);
    }
  }

  // Each step into its slot.
  method Fill(before: map<int, AnswerStep>, slots: seq<int>, steps: seq<AnswerStep>) returns (step: map<int, AnswerStep>)
    requires |slots| == |steps| && Ascending(slots)
    requires forall j :: 0 <= j < |slots| ==> slots[j] !in before
    ensures forall i :: i in step <==> i in before || i in slots
    ensures forall i :: i in before ==> i in step && step[i] == before[i]
    ensures forall k :: 0 <= k < |slots| ==> slots[k] in step && step[slots[k]] == steps[k]
  {
    step := before;
    for j := 0 to |steps|
      invariant forall i :: i in step <==> i in before || i in slots[..j]
      invariant forall i :: i in before ==> i in step && step[i] == before[i]
      invariant forall k :: 0 <= k < j ==> slots[k] in step && step[slots[k]] == steps[k]
    {
      step := step[slots[j] := steps[j]];
      assert slots[..j + 1] == slots[..j] + [slots[j]];
    }
    assert slots[..|steps|] == slots;
  }

  // The denials of a walk, and its steps without them.
  method TakeDenials(steps: seq<AnswerStep>) returns (consumed: seq<Event>, kept: seq<AnswerStep>)
    ensures consumed == AllDenials(steps) && kept == Stripped(steps)
  {
    consumed, kept := [], [];
    for i := 0 to |steps|
      invariant consumed == AllDenials(steps[..i])
      invariant kept == Stripped(steps)[..i]
    {
      assert steps[..i + 1][..i] == steps[..i];
      consumed, kept := consumed + steps[i].denials, kept + [steps[i].(denials := [])];
    }
    assert steps[..|steps|] == steps;
  }

  // ---------------------------------------------------------------- lemmas of the program

  ghost function OutBag(out: InterruptOut): multiset<Event> {
    multiset(out.settled) + multiset(out.idled) + multiset(out.resume)
    + (match out.told
       case None => multiset{}
       case Some(d) => multiset(d.wake) + multiset{d.received})
  }

  lemma {:induction false} NothingAround(l: Layout, k: nat, x: Event)
    requires k <= |l.posted| && l.settled == map[] && l.idled == map[] && l.parked == map[] && l.plan.steps == map[]
    ensures AroundUpTo(l, k, x) == 0
    decreases k
  {
    if k > 0 { NothingAround(l, k - 1, x); }
  }

  lemma FreshValid(posted: seq<Event>, plan: AnswerPlan)
    requires DistinctIds(posted) && plan.steps == map[]
    requires plan.pending == set ev | ev in posted && IsAnswer(ev.kind) :: ev.id
    ensures ValidPlan(posted, plan)
  {
  }

  lemma AnswersAreSlots(l: Layout, t: ThreadId, i: nat, answers: set<Id>)
    requires Valid(l) && i < |l.posted|
    requires answers == set st | st in Steps(l.plan, t) :: st.answer
    ensures l.posted[i].id in answers <==> l.posted[i].thread == t && IsSlot(l, i)
  {
  }

  // The j-th slot of a thread takes its j-th step.
  lemma SlotOf(l: Layout, t: ThreadId, j: nat)
    requires Valid(l) && j < |Steps(l.plan, t)|
    ensures |Slots(l, t, |l.posted|)| == |Steps(l.plan, t)|
    ensures var i := Slots(l, t, |l.posted|)[j];
      0 <= i < |l.posted| && l.posted[i].thread == t && IsSlot(l, i) && StepFor(l, i) == Steps(l.plan, t)[j]
  {
    SortedTargets(l, t);
    SlotsMembers(l, t, |l.posted|);
    var slots := Slots(l, t, |l.posted|);
    var i := slots[j];
    assert i in slots;
    RankOf(l, i);
    var r := |Slots(l, t, i)|;
    assert slots[r] == slots[j];
    assert r == j;
  }

  lemma ThreadPlaced(l: Layout, t: ThreadId, before: map<int, AnswerStep>, step: map<int, AnswerStep>, done: set<ThreadId>)
    requires Valid(l) && t in l.plan.steps && t !in done
    requires StepsPlaced(l, before, done)
    requires |Slots(l, t, |l.posted|)| == |Steps(l.plan, t)|
    requires forall i :: i in step <==> i in before || i in Slots(l, t, |l.posted|)
    requires forall i :: i in before ==> i in step && step[i] == before[i]
    requires forall k :: 0 <= k < |Steps(l.plan, t)| ==>
               Slots(l, t, |l.posted|)[k] in step && step[Slots(l, t, |l.posted|)[k]] == Steps(l.plan, t)[k]
    ensures StepsPlaced(l, step, done + {t})
  {
    var slots := Slots(l, t, |l.posted|);
    SlotsMembers(l, t, |l.posted|);
    forall i
      ensures (i in step <==> 0 <= i < |l.posted| && IsSlot(l, i) && l.posted[i].thread in done + {t})
           && (i in step ==> step[i] == StepFor(l, i))
    {
      if i in slots {
        var k :| 0 <= k < |slots| && slots[k] == i;
        SlotOf(l, t, k);
      }
    }
  }

  lemma Conserved(l: Layout, out: seq<Event>, journal: multiset<Event>)
    requires Valid(l) && out == Order(l)
    requires forall x :: journal[x] == Written(l, x)
    ensures multiset(out) == multiset(l.posted) + journal
  {
    hide Order, Written, Valid;
    forall x ensures multiset(out)[x] == multiset(l.posted)[x] + journal[x] { OrderConserves(l, x); }
  }
}
