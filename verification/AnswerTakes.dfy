/**
 What the plan's walk takes, call by call: which posted answers become steps, in
 what order, and on which step each denial's result is written
 (internal/events/orderedtools.go:226-240, 320-385).
 */
module AnswerTakes {
  import opened Options
  import opened EventModel
  import opened AnswerWalk

  // ---------------------------------------------------------------- the calls reached

  // The walk is handed a call with its result, or an ask gate with its confirmation,
  // and goes on only past one a result or a denial resolves.
  predicate Handed(c: Call) {
    c.result.Some? || (c.asks && c.confirmation.Some?)
  }

  predicate Refused(c: Call) {
    c.result.None? && c.confirmation.Some? && c.confirmation.value.denies
  }

  predicate PassedBy(c: Call) {
    c.result.Some? || Refused(c)
  }

  ghost predicate Reached(calls: seq<Call>, i: int) {
    && 0 <= i < |calls|
    && (forall j :: 0 <= j <= i ==> Handed(calls[j]))
    && (forall j :: 0 <= j < i ==> PassedBy(calls[j]))
  }

  function Reach(calls: seq<Call>): (n: nat)
    ensures n <= |calls|
  {
    if calls == [] || !Ready(calls[0]) then 0 else 1 + (if Resolves(calls[0]) then Reach(calls[1..]) else 0)
  }

  lemma {:induction false} ReachIs(calls: seq<Call>, i: int)
    ensures Reached(calls, i) <==> 0 <= i < Reach(calls)
    decreases |calls|
  {
    if calls != [] {
      var rest := calls[1..];
      ReachIs(rest, i - 1);
      if i > 0 {
        assert calls[0] == calls[0] && forall j :: 0 <= j < |rest| ==> rest[j] == calls[j + 1];
        if Reached(rest, i - 1) && Handed(calls[0]) && PassedBy(calls[0]) { OneFurther(calls, i); }
        if Reached(calls, i) { OneNearer(calls, i); }
      }
    }
  }

  lemma OneFurther(calls: seq<Call>, i: int)
    requires i > 0 && calls != [] && Reached(calls[1..], i - 1) && Handed(calls[0]) && PassedBy(calls[0])
    ensures Reached(calls, i)
  {
    forall j | 0 <= j <= i ensures Handed(calls[j]) { if j > 0 { assert calls[j] == calls[1..][j - 1]; } }
    forall j | 0 <= j < i ensures PassedBy(calls[j]) { if j > 0 { assert calls[j] == calls[1..][j - 1]; } }
  }

  lemma OneNearer(calls: seq<Call>, i: int)
    requires i > 0 && Reached(calls, i)
    ensures Reached(calls[1..], i - 1) && Handed(calls[0]) && PassedBy(calls[0])
  {
    var rest := calls[1..];
    forall j | 0 <= j <= i - 1 ensures Handed(rest[j]) { assert rest[j] == calls[j + 1]; }
    forall j | 0 <= j < i - 1 ensures PassedBy(rest[j]) { assert rest[j] == calls[j + 1]; }
  }

  // ---------------------------------------------------------------- what a call has received

  // The first of the posted answers to this call that is a result, or a confirmation.
  ghost predicate FirstResult(posted: seq<Answer>, call: Id, k: int) {
    0 <= k < |posted| && posted[k].Result? && posted[k].call == call
    && forall j :: 0 <= j < k ==> !(posted[j].Result? && posted[j].call == call)
  }

  ghost predicate FirstConfirm(posted: seq<Answer>, call: Id, k: int) {
    0 <= k < |posted| && posted[k].Confirm? && posted[k].call == call
    && forall j :: 0 <= j < k ==> !(posted[j].Confirm? && posted[j].call == call)
  }

  lemma FirstStays(short: seq<Answer>, last: Answer, call: Id, k: int)
    requires 0 <= k < |short|
    ensures FirstResult(short + [last], call, k) <==> FirstResult(short, call, k)
    ensures FirstConfirm(short + [last], call, k) <==> FirstConfirm(short, call, k)
  {
    assert (short + [last])[k] == short[k];
    assert forall j :: 0 <= j < k ==> (short + [last])[j] == short[j];
  }

  ghost predicate HasResult(c: Call, posted: seq<Answer>, id: Id) {
    if c.result.Some? then c.result.value == id else exists k :: FirstResult(posted, c.id, k) && posted[k].id == id
  }

  ghost predicate HasConfirm(c: Call, posted: seq<Answer>, conf: Confirmation) {
    if c.confirmation.Some? then c.confirmation.value == conf
    else exists k :: FirstConfirm(posted, c.id, k) && conf == Confirmation(posted[k].id, posted[k].denies)
  }

  // No result, and no confirmation, among the posted answers to this call.
  ghost predicate NoResult(posted: seq<Answer>, call: Id) {
    forall j :: 0 <= j < |posted| ==> !(posted[j].Result? && posted[j].call == call)
  }

  ghost predicate NoConfirm(posted: seq<Answer>, call: Id) {
    forall j :: 0 <= j < |posted| ==> !(posted[j].Confirm? && posted[j].call == call)
  }

  /**
   The plan reads a call with the answers it had, or else the first posted
   result and the first posted confirmation that name it, and nothing else of
   the call moves.
   */
  lemma {:induction false} ReceivedAre(c: Call, posted: seq<Answer>)
    ensures var r := ReceiveAll(c, posted);
      && r.(result := c.result, confirmation := c.confirmation) == c
      && (r.result.None? <==> c.result.None? && NoResult(posted, c.id))
      && (r.confirmation.None? <==> c.confirmation.None? && NoConfirm(posted, c.id))
      && (r.result.Some? ==> HasResult(c, posted, r.result.value))
      && (r.confirmation.Some? ==> HasConfirm(c, posted, r.confirmation.value))
    decreases |posted|
  {
    hide FirstResult, FirstConfirm, NoResult, NoConfirm;
    if posted == [] {
      NonePosted(c.id);
    } else {
      var short, last := posted[..|posted| - 1], posted[|posted| - 1];
      var was := ReceiveAll(c, short);
      assert posted == short + [last];
      ReceivedAre(c, short);
      forall k | 0 <= k < |short| ensures FirstResult(posted, c.id, k) <==> FirstResult(short, c.id, k) { FirstStays(short, last, c.id, k); }
      forall k | 0 <= k < |short| ensures FirstConfirm(posted, c.id, k) <==> FirstConfirm(short, c.id, k) { FirstStays(short, last, c.id, k); }
      FirstIn(short, c.id);
      LastFirst(short, last, c.id);
      NoneNext(short, last, c.id);
    }
  }

  lemma NonePosted(call: Id)
    ensures NoResult([], call) && NoConfirm([], call)
  {
  }

  lemma NoneNext(short: seq<Answer>, last: Answer, call: Id)
    ensures NoResult(short + [last], call) <==> NoResult(short, call) && !(last.Result? && last.call == call)
    ensures NoConfirm(short + [last], call) <==> NoConfirm(short, call) && !(last.Confirm? && last.call == call)
  {
    var all := short + [last];
    assert all[|short|] == last && forall j :: 0 <= j < |short| ==> all[j] == short[j];
  }

  lemma FirstIn(posted: seq<Answer>, call: Id)
    ensures forall k :: FirstResult(posted, call, k) ==> 0 <= k < |posted|
    ensures forall k :: FirstConfirm(posted, call, k) ==> 0 <= k < |posted|
  {
  }

  lemma LastFirst(short: seq<Answer>, last: Answer, call: Id)
    ensures NoResult(short, call) && last.Result? && last.call == call ==> FirstResult(short + [last], call, |short|)
    ensures NoConfirm(short, call) && last.Confirm? && last.call == call ==> FirstConfirm(short + [last], call, |short|)
  {
  }

  // ---------------------------------------------------------------- the walk, a call at a time

  // What is still pending, and the steps made, once k calls have been walked.
  function PendingAt(calls: seq<Call>, k: nat, pending: set<Id>): set<Id>
    requires k <= |calls|
  {
    if k == 0 then pending else Left(calls[k - 1], PendingAt(calls, k - 1, pending))
  }

  function StepsTo(calls: seq<Call>, k: nat, pending: set<Id>, denial: Id -> Event): seq<AnswerStep>
    requires k <= |calls|
  {
    if k == 0 then []
    else Written(calls[k - 1], PendingAt(calls, k - 1, pending), StepsTo(calls, k - 1, pending, denial), denial)
  }

  function Copies(n: nat, k: nat): (r: seq<nat>)
    ensures |r| == n && forall i :: 0 <= i < n ==> r[i] == k
  {
    seq(n, _ => k)
  }

  // The call each step was taken for.
  function CallsOf(calls: seq<Call>, k: nat, pending: set<Id>): seq<nat>
    requires k <= |calls|
  {
    if k == 0 then []
    else CallsOf(calls, k - 1, pending) + Copies(|Taken(calls[k - 1], PendingAt(calls, k - 1, pending))|, k - 1)
  }

  lemma {:induction false} WalkFrom(calls: seq<Call>, k: nat, pending: set<Id>, denial: Id -> Event)
    requires k <= Reach(calls)
    ensures k == 0 || Resolves(calls[k - 1]) ==>
      && PlanSteps(calls, pending, [], denial) == PlanSteps(calls[k..], PendingAt(calls, k, pending), StepsTo(calls, k, pending, denial), denial)
      && Reach(calls) == k + Reach(calls[k..])
    ensures k > 0 && !Resolves(calls[k - 1]) ==> PlanSteps(calls, pending, [], denial) == StepsTo(calls, k, pending, denial) && Reach(calls) == k
    decreases k
  {
    hide Written, Left, Ready, Resolves;
    if k == 0 {
      assert calls[0..] == calls;
    } else {
      WalkFrom(calls, k - 1, pending, denial);
      var rest := calls[k - 1..];
      assert Reach(calls) >= k;
      assert k == 1 || Resolves(calls[k - 2]);
      assert rest[0] == calls[k - 1] && rest[1..] == calls[k..];
    }
  }

  lemma StepsAre(calls: seq<Call>, pending: set<Id>, denial: Id -> Event)
    ensures PlanSteps(calls, pending, [], denial) == StepsTo(calls, Reach(calls), pending, denial)
  {
    hide StepsTo;
    WalkFrom(calls, Reach(calls), pending, denial);
  }

  // ---------------------------------------------------------------- which answers, in which order

  lemma NamesNext(calls: seq<Call>, k: nat, pending: set<Id>, denial: Id -> Event)
    requires k < |calls|
    ensures Names(StepsTo(calls, k + 1, pending, denial))
         == Names(StepsTo(calls, k, pending, denial)) + Taken(calls[k], PendingAt(calls, k, pending))
  {
    hide Written, Names;
    WrittenNames(calls[k], PendingAt(calls, k, pending), StepsTo(calls, k, pending, denial), denial);
  }

  // A call takes what it reads of the pending answers.
  lemma TakenIs(c: Call, pending: set<Id>, id: Id)
    ensures id in Taken(c, pending) <==> id in pending && ReadBy(c, id)
    ensures id in Left(c, pending) <==> id in pending && !ReadBy(c, id)
  {
  }

  // Its confirmation ahead of its result.
  lemma TakenOrder(c: Call, pending: set<Id>)
    requires |Taken(c, pending)| == 2
    ensures c.confirmation.Some? && Taken(c, pending)[0] == c.confirmation.value.id && c.result == Some(Taken(c, pending)[1])
  {
  }

  lemma {:induction false} NamesAre(calls: seq<Call>, k: nat, pending: set<Id>, denial: Id -> Event, id: Id)
    requires k <= |calls|
    ensures id in Names(StepsTo(calls, k, pending, denial)) <==> id in pending && exists i :: 0 <= i < k && ReadBy(calls[i], id)
    ensures id in PendingAt(calls, k, pending) <==> id in pending && forall i :: 0 <= i < k ==> !ReadBy(calls[i], id)
    decreases k
  {
    hide Written, Taken, ReadBy, Left;
    if k > 0 {
      NamesAre(calls, k - 1, pending, denial, id);
      NamesNext(calls, k - 1, pending, denial);
      TakenIs(calls[k - 1], PendingAt(calls, k - 1, pending), id);
    }
  }

  // Each step is a call's, the calls in order, a call's two steps its confirmation and its result.
  ghost predicate InCallOrder(calls: seq<Call>, names: seq<Id>, of: seq<nat>, k: nat)
    requires k <= |calls|
  {
    && |of| == |names|
    && (forall j :: 0 <= j < |of| ==> of[j] < k && ReadBy(calls[of[j]], names[j]))
    && (forall i, j :: 0 <= i < j < |of| ==> of[i] <= of[j])
    && (forall i, j :: 0 <= i < j < |of| && of[i] == of[j] ==>
          calls[of[i]].confirmation.Some? && names[i] == calls[of[i]].confirmation.value.id && calls[of[i]].result == Some(names[j]))
  }

  lemma OrderNext(calls: seq<Call>, names: seq<Id>, of: seq<nat>, k: nat, pending: set<Id>)
    requires k < |calls| && InCallOrder(calls, names, of, k)
    ensures var took := Taken(calls[k], pending);
      InCallOrder(calls, names + took, of + Copies(|took|, k), k + 1)
  {
    hide Taken, ReadBy;
    var took := Taken(calls[k], pending);
    var names', of' := names + took, of + Copies(|took|, k);
    forall j | 0 <= j < |of'| ensures of'[j] < k + 1 && ReadBy(calls[of'[j]], names'[j]) {
      if j >= |of| {
        assert names'[j] == took[j - |of|];
        TakenIs(calls[k], pending, names'[j]);
      }
    }
    if |took| == 2 { TakenOrder(calls[k], pending); }
  }

  lemma {:induction false} CallsInOrder(calls: seq<Call>, k: nat, pending: set<Id>, denial: Id -> Event)
    requires k <= |calls|
    ensures InCallOrder(calls, Names(StepsTo(calls, k, pending, denial)), CallsOf(calls, k, pending), k)
    decreases k
  {
    hide InCallOrder, StepsTo, Taken, Names;
    if k == 0 {
      NoCalls(calls, pending, denial);
    } else {
      CallsInOrder(calls, k - 1, pending, denial);
      NamesNext(calls, k - 1, pending, denial);
      OrderNext(calls, Names(StepsTo(calls, k - 1, pending, denial)), CallsOf(calls, k - 1, pending), k - 1, PendingAt(calls, k - 1, pending));
    }
  }

  lemma NoCalls(calls: seq<Call>, pending: set<Id>, denial: Id -> Event)
    ensures InCallOrder(calls, Names(StepsTo(calls, 0, pending, denial)), CallsOf(calls, 0, pending), 0)
  {
  }

  // Some call the walk reaches reads the answer.
  ghost predicate ReadOnTheWay(calls: seq<Call>, id: Id) {
    exists i :: 0 <= i < |calls| && Reached(calls, i) && ReadBy(calls[i], id)
  }

  lemma OnTheWayIs(calls: seq<Call>, id: Id)
    ensures ReadOnTheWay(calls, id) <==> exists i :: 0 <= i < Reach(calls) && ReadBy(calls[i], id)
  {
    hide Reached, ReadBy, Reach;
    forall i ensures Reached(calls, i) <==> 0 <= i < Reach(calls) { ReachIs(calls, i); }
  }

  /**
   The plan's steps name exactly the pending answers some call the walk reaches
   reads, in the calls' order, a call's confirmation ahead of its result.
   */
  lemma PlanTakes(calls: seq<Call>, pending: set<Id>, denial: Id -> Event) returns (of: seq<nat>)
    ensures var names := Names(PlanSteps(calls, pending, [], denial));
      && (forall id :: id in names <==> id in pending && ReadOnTheWay(calls, id))
      && InCallOrder(calls, names, of, |calls|)
      && forall j :: 0 <= j < |of| ==> Reached(calls, of[j])
    ensures of == CallsOf(calls, Reach(calls), pending)
  {
    hide Names, StepsTo, PlanSteps, ReadBy, Reached, Reach, ReadOnTheWay;
    var n := Reach(calls);
    StepsAre(calls, pending, denial);
    CallsInOrder(calls, n, pending, denial);
    of := CallsOf(calls, n, pending);
    forall i ensures Reached(calls, i) <==> 0 <= i < n { ReachIs(calls, i); }
    forall id ensures id in Names(PlanSteps(calls, pending, [], denial)) <==> id in pending && ReadOnTheWay(calls, id) {
      NamesAre(calls, n, pending, denial, id);
      OnTheWayIs(calls, id);
    }
  }

  // ---------------------------------------------------------------- where the denials go

  // The results of the calls from lo up to hi that a denial resolves.
  function RefusedRows(calls: seq<Call>, lo: nat, hi: nat, denial: Id -> Event): seq<Event>
    requires hi <= |calls|
  {
    if hi <= lo then []
    else RefusedRows(calls, lo, hi - 1, denial) + (if Refused(calls[hi - 1]) then [denial(calls[hi - 1].id)] else [])
  }

  // Where the next step's call is, or the walk's end.
  function Until(of: seq<nat>, j: nat, k: nat): nat {
    if j + 1 < |of| then of[j + 1] else k
  }

  // Each step carries the denials the walk reaches from its own call on, up to the next step's.
  ghost predicate DenialsStand(calls: seq<Call>, steps: seq<AnswerStep>, of: seq<nat>, k: nat, denial: Id -> Event)
    requires k <= |calls|
  {
    && |of| == |steps| && (forall j :: 0 <= j < |of| ==> of[j] < k)
    && forall j: nat :: j < |steps| ==> Until(of, j, k) <= |calls| && steps[j].denials == RefusedRows(calls, of[j], Until(of, j, k), denial)
  }

  lemma NoneRefused(calls: seq<Call>, lo: nat, hi: nat, denial: Id -> Event)
    requires hi <= lo && hi <= |calls|
    ensures RefusedRows(calls, lo, hi, denial) == []
  {
  }

  lemma RefusedNext(calls: seq<Call>, lo: nat, k: nat, denial: Id -> Event)
    requires lo <= k < |calls|
    ensures RefusedRows(calls, lo, k + 1, denial)
         == RefusedRows(calls, lo, k, denial) + (if Refused(calls[k]) then [denial(calls[k].id)] else [])
  {
  }

  // The steps one call leaves: those taken, the last of them with the call's denial if it has one.
  lemma WrittenIs(c: Call, pending: set<Id>, steps: seq<AnswerStep>, denial: Id -> Event)
    ensures var taken := steps + AsSteps(Taken(c, pending)); var w := Written(c, pending, steps, denial);
      && |w| == |taken|
      && (forall j :: 0 <= j < |w| - 1 ==> w[j] == taken[j])
      && (w != [] ==> w[|w| - 1].denials == taken[|w| - 1].denials + (if Refused(c) then [denial(c.id)] else []))
  {
    hide Taken;
  }

  lemma DenialAt(calls: seq<Call>, steps: seq<AnswerStep>, of: seq<nat>, k: nat, pending: set<Id>, denial: Id -> Event, j: nat)
    requires k < |calls| && DenialsStand(calls, steps, of, k, denial)
    requires j < |steps| + |Taken(calls[k], pending)|
    ensures var took := Taken(calls[k], pending); var of' := of + Copies(|took|, k);
      && |Written(calls[k], pending, steps, denial)| == |of'|
      && Written(calls[k], pending, steps, denial)[j].denials
         == RefusedRows(calls, of'[j], Until(of', j, k + 1), denial)
  {
    hide Taken, Written, RefusedRows;
    var took := Taken(calls[k], pending);
    var of', taken := of + Copies(|took|, k), steps + AsSteps(took);
    WrittenIs(calls[k], pending, steps, denial);
    NoneRefused(calls, k, k, denial);
    RefusedNext(calls, of'[j], k, denial);
    var w := Written(calls[k], pending, steps, denial);
    if j < |steps| {
      assert taken[j] == steps[j];
      assert steps[j].denials == RefusedRows(calls, of[j], Until(of, j, k), denial);
    } else {
      assert taken[j] == AnswerStep(took[j - |steps|], []);
      assert of'[j] == k;
    }
    if j + 1 < |w| {
      assert w[j] == taken[j];
      assert of'[j + 1] == if j + 1 < |of| then of[j + 1] else k;
    } else {
      assert w[j].denials == taken[j].denials + (if Refused(calls[k]) then [denial(calls[k].id)] else []);
    }
  }

  lemma DenialNext(calls: seq<Call>, steps: seq<AnswerStep>, of: seq<nat>, k: nat, pending: set<Id>, denial: Id -> Event)
    requires k < |calls| && DenialsStand(calls, steps, of, k, denial)
    ensures var took := Taken(calls[k], pending);
      DenialsStand(calls, Written(calls[k], pending, steps, denial), of + Copies(|took|, k), k + 1, denial)
  {
    hide Taken, Written, RefusedRows;
    var took := Taken(calls[k], pending);
    var of', w := of + Copies(|took|, k), Written(calls[k], pending, steps, denial);
    WrittenIs(calls[k], pending, steps, denial);
    assert |w| == |of'| && forall j :: 0 <= j < |of'| ==> of'[j] < k + 1;
    forall j: nat | j < |w| ensures Until(of', j, k + 1) <= |calls| && w[j].denials == RefusedRows(calls, of'[j], Until(of', j, k + 1), denial) {
      DenialAt(calls, steps, of, k, pending, denial, j);
    }
  }

  lemma {:induction false} DenialsTo(calls: seq<Call>, k: nat, pending: set<Id>, denial: Id -> Event)
    requires k <= |calls|
    ensures DenialsStand(calls, StepsTo(calls, k, pending, denial), CallsOf(calls, k, pending), k, denial)
    decreases k
  {
    hide DenialsStand, Written, Taken;
    if k == 0 {
      NoDenials(calls, pending, denial);
    } else {
      DenialsTo(calls, k - 1, pending, denial);
      DenialNext(calls, StepsTo(calls, k - 1, pending, denial), CallsOf(calls, k - 1, pending), k - 1, PendingAt(calls, k - 1, pending), denial);
    }
  }

  lemma NoDenials(calls: seq<Call>, pending: set<Id>, denial: Id -> Event)
    ensures DenialsStand(calls, StepsTo(calls, 0, pending, denial), CallsOf(calls, 0, pending), 0, denial)
  {
  }

  // A denial's result is written by the send once the walk has taken a posted answer.
  ghost predicate DeniedBySend(calls: seq<Call>, pending: set<Id>, k: nat, id: Id) {
    exists i :: k <= i < Reach(calls) && calls[i].id == id && Refused(calls[i]) && CallsOf(calls, i + 1, pending) != []
  }

  lemma {:induction false} DeniedIs(calls: seq<Call>, k: nat, pending: set<Id>, id: Id)
    requires k <= Reach(calls) && (k == 0 || Resolves(calls[k - 1])) && Reach(calls) == k + Reach(calls[k..])
    ensures id in Denied(calls[k..], PendingAt(calls, k, pending), CallsOf(calls, k, pending) != []) <==> DeniedBySend(calls, pending, k, id)
    decreases |calls| - k
  {
    hide Taken, PendingAt, DeniedBySend;
    var rest := calls[k..];
    if rest == [] || !Ready(rest[0]) {
      DeniedLast(calls, k, pending, id);
    }
    if rest != [] && Ready(rest[0]) {
      var c := calls[k];
      assert rest[0] == c && rest[1..] == calls[k + 1..];
      PendingNext(calls, k, pending);
      DeniedFirst(calls, k, pending, id);
      if Resolves(c) { DeniedIs(calls, k + 1, pending, id); } else { DeniedLast(calls, k + 1, pending, id); }
    }
  }

  lemma DeniedLast(calls: seq<Call>, k: nat, pending: set<Id>, id: Id)
    requires k >= Reach(calls)
    ensures !DeniedBySend(calls, pending, k, id)
  {
  }

  lemma DeniedFirst(calls: seq<Call>, k: nat, pending: set<Id>, id: Id)
    requires k < Reach(calls)
    ensures DeniedBySend(calls, pending, k, id) <==>
      DeniedBySend(calls, pending, k + 1, id) || (calls[k].id == id && Refused(calls[k]) && CallsOf(calls, k + 1, pending) != [])
  {
    hide Reach, CallsOf, Refused;
  }

  lemma PendingNext(calls: seq<Call>, k: nat, pending: set<Id>)
    requires k < |calls|
    ensures PendingAt(calls, k + 1, pending) == PendingAt(calls, k, pending) - (set id | id in Taken(calls[k], PendingAt(calls, k, pending)))
  {
  }

  /**
   A denial's result stands on the last step named up to its call, ahead of the
   next one's: exactly the calls the walk reaches at or behind its first posted
   answer and that a denial resolves, in call order.
   */
  lemma DenialsPlaced(calls: seq<Call>, pending: set<Id>, denial: Id -> Event) returns (of: seq<nat>)
    ensures of == CallsOf(calls, Reach(calls), pending)
    ensures DenialsStand(calls, PlanSteps(calls, pending, [], denial), of, Reach(calls), denial)
    ensures forall id :: id in Denied(calls, pending, false) <==> DeniedBySend(calls, pending, 0, id)
  {
    hide StepsTo, PlanSteps, DenialsStand, DeniedBySend;
    of := CallsOf(calls, Reach(calls), pending);
    StepsAre(calls, pending, denial);
    DenialsTo(calls, Reach(calls), pending, denial);
    assert calls[0..] == calls;
    forall id ensures id in Denied(calls, pending, false) <==> DeniedBySend(calls, pending, 0, id) { DeniedIs(calls, 0, pending, id); }
  }

  // ---------------------------------------------------------------- where the walk leaves the thread

  /** A call the walk reaches is confirmed by its confirmation and resolved by a result or a denial; behind them nothing moves. */
  lemma {:induction false} MarksAre(calls: seq<Call>, i: nat)
    requires i < |calls|
    ensures |PlanMarks(calls)| == |SettleMarks(calls)| == |calls|
    ensures PlanMarks(calls)[i] == if i < Reach(calls)
      then calls[i].(confirmed := calls[i].confirmation.Some?, resolved := PassedBy(calls[i])) else calls[i]
    ensures SettleMarks(calls)[i] == if i >= Reach(calls) then calls[i]
      else if calls[i].result.Some? then calls[i].(resolved := true) else calls[i].(confirmed := true, resolved := Refused(calls[i]))
    decreases |calls|
  {
    if Ready(calls[0]) && Resolves(calls[0]) && |calls| > 1 {
      MarksAre(calls[1..], if i > 0 then i - 1 else 0);
    }
  }

  // An unresolved call the thread waits on from outside: a worker's or a custom tool's result, or a human's word.
  predicate Held(c: Call) {
    !c.resolved && (c.external || (c.asks && !c.confirmed))
  }

  // The first unresolved call is the platform's to run.
  ghost predicate RunsNext(calls: seq<Call>) {
    exists i :: 0 <= i < |calls| && !calls[i].resolved && !Held(calls[i]) && calls[i].result.None? && forall j :: 0 <= j < i ==> calls[j].resolved
  }

  function HeldIds(calls: seq<Call>): seq<Id> {
    if calls == [] then [] else HeldIds(calls[..|calls| - 1]) + (if Held(calls[|calls| - 1]) then [calls[|calls| - 1].id] else [])
  }

  lemma {:induction false} HeldFirst(c: Call, rest: seq<Call>)
    ensures HeldIds([c] + rest) == (if Held(c) then [c.id] else []) + HeldIds(rest)
    decreases |rest|
  {
    if rest == [] {
      assert [c] + rest == [c] && [c][..0] == [];
      assert HeldIds([]) == [];
    } else {
      HeldFirst(c, rest[..|rest| - 1]);
      assert ([c] + rest)[..|rest|] == [c] + rest[..|rest| - 1];
    }
  }

  /** The flow: the held calls in order, whether any is unresolved, and whether the first of those is the platform's. */
  lemma {:induction false} FlowIs(calls: seq<Call>)
    ensures Summarize(calls).pending == HeldIds(calls)
    ensures Summarize(calls).unsettled <==> exists i :: 0 <= i < |calls| && !calls[i].resolved
    ensures Summarize(calls).runnable <==> RunsNext(calls)
    decreases |calls|
  {
    if calls != [] {
      var c, rest := calls[0], calls[1..];
      FlowIs(rest);
      assert calls == [c] + rest;
      HeldFirst(c, rest);
      if c.resolved { LaterRuns(calls); }
      if j :| 0 <= j < |rest| && !rest[j].resolved { assert !calls[j + 1].resolved; }
      if j :| 0 <= j < |calls| && !calls[j].resolved && j > 0 { assert !rest[j - 1].resolved; }
    }
  }

  lemma LaterRuns(calls: seq<Call>)
    requires calls != [] && calls[0].resolved
    ensures RunsNext(calls) <==> RunsNext(calls[1..])
  {
    var rest := calls[1..];
    if RunsNext(calls) {
      var i :| 0 <= i < |calls| && !calls[i].resolved && !Held(calls[i]) && calls[i].result.None? && forall j :: 0 <= j < i ==> calls[j].resolved;
      assert rest[i - 1] == calls[i];
    }
    if RunsNext(rest) {
      var i :| 0 <= i < |rest| && !rest[i].resolved && !Held(rest[i]) && rest[i].result.None? && forall j :: 0 <= j < i ==> rest[j].resolved;
      assert calls[i + 1] == rest[i];
      forall j | 0 <= j < i + 1 ensures calls[j].resolved { if j > 0 { assert calls[j] == rest[j - 1]; } }
    }
  }
}
