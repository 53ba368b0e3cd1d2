/**
 A send plans what its settlement will do with the posted answers before they
 are appended, and the settlement then does exactly that
 (internal/events/orderedtools.go: AnswerPlan.walk, AdvanceThreadTools, summarizeTools).
 */
module AnswerWalk {
  import opened Options
  import opened EventModel
  import opened SendLayout
  import opened LayoutUpdates

  datatype Confirmation = Confirmation(id: Id, denies: bool)

  // A thread's unprocessed tool call, with the answers it has received.
  // asks: it waits on a human. external: its result comes from outside the platform.
  datatype Call = Call(
    id: Id, asks: bool, external: bool,
    result: Option<Id>, confirmation: Option<Confirmation>,
    confirmed: bool, resolved: bool)

  datatype Answer = Result(id: Id, call: Id) | Confirm(id: Id, call: Id, denies: bool)

  // Where a thread's calls leave it: what it waits on, whether any call is
  // unsettled, and whether the first unsettled one is the platform's to run.
  datatype Flow = Flow(pending: seq<Id>, unsettled: bool, runnable: bool)

  predicate Waits(c: Call) {
    c.external || (c.asks && !c.confirmed)
  }

  // summarizeTools
  function Summarize(calls: seq<Call>): Flow {
    if calls == [] then Flow([], false, false)
    else
      var c, rest := calls[0], Summarize(calls[1..]);
      if c.resolved then rest
      else Flow((if Waits(c) then [c.id] else []) + rest.pending, true, !Waits(c) && c.result.None?)
  }

  // ---------------------------------------------------------------- walks

  // walkReady stops at the first call with neither its result nor, ask-gated, its confirmation.
  predicate Ready(c: Call) {
    c.result.Some? || (c.asks && c.confirmation.Some?)
  }

  // A result or a denial resolves a call; an allow only releases it.
  predicate Resolves(c: Call) {
    c.result.Some? || (c.confirmation.Some? && c.confirmation.value.denies)
  }

  function PlanMark(c: Call): Call {
    c.(confirmed := c.confirmation.Some?, resolved := Resolves(c))
  }

  // The calls as the plan's walk leaves them.
  function PlanMarks(calls: seq<Call>): seq<Call> {
    if calls == [] || !Ready(calls[0]) then calls
    else [PlanMark(calls[0])] + (if Resolves(calls[0]) then PlanMarks(calls[1..]) else calls[1..])
  }

  function SettleMark(c: Call): Call {
    if c.result.Some? then c.(resolved := true) else c.(confirmed := true, resolved := Resolves(c))
  }

  // The calls as the settlement's walk leaves them (AdvanceThreadTools).
  function SettleMarks(calls: seq<Call>): seq<Call> {
    if calls == [] || !Ready(calls[0]) then calls
    else [SettleMark(calls[0])] + (if Resolves(calls[0]) then SettleMarks(calls[1..]) else calls[1..])
  }

  // The posted answers a call consumes, in the order the walk takes them.
  function Taken(c: Call, pending: set<Id>): (s: seq<Id>)
    ensures |s| <= 2 && forall id :: id in s ==> id in pending
  {
    var first := if c.confirmation.Some? && c.confirmation.value.id in pending then [c.confirmation.value.id] else [];
    var left := pending - (set id | id in first);
    first + (if c.result.Some? && c.result.value in left then [c.result.value] else [])
  }

  // A denial the walk reaches at or after a posted answer: the send writes its result itself.
  predicate DeniedHere(c: Call, any: bool) {
    any && Resolves(c) && c.result.None?
  }

  function Denied(calls: seq<Call>, pending: set<Id>, any: bool): set<Id> {
    if calls == [] || !Ready(calls[0]) then {}
    else
      var c := calls[0];
      var took := Taken(c, pending);
      var any' := any || took != [];
      (if DeniedHere(c, any') then {c.id} else {})
      + (if Resolves(c) then Denied(calls[1..], pending - (set id | id in took), any') else {})
  }

  // One denial result per denied call; its row is a function of the call.
  function Extend(steps: seq<AnswerStep>, row: Event): seq<AnswerStep>
    requires steps != []
  {
    var last := steps[|steps| - 1];
    steps[|steps| - 1 := last.(denials := last.denials + [row])]
  }

  function AsSteps(ids: seq<Id>): (r: seq<AnswerStep>)
    ensures |r| == |ids| && forall j :: 0 <= j < |r| ==> r[j] == AnswerStep(ids[j], [])
  {
    seq(|ids|, j requires 0 <= j < |ids| => AnswerStep(ids[j], []))
  }

  // The steps one call leaves behind it.
  function Written(c: Call, pending: set<Id>, steps: seq<AnswerStep>, denial: Id -> Event): seq<AnswerStep> {
    var taken := steps + AsSteps(Taken(c, pending));
    if DeniedHere(c, taken != []) then Extend(taken, denial(c.id)) else taken
  }

  function Left(c: Call, pending: set<Id>): set<Id> {
    pending - (set id | id in Taken(c, pending))
  }

  function PlanSteps(calls: seq<Call>, pending: set<Id>, steps: seq<AnswerStep>, denial: Id -> Event): seq<AnswerStep>
    decreases |calls|
  {
    if calls == [] || !Ready(calls[0]) then steps
    else
      var next := Written(calls[0], pending, steps, denial);
      if Resolves(calls[0]) then PlanSteps(calls[1..], Left(calls[0], pending), next, denial) else next
  }

  // ---------------------------------------------------------------- the log

  // A call on the log; settled: its result is processed, so no later walk reads it.
  datatype Logged = Logged(call: Call, settled: bool)

  // threadCalls
  function ThreadCalls(log: seq<Logged>): seq<Call> {
    if log == [] then []
    else (if log[0].settled then [] else [log[0].call]) + ThreadCalls(log[1..])
  }

  // An answer received for a call that has none of its kind yet.
  function Receive(c: Call, a: Answer): Call {
    if a.call != c.id then c
    else match a
      case Result(id, _) => if c.result.None? then c.(result := Some(id)) else c
      case Confirm(id, _, denies) =>
        if c.confirmation.None? then c.(confirmation := Some(Confirmation(id, denies))) else c
  }

  function ReceiveAll(c: Call, posted: seq<Answer>): Call {
    if posted == [] then c else Receive(ReceiveAll(c, posted[..|posted| - 1]), posted[|posted| - 1])
  }

  function Merge(calls: seq<Call>, posted: seq<Answer>): seq<Call> {
    if calls == [] then [] else [ReceiveAll(calls[0], posted)] + Merge(calls[1..], posted)
  }

  // The log behind the append: the posted answers received, and the denial
  // results the send wrote, processed as they are inserted.
  function Appended(log: seq<Logged>, posted: seq<Answer>, denied: set<Id>): seq<Logged> {
    if log == [] then []
    else
      var c := ReceiveAll(log[0].call, posted);
      [Logged(c, log[0].settled || c.id in denied)] + Appended(log[1..], posted, denied)
  }

  ghost predicate DistinctCalls(calls: seq<Call>) {
    forall i, j :: 0 <= i < j < |calls| ==> calls[i].id != calls[j].id
  }

  function Without(calls: seq<Call>, ids: set<Id>): seq<Call> {
    if calls == [] then []
    else (if calls[0].id in ids then [] else [calls[0]]) + Without(calls[1..], ids)
  }

  lemma {:induction false} ReceiveKeepsId(c: Call, posted: seq<Answer>)
    ensures ReceiveAll(c, posted).id == c.id
    decreases |posted|
  {
    if posted != [] { ReceiveKeepsId(c, posted[..|posted| - 1]); }
  }

  lemma {:induction false} AppendedCalls(log: seq<Logged>, posted: seq<Answer>, denied: set<Id>)
    ensures ThreadCalls(Appended(log, posted, denied)) == Without(Merge(ThreadCalls(log), posted), denied)
    decreases |log|
  {
    if log != [] {
      AppendedCalls(log[1..], posted, denied);
      var c := ReceiveAll(log[0].call, posted);
      var head, tail := Logged(c, log[0].settled || c.id in denied), Appended(log[1..], posted, denied);
      assert ([head] + tail)[1..] == tail;
      var calls := ThreadCalls(log[1..]);
      if log[0].settled {
        assert ThreadCalls(log) == calls;
        assert ThreadCalls([head] + tail) == ThreadCalls(tail);
      } else {
        assert ThreadCalls(log)[1..] == calls;
        assert ([c] + Merge(calls, posted))[1..] == Merge(calls, posted);
      }
    }
  }

  // ---------------------------------------------------------------- the two walks agree

  lemma {:induction false} WithoutNone(calls: seq<Call>, ids: set<Id>)
    requires forall i :: 0 <= i < |calls| ==> calls[i].id !in ids
    ensures Without(calls, ids) == calls
    decreases |calls|
  {
    if calls != [] { WithoutNone(calls[1..], ids); }
  }

  lemma {:induction false} WithoutOthers(calls: seq<Call>, ids: set<Id>, id: Id)
    requires forall i :: 0 <= i < |calls| ==> calls[i].id != id
    ensures Without(calls, ids + {id}) == Without(calls, ids)
    decreases |calls|
  {
    if calls != [] { WithoutOthers(calls[1..], ids, id); }
  }

  // The denied are among the calls.
  lemma {:induction false} DeniedAmong(calls: seq<Call>, pending: set<Id>, any: bool, id: Id)
    requires id in Denied(calls, pending, any)
    ensures exists i :: 0 <= i < |calls| && calls[i].id == id
    decreases |calls|
  {
    var c := calls[0];
    var took := Taken(c, pending);
    if id != c.id {
      var rest := pending - (set x | x in took);
      DeniedAmong(calls[1..], rest, any || took != [], id);
      var i :| 0 <= i < |calls[1..]| && calls[1..][i].id == id;
      assert calls[i + 1].id == id;
    } else {
      assert calls[0].id == id;
    }
  }

  lemma SummarizeCons(c: Call, rest: seq<Call>)
    ensures Summarize([c] + rest)
         == if c.resolved then Summarize(rest)
            else Flow((if Waits(c) then [c.id] else []) + Summarize(rest).pending, true, !Waits(c) && c.result.None?)
  {
  }

  /** The settlement, which no longer sees the denied calls, leaves the thread where the plan said. */
  lemma {:induction false} WalksAgree(calls: seq<Call>, pending: set<Id>, any: bool)
    requires DistinctCalls(calls)
    ensures Summarize(SettleMarks(Without(calls, Denied(calls, pending, any)))) == Summarize(PlanMarks(calls))
    decreases |calls|
  {
    if calls == [] || !Ready(calls[0]) {
      WithoutNone(calls, {});
    } else if Resolves(calls[0]) {
      ResolvedAgree(calls, pending, any);
    } else {
      WithoutNone(calls, {});
      assert Denied(calls, pending, any) == {};
      SummarizeCons(PlanMark(calls[0]), calls[1..]);
      SummarizeCons(SettleMark(calls[0]), calls[1..]);
    }
  }

  lemma {:induction false} ResolvedAgree(calls: seq<Call>, pending: set<Id>, any: bool)
    requires DistinctCalls(calls) && calls != [] && Ready(calls[0]) && Resolves(calls[0])
    ensures Summarize(SettleMarks(Without(calls, Denied(calls, pending, any)))) == Summarize(PlanMarks(calls))
    decreases |calls|, 0
  {
    hide Taken, Waits;
    var c, rest := calls[0], calls[1..];
    var took := Taken(c, pending);
    var left, any' := pending - (set id | id in took), any || took != [];
    var d := Denied(rest, left, any');
    WalksAgree(rest, left, any');
    SummarizeCons(PlanMark(c), PlanMarks(rest));
    if DeniedHere(c, any') {
      WithoutOthers(rest, d, c.id);
      assert Denied(calls, pending, any) == d + {c.id};
      assert Without(calls, d + {c.id}) == Without(rest, d);
    } else {
      assert Denied(calls, pending, any) == {} + d == d;
      assert forall i :: 0 <= i < |rest| ==> rest[i].id == calls[i + 1].id;
      assert c.id !in d by {
        if c.id in d { DeniedAmong(rest, left, any', c.id); }
      }
      var kept := Without(rest, d);
      assert Without(calls, d) == [c] + kept;
      assert ([c] + kept)[1..] == kept;
      SummarizeCons(SettleMark(c), SettleMarks(kept));
    }
  }

  lemma {:induction false} MergeAt(calls: seq<Call>, posted: seq<Answer>)
    ensures |Merge(calls, posted)| == |calls|
    ensures forall i :: 0 <= i < |calls| ==> Merge(calls, posted)[i].id == calls[i].id
    decreases |calls|
  {
    if calls != [] {
      MergeAt(calls[1..], posted);
      ReceiveKeepsId(calls[0], posted);
    }
  }

  /**
   The flow a send moves its thread by is the flow the settlement of the same
   commit reads off the log, so the send's check of one against the other never
   refuses (internal/api/events.go:634).
   */
  lemma PlanMatchesSettlement(log: seq<Logged>, posted: seq<Answer>, pending: set<Id>)
    requires DistinctCalls(ThreadCalls(log))
    ensures
      var calls := Merge(ThreadCalls(log), posted);
      var behind := Appended(log, posted, Denied(calls, pending, false));
      Summarize(SettleMarks(ThreadCalls(behind))) == Summarize(PlanMarks(calls))
  {
    var calls := Merge(ThreadCalls(log), posted);
    MergeAt(ThreadCalls(log), posted);
    AppendedCalls(log, posted, Denied(calls, pending, false));
    WalksAgree(calls, pending, false);
  }

  // ---------------------------------------------------------------- the plan is valid

  // The ids a walk's steps name, in order.
  function Names(steps: seq<AnswerStep>): (r: seq<Id>)
    ensures |r| == |steps| && forall j :: 0 <= j < |r| ==> r[j] == steps[j].answer
  {
    seq(|steps|, j requires 0 <= j < |steps| => steps[j].answer)
  }

  ghost predicate Once(ids: seq<Id>) {
    forall i, j :: 0 <= i < j < |ids| ==> ids[i] != ids[j]
  }

  lemma TakenOnce(c: Call, pending: set<Id>)
    ensures Once(Taken(c, pending))
  {
  }

  ghost predicate Fresh(steps: seq<AnswerStep>, pending: set<Id>) {
    Once(Names(steps)) && forall j :: 0 <= j < |steps| ==> steps[j].answer !in pending
  }

  lemma WrittenAt(c: Call, pending: set<Id>, steps: seq<AnswerStep>, denial: Id -> Event, j: nat)
    requires j < |steps| + |Taken(c, pending)|
    ensures |Written(c, pending, steps, denial)| == |steps| + |Taken(c, pending)|
    ensures Written(c, pending, steps, denial)[j].answer
         == if j < |steps| then steps[j].answer else Taken(c, pending)[j - |steps|]
  {
  }

  lemma WrittenNames(c: Call, pending: set<Id>, steps: seq<AnswerStep>, denial: Id -> Event)
    ensures Names(Written(c, pending, steps, denial)) == Names(steps) + Taken(c, pending)
  {
    var took := Taken(c, pending);
    var w := Written(c, pending, steps, denial);
    if |steps| + |took| > 0 { WrittenAt(c, pending, steps, denial, 0); }
    forall j | 0 <= j < |steps| + |took| ensures Names(w)[j] == (Names(steps) + took)[j] {
      WrittenAt(c, pending, steps, denial, j);
    }
  }

  lemma WrittenFresh(c: Call, pending: set<Id>, steps: seq<AnswerStep>, denial: Id -> Event)
    requires Fresh(steps, pending)
    ensures Fresh(Written(c, pending, steps, denial), Left(c, pending))
  {
    hide Written;
    hide Taken;
    var took, w := Taken(c, pending), Written(c, pending, steps, denial);
    TakenOnce(c, pending);
    WrittenNames(c, pending, steps, denial);
    var names := Names(w);
    forall j | 0 <= j < |names|
      ensures names[j] !in Left(c, pending)
      ensures if j < |steps| then names[j] == steps[j].answer && names[j] !in pending else names[j] in took && names[j] in pending
    {
    }
    assert Once(names);
  }

  // What each step names: an answer the walk could take, or one named before.
  ghost predicate Sourced(calls: seq<Call>, pending: set<Id>, before: seq<AnswerStep>, id: Id) {
    FromWalk(calls, pending, id) || id in Names(before)
  }

  lemma TakenFromWalk(calls: seq<Call>, pending: set<Id>, id: Id)
    requires calls != [] && id in Taken(calls[0], pending)
    ensures FromWalk(calls, pending, id)
  {
    assert ReadBy(calls[0], id);
  }

  lemma SourcedStep(calls: seq<Call>, pending: set<Id>, steps: seq<AnswerStep>, denial: Id -> Event, id: Id)
    requires calls != []
    requires Sourced(calls[1..], Left(calls[0], pending), Written(calls[0], pending, steps, denial), id)
          || id in Names(Written(calls[0], pending, steps, denial))
    ensures Sourced(calls, pending, steps, id)
  {
    hide Written;
    hide Taken;
    hide Reads;
    WrittenNames(calls[0], pending, steps, denial);
    if FromWalk(calls[1..], Left(calls[0], pending), id) {
      ReadsMore(calls, id);
    } else if id in Taken(calls[0], pending) {
      TakenFromWalk(calls, pending, id);
    }
  }

  lemma {:induction false} StepsDistinct(calls: seq<Call>, pending: set<Id>, steps: seq<AnswerStep>, denial: Id -> Event)
    requires Fresh(steps, pending)
    ensures Once(Names(PlanSteps(calls, pending, steps, denial)))
    ensures forall id :: id in Names(PlanSteps(calls, pending, steps, denial)) ==> Sourced(calls, pending, steps, id)
    decreases |calls|
  {
    hide Sourced;
    hide Written;
    hide Once;
    if calls != [] && Ready(calls[0]) {
      WrittenFresh(calls[0], pending, steps, denial);
      var next := Written(calls[0], pending, steps, denial);
      if Resolves(calls[0]) {
        StepsDistinct(calls[1..], Left(calls[0], pending), next, denial);
      }
      forall id | id in Names(PlanSteps(calls, pending, steps, denial)) ensures Sourced(calls, pending, steps, id) {
        SourcedStep(calls, pending, steps, denial, id);
      }
    } else {
      forall id | id in Names(steps) ensures Sourced(calls, pending, steps, id) { NamedBefore(calls, pending, steps, id); }
    }
  }

  lemma NamedBefore(calls: seq<Call>, pending: set<Id>, steps: seq<AnswerStep>, id: Id)
    requires id in Names(steps)
    ensures Sourced(calls, pending, steps, id)
  {
  }

  predicate ReadBy(c: Call, id: Id) {
    c.result == Some(id) || (c.confirmation.Some? && c.confirmation.value.id == id)
  }

  // An answer a walk of these calls could take.
  ghost predicate Reads(calls: seq<Call>, id: Id) {
    exists i :: 0 <= i < |calls| && ReadBy(calls[i], id)
  }

  ghost predicate FromWalk(calls: seq<Call>, pending: set<Id>, id: Id) {
    id in pending && Reads(calls, id)
  }

  lemma ReadsMore(calls: seq<Call>, id: Id)
    requires calls != [] && Reads(calls[1..], id)
    ensures Reads(calls, id)
  {
    var i :| 0 <= i < |calls[1..]| && ReadBy(calls[1..][i], id);
    assert calls[1..][i] == calls[i + 1];
  }

  // A walk of calls answered on their own thread.
  lemma OwnWalkIsValid(l: Layout, t: ThreadId, calls: seq<Call>, denial: Id -> Event)
    requires Valid(l) && t !in l.plan.steps
    requires forall id :: id in l.plan.pending ==> PostAt(l.posted, id) >= 0
    requires forall i :: 0 <= i < |l.posted| && Reads(calls, l.posted[i].id) ==> l.posted[i].thread == t
    ensures
      var steps := PlanSteps(calls, l.plan.pending, [], denial);
      ValidWalk(l, t, set st | st in steps :: st.answer, steps)
  {
    StepsDistinct(calls, l.plan.pending, [], denial);
    var steps := PlanSteps(calls, l.plan.pending, [], denial);
    assert forall i, j :: 0 <= i < j < |steps| ==> Names(steps)[i] != Names(steps)[j];
    forall j | 0 <= j < |steps|
      ensures ValidStep(l.posted, l.plan.pending - (set st | st in steps :: st.answer), t, steps[j])
    {
      assert steps[j] in steps;
      assert Names(steps)[j] in Names(steps);
      assert Sourced(calls, l.plan.pending, [], steps[j].answer);
    }
  }

  // RouteInbound: an answer is written on the thread of the call it names.
  ghost predicate Routed(posted: seq<Event>, answers: seq<Answer>, owner: Id -> ThreadId) {
    forall i, k :: 0 <= i < |posted| && 0 <= k < |answers| && posted[i].id == answers[k].id ==>
      posted[i].thread == owner(answers[k].call)
  }

  // A call reads what it had read, or an answer that names it.
  lemma {:induction false} ReceivedRead(c: Call, answers: seq<Answer>, id: Id)
    requires ReadBy(ReceiveAll(c, answers), id) && !ReadBy(c, id)
    ensures exists k :: 0 <= k < |answers| && answers[k].id == id && answers[k].call == c.id
    decreases |answers|
  {
    var short, last := answers[..|answers| - 1], answers[|answers| - 1];
    ReceiveKeepsId(c, short);
    if ReadBy(ReceiveAll(c, short), id) {
      ReceivedRead(c, short, id);
      var k :| 0 <= k < |short| && short[k].id == id && short[k].call == c.id;
      assert answers[k] == short[k];
    } else {
      assert answers[|answers| - 1].id == id && last.call == c.id;
    }
  }

  lemma {:induction false} MergedAt(calls: seq<Call>, answers: seq<Answer>, i: nat)
    requires i < |calls|
    ensures i < |Merge(calls, answers)| && Merge(calls, answers)[i] == ReceiveAll(calls[i], answers)
    decreases |calls|
  {
    if i > 0 { MergedAt(calls[1..], answers, i - 1); }
  }

  // What a thread's calls read of the posted answers was posted on that thread.
  lemma MergedReads(posted: seq<Event>, calls: seq<Call>, answers: seq<Answer>, owner: Id -> ThreadId, t: ThreadId, i: nat)
    requires i < |posted| && Routed(posted, answers, owner)
    requires forall k :: 0 <= k < |calls| ==> owner(calls[k].id) == t && !ReadBy(calls[k], posted[i].id)
    requires Reads(Merge(calls, answers), posted[i].id)
    ensures posted[i].thread == t
  {
    MergeAt(calls, answers);
    var merged, id := Merge(calls, answers), posted[i].id;
    var k :| 0 <= k < |merged| && ReadBy(merged[k], id);
    MergedAt(calls, answers, k);
    ReceivedRead(calls[k], answers, id);
  }

  /**
   The walk of a thread's calls, the routed answers of the send received, takes
   distinct, posted, until then pending answers of the thread: what the layout
   needs of a plan. Ids are minted at the send, so no call has read one before.
   */
  lemma WalkIsValid(l: Layout, t: ThreadId, calls: seq<Call>, answers: seq<Answer>, owner: Id -> ThreadId, denial: Id -> Event)
    requires Valid(l) && t !in l.plan.steps && Routed(l.posted, answers, owner)
    requires forall id :: id in l.plan.pending ==> PostAt(l.posted, id) >= 0
    requires forall k :: 0 <= k < |calls| ==> owner(calls[k].id) == t
    requires forall k, i :: 0 <= k < |calls| && 0 <= i < |l.posted| ==> !ReadBy(calls[k], l.posted[i].id)
    ensures
      var steps := PlanSteps(Merge(calls, answers), l.plan.pending, [], denial);
      ValidWalk(l, t, set st | st in steps :: st.answer, steps)
  {
    hide Valid, ValidWalk, PlanSteps, Merge, ReadBy, Routed;
    forall i | 0 <= i < |l.posted| && Reads(Merge(calls, answers), l.posted[i].id) ensures l.posted[i].thread == t {
      MergedReads(l.posted, calls, answers, owner, t, i);
    }
    OwnWalkIsValid(l, t, Merge(calls, answers), denial);
  }
}
