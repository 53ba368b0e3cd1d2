/**
 The arms of a send, one per thread, run in the order their effects are
 processed (internal/api/events.go, sendSessionEvents), and the status rows
 they write, which the processing order lists in that same order.
 */
module ArmOrder {
  import opened EventModel
  import opened SendLayout
  import opened LayoutUpdates
  import opened SendProgram

  // ---------------------------------------------------------------- which interrupt an arm answers to

  // A posted interrupt reaches a thread it names, and every thread when it names none.
  predicate Reaches(posted: seq<Event>, scoped: seq<bool>, t: ThreadId, i: nat)
    requires |scoped| == |posted| && i < |posted|
  {
    posted[i].kind == Interrupt && (!scoped[i] || posted[i].thread == t)
  }

  ghost predicate IsFirst(posted: seq<Event>, scoped: seq<bool>, t: ThreadId, i: int)
    requires |scoped| == |posted|
  {
    && (i == -1 || (0 <= i < |posted| && Reaches(posted, scoped, t, i)))
    && (forall k: nat :: k < |posted| && (i == -1 || k < i) ==> !Reaches(posted, scoped, t, k))
  }

  // The first interrupt naming each thread, and the first naming none.
  method FirstInterrupts(posted: seq<Event>, scoped: seq<bool>) returns (named: map<ThreadId, int>, sessionWide: int)
    requires |scoped| == |posted|
    ensures forall t :: t in named ==> 0 <= named[t] < |posted| && posted[named[t]].kind == Interrupt
                                       && scoped[named[t]] && posted[named[t]].thread == t
    ensures forall k :: 0 <= k < |posted| && posted[k].kind == Interrupt && scoped[k] ==>
              posted[k].thread in named && named[posted[k].thread] <= k
    ensures sessionWide == -1 || (0 <= sessionWide < |posted| && posted[sessionWide].kind == Interrupt && !scoped[sessionWide])
    ensures forall k :: 0 <= k < |posted| && posted[k].kind == Interrupt && !scoped[k] ==> 0 <= sessionWide <= k
  {
    named, sessionWide := map[], -1;
    for i := 0 to |posted|
      invariant forall t :: t in named ==> 0 <= named[t] < i && posted[named[t]].kind == Interrupt
                                           && scoped[named[t]] && posted[named[t]].thread == t
      invariant forall k :: 0 <= k < i && posted[k].kind == Interrupt && scoped[k] ==>
                  posted[k].thread in named && named[posted[k].thread] <= k
      invariant sessionWide == -1 || (0 <= sessionWide < i && posted[sessionWide].kind == Interrupt && !scoped[sessionWide])
      invariant forall k :: 0 <= k < i && posted[k].kind == Interrupt && !scoped[k] ==> 0 <= sessionWide <= k
    {
      if posted[i].kind != Interrupt {
      } else if !scoped[i] {
        if sessionWide < 0 { sessionWide := i; }
      } else if posted[i].thread !in named {
        named := named[posted[i].thread := i];
      }
    }
  }

  /** interruptAt: the first received interrupt that reaches the thread, -1 when none does. */
  method InterruptAt(posted: seq<Event>, scoped: seq<bool>, t: ThreadId) returns (i: int)
    requires |scoped| == |posted|
    ensures IsFirst(posted, scoped, t, i)
  {
    var named, sessionWide := FirstInterrupts(posted, scoped);
    if t in named && (sessionWide < 0 || named[t] < sessionWide) {
      i := named[t];
    } else {
      i := sessionWide;
    }
  }

  // ---------------------------------------------------------------- arms

  // What one thread's arm does: end it, resume it, leave it parked, wake it on a message, or nothing.
  datatype Act =
    | Ends(out: InterruptOut, consumed: set<Id>, steps: seq<AnswerStep>)
    | Resumes(pair: seq<Event>)
    | Reparks(pair: seq<Event>)
    | Wakes(pair: seq<Event>)
    | Rests

  // at is the arm's place (armOrder): its interrupt's, its settlement's, -1 for
  // a primary no answer settles, or past every posted event.
  datatype Arm = Arm(thread: ThreadId, at: int, act: Act)

  function SortArms(arms: seq<Arm>): (r: seq<Arm>)
    ensures multiset(r) == multiset(arms)
    ensures InOrder(r)
  {
    if arms == [] then []
    else
      var short, last := SortArms(arms[..|arms| - 1]), arms[|arms| - 1];
      assert arms == arms[..|arms| - 1] + [last];
      InsertKeeps(short, last);
      InsertInOrder(short, last);
      InsertArm(short, last)
  }

  ghost predicate InOrder(arms: seq<Arm>) {
    forall i, j :: 0 <= i < j < |arms| ==> arms[i].at <= arms[j].at
  }

  function InsertArm(s: seq<Arm>, x: Arm): seq<Arm> {
    if s == [] || s[|s| - 1].at <= x.at then s + [x]
    else InsertArm(s[..|s| - 1], x) + [s[|s| - 1]]
  }

  lemma {:induction false} InsertKeeps(s: seq<Arm>, x: Arm)
    ensures multiset(InsertArm(s, x)) == multiset(s) + multiset{x}
    decreases |s|
  {
    if s != [] {
      InsertKeeps(s[..|s| - 1], x);
      assert s == s[..|s| - 1] + [s[|s| - 1]];
    }
  }

  lemma {:induction false} InsertInOrder(s: seq<Arm>, x: Arm)
    requires InOrder(s)
    ensures InOrder(InsertArm(s, x))
    ensures var r := InsertArm(s, x); r != [] && (r[|r| - 1] == x || (s != [] && r[|r| - 1] == s[|s| - 1]))
    decreases |s|
  {
    if s == [] || s[|s| - 1].at <= x.at {
      AppendInOrder(s, x);
    } else {
      var short, last := s[..|s| - 1], s[|s| - 1];
      InsertInOrder(short, x);
      AppendInOrder(InsertArm(short, x), last);
    }
  }

  lemma AppendInOrder(s: seq<Arm>, x: Arm)
    requires InOrder(s) && (s == [] || s[|s| - 1].at <= x.at)
    ensures InOrder(s + [x])
  {
  }

  function RunArm(l: Layout, a: Arm): Layout {
    match a.act
    case Ends(out, consumed, steps) => Planned(Interrupted(l, a.at, out), a.thread, consumed, steps)
    case Resumes(pair) => Resumed(l, a.thread, pair)
    case Reparks(pair) => Reidled(l, a.at, pair)
    case Wakes(pair) => Woke(l, PRIMARY, pair)
    case Rests => l
  }

  function RunAll(l: Layout, arms: seq<Arm>): Layout {
    if arms == [] then l else RunArm(RunAll(l, arms[..|arms| - 1]), arms[|arms| - 1])
  }

  // What the source establishes of each arm before the arms run: the places are
  // its interrupt's and its settlement's, and a walk takes posted answers of its own thread.
  ghost predicate ValidArm(l: Layout, a: Arm) {
    match a.act
    case Ends(_, consumed, steps) =>
      && 0 <= a.at < |l.posted| && l.posted[a.at].kind == Interrupt
      && a.thread !in l.plan.steps
      && (forall j :: 0 <= j < |steps| ==> steps[j].answer in consumed && ValidStep(l.posted, {}, a.thread, steps[j]))
      && (forall i, j :: 0 <= i < j < |steps| ==> steps[i].answer != steps[j].answer)
    case Reparks(_) => a.at == |l.posted| || (0 <= a.at < |l.posted| && IsSlot(l, a.at))
    case _ => true
  }

  ghost predicate ValidArms(l: Layout, arms: seq<Arm>) {
    && InOrder(arms)
    && (forall i :: 0 <= i < |arms| ==> ValidArm(l, arms[i]))
    && (forall i, j :: 0 <= i < j < |arms| ==> arms[i].thread != arms[j].thread)
  }

  // Arms that have run leave later arms valid.
  ghost predicate Follows(l0: Layout, l: Layout, done: seq<Arm>) {
    && Valid(l) && l.posted == l0.posted
    && (forall i :: 0 <= i < |l0.posted| && IsSlot(l0, i) ==> IsSlot(l, i))
    && (forall t :: t in l.plan.steps ==> t in l0.plan.steps || exists k :: 0 <= k < |done| && done[k].thread == t)
  }

  lemma EndsFollows(l0: Layout, l: Layout, done: seq<Arm>, a: Arm)
    requires Follows(l0, l, done) && ValidArm(l0, a) && a.act.Ends?
    requires forall k :: 0 <= k < |done| ==> done[k].thread != a.thread
    ensures ValidWalk(Interrupted(l, a.at, a.act.out), a.thread, a.act.consumed, a.act.steps)
    ensures Follows(l0, RunArm(l, a), done + [a])
  {
    var l1, r := Interrupted(l, a.at, a.act.out), RunArm(l, a);
    InterruptedValid(l, a.at, a.act.out);
    assert l1.plan == l.plan && l1.posted == l.posted;
    forall j | 0 <= j < |a.act.steps|
      ensures ValidStep(l1.posted, l1.plan.pending - a.act.consumed, a.thread, a.act.steps[j])
    {
      assert ValidStep(l0.posted, {}, a.thread, a.act.steps[j]);
    }
    PlannedValid(l1, a.thread, a.act.consumed, a.act.steps);
    assert (done + [a])[|done|] == a;
    forall t | t in r.plan.steps
      ensures t in l0.plan.steps || exists k :: 0 <= k < |done + [a]| && (done + [a])[k].thread == t
    {
      if t in l.plan.steps && t !in l0.plan.steps {
        var k :| 0 <= k < |done| && done[k].thread == t;
        assert (done + [a])[k].thread == t;
      }
    }
    forall i | 0 <= i < |l0.posted| && IsSlot(l0, i) ensures IsSlot(r, i) {
      assert IsSlot(l, i) && l.posted[i].thread in l.plan.steps;
      assert l.posted[i].thread != a.thread || l.posted[i].thread in l0.plan.steps;
    }
  }

  // An arm that ends no thread changes no thread's steps but by taking their denials.
  lemma QuietLayout(l: Layout, a: Arm)
    requires Valid(l) && !a.act.Ends? && (a.act.Reparks? ==> a.at == |l.posted| || (0 <= a.at < |l.posted| && IsSlot(l, a.at)))
    ensures var r := RunArm(l, a);
      && Valid(r) && r.posted == l.posted && r.plan.steps.Keys == l.plan.steps.Keys
      && forall i: nat :: i < |l.posted| ==> IsSlot(r, i) == IsSlot(l, i)
  {
    hide Valid;
    var r := RunArm(l, a);
    match a.act {
      case Resumes(pair) =>
        ResumedValid(l, a.thread, pair);
        forall i: nat | i < |l.posted| ensures IsSlot(r, i) == IsSlot(l, i) { ResumedSlots(l, a.thread, pair, i); }
      case Reparks(pair) => ReidledValid(l, a.at, pair);
      case Wakes(pair) => WokeValid(l, PRIMARY, pair);
      case Rests =>
    }
  }

  lemma QuietFollows(l0: Layout, l: Layout, done: seq<Arm>, a: Arm)
    requires Follows(l0, l, done) && ValidArm(l0, a) && !a.act.Ends?
    ensures a.act.Reparks? ==> a.at == |l.posted| || (0 <= a.at < |l.posted| && IsSlot(l, a.at))
    ensures Follows(l0, RunArm(l, a), done + [a])
  {
    hide Valid, RunArm, IsSlot;
    QuietLayout(l, a);
    var r := RunArm(l, a);
    forall t | t in r.plan.steps
      ensures t in l0.plan.steps || exists k :: 0 <= k < |done + [a]| && (done + [a])[k].thread == t
    {
      assert t in l.plan.steps;
      if t !in l0.plan.steps {
        var k :| 0 <= k < |done| && done[k].thread == t;
        assert (done + [a])[k].thread == t;
      }
    }
  }

  lemma {:induction false} RunFollows(l: Layout, arms: seq<Arm>)
    requires Valid(l) && ValidArms(l, arms)
    ensures Follows(l, RunAll(l, arms), arms)
    decreases |arms|
  {
    if arms != [] {
      var done, a := arms[..|arms| - 1], arms[|arms| - 1];
      assert ValidArms(l, done) && ValidArm(l, a);
      RunFollows(l, done);
      hide Follows, RunArm, ValidArm, Valid;
      StepFollows(l, RunAll(l, done), done, a);
      assert done + [a] == arms;
    }
  }

  lemma StepFollows(l0: Layout, l: Layout, done: seq<Arm>, a: Arm)
    requires Follows(l0, l, done) && ValidArm(l0, a)
    requires forall k :: 0 <= k < |done| ==> done[k].thread != a.thread
    ensures Follows(l0, RunArm(l, a), done + [a])
  {
    if a.act.Ends? { EndsFollows(l0, l, done, a); } else { QuietFollows(l0, l, done, a); }
  }

  // ---------------------------------------------------------------- running the arms

  method RunOne(s: Send, a: Arm, ghost l0: Layout, ghost done: seq<Arm>)
    requires s.ValidSend() && Follows(l0, s.View(), done) && ValidArm(l0, a)
    requires forall k :: 0 <= k < |done| ==> done[k].thread != a.thread
    modifies s
    ensures s.ValidSend() && s.View() == RunArm(old(s.View()), a)
    ensures Follows(l0, s.View(), done + [a])
  {
    ghost var l := s.View();
    StepFollows(l0, l, done, a);
    match a.act {
      case Ends(out, consumed, steps) =>
        EndsFollows(l0, l, done, a);
        s.Interrupted(a.at, out);
        s.Plan(a.thread, consumed, steps);
      case Resumes(pair) =>
        s.Resumed(a.thread, pair);
      case Reparks(pair) =>
        QuietFollows(l0, l, done, a);
        s.Reidled(a.at, pair);
      case Wakes(pair) =>
        s.Woke(PRIMARY, pair);
      case Rests =>
    }
  }

  lemma NoneRun(l: Layout, arms: seq<Arm>)
    requires Valid(l)
    ensures RunAll(l, arms[..0]) == l && Follows(l, l, arms[..0])
  {
  }

  lemma RunNext(l: Layout, arms: seq<Arm>, k: nat)
    requires k < |arms|
    ensures arms[..k + 1] == arms[..k] + [arms[k]] && RunAll(l, arms[..k + 1]) == RunArm(RunAll(l, arms[..k]), arms[k])
  {
  }

  /** The arms sorted by place, run one after another, then laid out. */
  method RunSend(s: Send, threads: seq<Arm>) returns (arms: seq<Arm>, out: seq<Event>)
    requires s.ValidSend()
    requires forall i :: 0 <= i < |threads| ==> ValidArm(s.View(), threads[i])
    requires forall i, j :: 0 <= i < j < |threads| ==> threads[i].thread != threads[j].thread
    modifies s
    ensures arms == SortArms(threads) && multiset(arms) == multiset(threads) && InOrder(arms)
    ensures Valid(RunAll(old(s.View()), arms))
    ensures out == Order(RunAll(old(s.View()), arms))
  {
    hide Order, RunArm, Follows;
    ghost var l0 := s.View();
    arms := SortArms(threads);
    NoneRun(l0, arms);
    SortedArms(l0, threads, arms);
    for k := 0 to |arms|
      invariant s.ValidSend() && s.View() == RunAll(l0, arms[..k])
      invariant Follows(l0, s.View(), arms[..k])
    {
      RunNext(l0, arms, k);
      RunOne(s, arms[k], l0, arms[..k]);
    }
    assert arms[..|arms|] == arms;
    out := s.ProcessingOrder();
  }

  // A rearrangement of valid arms of distinct threads, in order, is a valid run.
  lemma SortedArms(l: Layout, threads: seq<Arm>, arms: seq<Arm>)
    requires forall i :: 0 <= i < |threads| ==> ValidArm(l, threads[i])
    requires forall i, j :: 0 <= i < j < |threads| ==> threads[i].thread != threads[j].thread
    requires multiset(arms) == multiset(threads) && InOrder(arms)
    ensures ValidArms(l, arms)
  {
    forall i | 0 <= i < |arms| ensures ValidArm(l, arms[i]) {
      assert arms[i] in multiset(threads);
      var j :| 0 <= j < |threads| && threads[j] == arms[i];
    }
    forall i, j | 0 <= i < j < |arms| ensures arms[i].thread != arms[j].thread {
      if arms[i].thread == arms[j].thread {
        assert arms[i] in multiset(threads) && arms[j] in multiset(threads);
        var a :| 0 <= a < |threads| && threads[a] == arms[i];
        var b :| 0 <= b < |threads| && threads[b] == arms[j];
        assert a == b;
        Twice(arms, i, j);
        Once(threads, a);
        assert false;
      }
    }
  }

  lemma Twice(s: seq<Arm>, i: nat, j: nat)
    requires i < j < |s| && s[i] == s[j]
    ensures multiset(s)[s[i]] >= 2
  {
    assert s == s[..i] + [s[i]] + s[i + 1..j] + [s[j]] + s[j + 1..];
    assert multiset(s) == multiset(s[..i]) + multiset{s[i]} + multiset(s[i + 1..j]) + multiset{s[j]} + multiset(s[j + 1..]);
  }

  lemma Once(s: seq<Arm>, i: nat)
    requires i < |s| && forall a, b :: 0 <= a < b < |s| ==> s[a].thread != s[b].thread
    ensures multiset(s)[s[i]] == 1
  {
    assert s == s[..i] + [s[i]] + s[i + 1..];
    assert multiset(s) == multiset(s[..i]) + multiset{s[i]} + multiset(s[i + 1..]);
    assert s[i] !in s[..i] && s[i] !in s[i + 1..];
  }
}
