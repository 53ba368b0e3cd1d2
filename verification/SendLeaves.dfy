/**
 Where in the batch each thread's rows end up, said of the threads and the posted
 events alone (internal/api/events.go:437-690, 1141-1321).
 */
module SendLeaves {
  import opened Options
  import opened Rows
  import opened EventModel
  import opened SendLayout
  import opened LayoutConservation
  import opened LayoutUpdates
  import opened SendProgram
  import opened ArmOrder
  import opened SendArms
  import opened ArmLeaves
  import LayoutPlaces
  import ArmTrace

  // The walked layout, the arms as they run, and the layout they leave.
  ghost function AfterWalks(posted: seq<Event>, scoped: seq<bool>, threads: seq<Live>): Layout
    requires |scoped| == |posted|
  {
    WalkAll(NewLayout(posted), scoped, threads)
  }

  ghost function ArmsRun(posted: seq<Event>, scoped: seq<bool>, threads: seq<Live>): seq<Arm>
    requires |scoped| == |posted|
  {
    SortArms(Arms(AfterWalks(posted, scoped, threads), scoped, threads))
  }

  ghost function LayoutLeft(posted: seq<Event>, scoped: seq<bool>, threads: seq<Live>): Layout
    requires |scoped| == |posted|
  {
    RunAll(AfterWalks(posted, scoped, threads), ArmsRun(posted, scoped, threads))
  }

  ghost predicate Sendable(posted: seq<Event>, scoped: seq<bool>, threads: seq<Live>) {
    DistinctIds(posted) && |scoped| == |posted| && GoodThreads(posted, threads)
  }

  // ---------------------------------------------------------------- the arms, by place

  // p is where the last of the named answers was received, behind everything for none.
  ghost predicate LastNamed(posted: seq<Event>, steps: seq<AnswerStep>, p: int) {
    if steps == [] then p == |posted|
    else
      && 0 <= p < |posted| && (exists j :: 0 <= j < |steps| && steps[j].answer == posted[p].id)
      && forall i, j :: p < i < |posted| && 0 <= j < |steps| ==> steps[j].answer != posted[i].id
  }

  // An interrupt ends the thread it names, or every thread when it names none.
  predicate Hits(ev: Event, scoped: bool, t: ThreadId) {
    ev.kind == Interrupt && (!scoped || ev.thread == t)
  }

  ghost predicate FirstHit(posted: seq<Event>, scoped: seq<bool>, t: ThreadId, i: int)
    requires |scoped| == |posted|
  {
    && (i == -1 || (0 <= i < |posted| && Hits(posted[i], scoped[i], t)))
    && forall k: nat :: k < |posted| && (i == -1 || k < i) ==> !Hits(posted[k], scoped[k], t)
  }

  // armOrder, of a thread: the first interrupt that reaches it; else, answered and
  // resting, the last answer its walk takes; else the primary ahead of all, the rest behind.
  ghost predicate StandsAt(posted: seq<Event>, scoped: seq<bool>, th: Live, p: int)
    requires |scoped| == |posted|
  {
    if exists i: nat :: i < |posted| && Hits(posted[i], scoped[i], th.id) then p >= 0 && FirstHit(posted, scoped, th.id, p)
    else if Answered(posted, th.id) && th.rests then LastNamed(posted, th.walk.steps, p)
    else if th.id == PRIMARY then p == -1
    else p == |posted|
  }

  lemma {:induction false} NoneReach(posted: seq<Event>, scoped: seq<bool>, t: ThreadId, k: nat)
    requires |scoped| == |posted|
    ensures var i := FirstReach(posted, scoped, t, k);
      forall j: nat :: k <= j < |posted| && (i == -1 || j < i) ==> !Hits(posted[j], scoped[j], t)
    decreases |posted| - k
  {
    if k < |posted| && !Hits(posted[k], scoped[k], t) { NoneReach(posted, scoped, t, k + 1); }
  }

  lemma FirstHitIs(posted: seq<Event>, scoped: seq<bool>, t: ThreadId)
    requires |scoped| == |posted|
    ensures var i := FirstReach(posted, scoped, t, 0);
      && FirstHit(posted, scoped, t, i)
      && (i >= 0 <==> exists j: nat :: j < |posted| && Hits(posted[j], scoped[j], t))
  {
    hide FirstReach;
    NoneReach(posted, scoped, t, 0);
    var i := FirstReach(posted, scoped, t, 0);
    if i >= 0 { assert Hits(posted[i], scoped[i], t); }
  }

  // The steps a settling thread is planned are its walk's.
  lemma {:induction false} WalkedSteps(l: Layout, scoped: seq<bool>, threads: seq<Live>, k: nat)
    requires |scoped| == |l.posted| && l.plan.steps == map[] && k < |threads|
    requires forall i, j :: 0 <= i < j < |threads| ==> threads[i].id != threads[j].id
    ensures Steps(WalkAll(l, scoped, threads).plan, threads[k].id)
         == if Settles(l.posted, scoped, threads[k]) then threads[k].walk.steps else []
    decreases |threads|
  {
    hide Settles;
    var done, last, t := threads[..|threads| - 1], threads[|threads| - 1], threads[k].id;
    if k < |threads| - 1 {
      WalkedSteps(l, scoped, done, k);
    } else {
      UnwalkedSteps(l, scoped, done, t);
    }
  }

  lemma {:induction false} UnwalkedSteps(l: Layout, scoped: seq<bool>, threads: seq<Live>, t: ThreadId)
    requires |scoped| == |l.posted| && l.plan.steps == map[] && forall k :: 0 <= k < |threads| ==> threads[k].id != t
    ensures Steps(WalkAll(l, scoped, threads).plan, t) == [] && t !in WalkAll(l, scoped, threads).plan.steps
    decreases |threads|
  {
    hide Settles;
    if threads != [] { UnwalkedSteps(l, scoped, threads[..|threads| - 1], t); }
  }

  lemma SlotNamed(l: Layout, t: ThreadId, i: int)
    requires Valid(l)
    ensures i in Slots(l, t, |l.posted|) <==> 0 <= i < |l.posted| && exists j :: 0 <= j < |Steps(l.plan, t)| && Steps(l.plan, t)[j].answer == l.posted[i].id
  {
    var steps := Steps(l.plan, t);
    SlotsMember(l, t, |l.posted|, i);
    if 0 <= i < |l.posted| {
      if j :| 0 <= j < |steps| && steps[j].answer == l.posted[i].id {
        assert t in l.plan.steps && ValidStep(l.posted, l.plan.pending, t, steps[j]);
        PostAtIs(l.posted, i);
      }
    }
  }

  lemma SettledIsLast(l: Layout, t: ThreadId)
    requires Valid(l)
    ensures LastNamed(l.posted, Steps(l.plan, t), SettledPlace(l, t))
  {
    hide Valid, Slots, IsSlot, Steps;
    var slots, steps := Slots(l, t, |l.posted|), Steps(l.plan, t);
    SlotsAscend(l, t, |l.posted|);
    SortedTargets(l, t);
    if slots != [] {
      var p := slots[|slots| - 1];
      assert p in slots;
      SlotNamed(l, t, p);
      forall i, j | p < i < |l.posted| && 0 <= j < |steps| ensures steps[j].answer != l.posted[i].id {
        if steps[j].answer == l.posted[i].id {
          SlotNamed(l, t, i);
          Shorter(slots, i);
        }
      }
    }
  }

  /** Each thread's arm stands where armOrder is documented to put it. */
  lemma ArmStandsAt(posted: seq<Event>, scoped: seq<bool>, threads: seq<Live>, k: nat)
    requires Sendable(posted, scoped, threads) && k < |threads|
    ensures StandsAt(posted, scoped, threads[k], ArmPlace(AfterWalks(posted, scoped, threads), scoped, threads[k]))
  {
    hide Valid, SettledPlace, LastNamed, WalkAll, GoodWalk, Hits, FirstHit, FirstReach, Answered;
    var l, r, th := NewLayout(posted), AfterWalks(posted, scoped, threads), threads[k];
    NewIsFresh(posted);
    ArmsAreValid(l, scoped, threads);
    FirstHitIs(posted, scoped, th.id);
    WalkedSteps(l, scoped, threads, k);
    SettledIsLast(r, th.id);
  }

  lemma ArmRuns(posted: seq<Event>, scoped: seq<bool>, threads: seq<Live>, k: nat)
    requires |scoped| == |posted| && k < |threads|
    ensures ArmOf(AfterWalks(posted, scoped, threads), scoped, threads[k]) in ArmsRun(posted, scoped, threads)
  {
    var arms := Arms(AfterWalks(posted, scoped, threads), scoped, threads);
    assert arms[k] in multiset(arms);
    assert arms[k] in multiset(SortArms(arms));
  }

  // The arms of one place, in order.
  function AtPlace(arms: seq<Arm>, i: int): seq<Arm> {
    if arms == [] then []
    else AtPlace(arms[..|arms| - 1], i) + (if arms[|arms| - 1].at == i then [arms[|arms| - 1]] else [])
  }

  lemma AtPlaceNext(arms: seq<Arm>, x: Arm, i: int)
    ensures AtPlace(arms + [x], i) == AtPlace(arms, i) + (if x.at == i then [x] else [])
  {
    assert (arms + [x])[..|arms|] == arms;
  }

  lemma {:induction false} InsertStable(s: seq<Arm>, x: Arm, i: int)
    ensures AtPlace(InsertArm(s, x), i) == AtPlace(s, i) + (if x.at == i then [x] else [])
    decreases |s|
  {
    if s == [] || s[|s| - 1].at <= x.at {
      AtPlaceNext(s, x, i);
    } else {
      var short, last := s[..|s| - 1], s[|s| - 1];
      InsertStable(short, x, i);
      AtPlaceNext(InsertArm(short, x), last, i);
    }
  }

  lemma {:induction false} SortStable(arms: seq<Arm>, i: int)
    ensures AtPlace(SortArms(arms), i) == AtPlace(arms, i)
    decreases |arms|
  {
    hide InsertArm;
    if arms != [] {
      SortStable(arms[..|arms| - 1], i);
      InsertStable(SortArms(arms[..|arms| - 1]), arms[|arms| - 1], i);
    }
  }

  /** And they run in that order: an arm ahead of another stands no later, and the arms of one place run as their threads were listed. */
  lemma ArmsRunInOrder(posted: seq<Event>, scoped: seq<bool>, threads: seq<Live>, m: nat, n: nat, i: int)
    requires Sendable(posted, scoped, threads) && m < n < |ArmsRun(posted, scoped, threads)|
    ensures ArmsRun(posted, scoped, threads)[m].at <= ArmsRun(posted, scoped, threads)[n].at
    ensures AtPlace(ArmsRun(posted, scoped, threads), i) == AtPlace(Arms(AfterWalks(posted, scoped, threads), scoped, threads), i)
  {
    SortStable(Arms(AfterWalks(posted, scoped, threads), scoped, threads), i);
  }

  // ---------------------------------------------------------------- what each thread leaves

  ghost predicate InterruptLeft(L: Layout, th: Live, i: int) {
    && Within(th.ended.settled, At(L.settled, i)) && Within(th.ended.idled, At(L.idled, i))
    && (th.ended.told.Some? ==>
          && DeliveredRow(i, th.ended.told.value.received) in L.delivered
          && (th.ended.told.value.wake != [] ==> ThreadWake(th.ended.told.value.received.thread, th.ended.told.value.wake, []) in L.wakes))
    && (th.ended.resume != [] ==> ThreadWake(PRIMARY, th.ended.resume, []) in L.wakes)
  }

  ghost predicate SettlementLeft(L: Layout, th: Live) {
    match th.move
    case Stays => true
    case Runs(pair) => ThreadWake(th.id, pair, if th.id == PRIMARY then AllDenials(th.walk.steps) else []) in L.wakes
    case Parks(pair) => exists p :: LastNamed(L.posted, th.walk.steps, p) && Within(pair, At(L.parked, p))
  }

  // An interrupted thread's rows are filed under its first interrupt; an answered
  // one's move is a wake of its own or a re-park at its last answer; a message wakes the primary.
  ghost predicate ThreadLeft(posted: seq<Event>, scoped: seq<bool>, th: Live, L: Layout)
    requires |scoped| == |posted|
  {
    if exists i: nat :: i < |posted| && Hits(posted[i], scoped[i], th.id) then
      exists i :: 0 <= i && FirstHit(posted, scoped, th.id, i) && InterruptLeft(L, th, i)
    else if Answered(posted, th.id) && th.rests then SettlementLeft(L, th)
    else th.id == PRIMARY && th.woken != [] ==> ThreadWake(PRIMARY, th.woken, []) in L.wakes
  }

  lemma WithinHas<T>(x: T, piece: seq<T>, all: seq<T>)
    requires Within(piece, all) && x in piece
    ensures x in all
  {
    var n: nat :| PieceAt(piece, all, n);
    var j :| 0 <= j < |piece| && piece[j] == x;
    assert all[n..n + |piece|][j] == all[n + j];
  }

  // What the arms file under a place is what the layout holds there.
  lemma LeftIs(posted: seq<Event>, scoped: seq<bool>, threads: seq<Live>, i: int)
    requires Sendable(posted, scoped, threads)
    ensures Holds(LayoutLeft(posted, scoped, threads), AfterWalks(posted, scoped, threads), ArmsRun(posted, scoped, threads), i)
  {
    hide Valid, ValidArm, WalkAll, AheadAll, BehindAll, ParkedAll, NoticesAll, WakesAll, RunAll, GoodWalk, SortArms, ArmOf, Follows;
    var l, r, arms := NewLayout(posted), AfterWalks(posted, scoped, threads), ArmsRun(posted, scoped, threads);
    NewIsFresh(posted);
    ArmsAreValid(l, scoped, threads);
    RunFiles(r, arms, i);
    RunWakes(r, arms);
    RunFollows(r, arms);
    FollowsValid(r, LayoutLeft(posted, scoped, threads), arms);
    assert At(r.settled, i) == [] && At(r.idled, i) == [] && At(r.parked, i) == [];
    Nothing(AheadAll(arms, i));
    Nothing(BehindAll(arms, i));
    Nothing(ParkedAll(arms, i));
  }

  lemma Nothing(s: seq<Event>)
    ensures [] + s == s
  {
  }

  /** Whatever else the send carries, every thread's rows end up where its own input says. */
  lemma ThreadsLeft(posted: seq<Event>, scoped: seq<bool>, threads: seq<Live>, k: nat)
    requires Sendable(posted, scoped, threads) && k < |threads|
    ensures ThreadLeft(posted, scoped, threads[k], LayoutLeft(posted, scoped, threads))
  {
    hide GoodThreads, DistinctIds, AfterWalks, ArmsRun, LayoutLeft, ThreadLeft, Filed, Holds, StandsAt, Settles, ArmPlace, ActOf, Steps;
    PlannedSteps(posted, scoped, threads, k);
    var r, arms, th := AfterWalks(posted, scoped, threads), ArmsRun(posted, scoped, threads), threads[k];
    ArmRuns(posted, scoped, threads, k);
    var m :| 0 <= m < |arms| && arms[m] == ArmOf(r, scoped, th);
    ArmFiled(arms, r.plan, m);
    ArmStandsAt(posted, scoped, threads, k);
    LeftIs(posted, scoped, threads, ArmPlace(r, scoped, th));
    ThreadLeftIs(posted, scoped, th, r, arms, LayoutLeft(posted, scoped, threads));
  }

  // The layout holds what the arms of this place file.
  ghost predicate Holds(L: Layout, r: Layout, arms: seq<Arm>, i: int) {
    && L.posted == r.posted
    && At(L.settled, i) == AheadAll(arms, i) && At(L.idled, i) == BehindAll(arms, i) && At(L.parked, i) == ParkedAll(arms, i)
    && L.delivered == NoticesAll(arms) && L.wakes == WakesAll(r.plan, arms)
  }

  lemma EndsLeft(th: Live, r: Layout, arms: seq<Arm>, L: Layout, i: int)
    requires var a := Arm(th.id, i, Ends(th.ended, th.mooted.consumed, th.mooted.steps)); Filed(arms, r.plan, a) && Holds(L, r, arms, i)
    ensures InterruptLeft(L, th, i)
  {
    hide Within, AheadAll, BehindAll, ParkedAll, NoticesAll, WakesAll;
    var a := Arm(th.id, i, Ends(th.ended, th.mooted.consumed, th.mooted.steps));
    var wakes := WakesOf(a, Steps(r.plan, th.id));
    if th.ended.told.Some? {
      var d := th.ended.told.value;
      WithinHas(DeliveredRow(i, d.received), NoticesOf(a), L.delivered);
      if d.wake != [] { WithinHas(ThreadWake(d.received.thread, d.wake, []), wakes, L.wakes); }
    }
    if th.ended.resume != [] { WithinHas(ThreadWake(PRIMARY, th.ended.resume, []), wakes, L.wakes); }
  }

  lemma MoveLeft(th: Live, r: Layout, arms: seq<Arm>, L: Layout, a: Arm)
    requires Filed(arms, r.plan, a) && Holds(L, r, arms, a.at) && a.thread == th.id && Steps(r.plan, th.id) == th.walk.steps
    requires a.act == match th.move case Stays => Rests case Runs(pair) => Resumes(pair) case Parks(pair) => Reparks(pair)
    requires LastNamed(r.posted, th.walk.steps, a.at)
    ensures SettlementLeft(L, th)
  {
    hide Within, AheadAll, BehindAll, ParkedAll, NoticesAll, WakesAll, LastNamed;
    if th.move.Runs? {
      var w := ThreadWake(th.id, th.move.pair, if th.id == PRIMARY then AllDenials(th.walk.steps) else []);
      WithinHas(w, WakesOf(a, Steps(r.plan, th.id)), L.wakes);
    }
  }

  lemma WokenLeft(th: Live, r: Layout, arms: seq<Arm>, L: Layout, a: Arm)
    requires Filed(arms, r.plan, a) && Holds(L, r, arms, a.at) && a.act == Wakes(th.woken) && th.woken != []
    ensures ThreadWake(PRIMARY, th.woken, []) in L.wakes
  {
    hide Within, AheadAll, BehindAll, ParkedAll, NoticesAll, WakesAll;
    WithinHas(ThreadWake(PRIMARY, th.woken, []), WakesOf(a, Steps(r.plan, a.thread)), L.wakes);
  }

  lemma ThreadLeftIs(posted: seq<Event>, scoped: seq<bool>, th: Live, r: Layout, arms: seq<Arm>, L: Layout)
    requires |scoped| == |posted| && r.posted == posted && Filed(arms, r.plan, ArmOf(r, scoped, th))
    requires Holds(L, r, arms, ArmPlace(r, scoped, th)) && StandsAt(posted, scoped, th, ArmPlace(r, scoped, th))
    requires Steps(r.plan, th.id) == if Settles(posted, scoped, th) then th.walk.steps else []
    ensures ThreadLeft(posted, scoped, th, L)
  {
    hide Filed, Holds, LastNamed, SettledPlace, InterruptLeft, SettlementLeft, Answered, Hits, Steps;
    FirstHitIs(posted, scoped, th.id);
    var i := FirstReach(posted, scoped, th.id, 0);
    if i >= 0 {
      EndsLeft(th, r, arms, L, i);
    } else if Settles(posted, scoped, th) {
      MoveLeft(th, r, arms, L, ArmOf(r, scoped, th));
      HoldsPosted(L, r, arms, ArmPlace(r, scoped, th));
    } else if th.id == PRIMARY && th.woken != [] {
      WokenLeft(th, r, arms, L, ArmOf(r, scoped, th));
    }
  }

  lemma HoldsPosted(L: Layout, r: Layout, arms: seq<Arm>, i: int)
    requires Holds(L, r, arms, i)
    ensures L.posted == r.posted
  {
  }

  lemma PlannedSteps(posted: seq<Event>, scoped: seq<bool>, threads: seq<Live>, k: nat)
    requires Sendable(posted, scoped, threads) && k < |threads|
    ensures AfterWalks(posted, scoped, threads).posted == posted
    ensures Steps(AfterWalks(posted, scoped, threads).plan, threads[k].id) == if Settles(posted, scoped, threads[k]) then threads[k].walk.steps else []
  {
    hide Settles, WalkAll, GoodWalk, Valid;
    NewIsFresh(posted);
    WalkedSteps(NewLayout(posted), scoped, threads, k);
  }

  // ---------------------------------------------------------------- notices

  // A posted message, outcome or system message to a thread.
  predicate InputTo(posted: seq<Event>, j: nat, t: ThreadId) {
    j < |posted| && !IsAnswer(posted[j].kind) && posted[j].kind != Interrupt && posted[j].thread == t
  }

  lemma NoticeAmongInput(L: Layout, d: nat, j: nat)
    requires Valid(L) && d < |L.delivered| && InputTo(L.posted, j, L.delivered[d].row.thread)
    ensures j < L.delivered[d].cause ==> LayoutPlaces.Place(L, LayoutPlaces.Posted(j)) < LayoutPlaces.Place(L, LayoutPlaces.Notice(d))
    ensures j > L.delivered[d].cause ==> LayoutPlaces.Place(L, LayoutPlaces.Notice(d)) < LayoutPlaces.Place(L, LayoutPlaces.Posted(j))
  {
    hide LayoutPlaces.Place;
    var x, y := LayoutPlaces.Posted(j), LayoutPlaces.Notice(d);
    PendingIsAnswer(L, j);
    if j < L.delivered[d].cause { LayoutPlaces.OrderOfTwo(L, x, y); }
    if j > L.delivered[d].cause { LayoutPlaces.OrderOfTwo(L, y, x); }
  }

  lemma PendingIsAnswer(L: Layout, j: nat)
    requires Valid(L) && j < |L.posted| && !IsAnswer(L.posted[j].kind)
    ensures L.posted[j].id !in L.plan.pending
  {
  }

  lemma LeftValid(posted: seq<Event>, scoped: seq<bool>, threads: seq<Live>)
    requires Sendable(posted, scoped, threads)
    ensures Valid(LayoutLeft(posted, scoped, threads)) && LayoutLeft(posted, scoped, threads).posted == posted
  {
    hide Valid, ValidArm, WalkAll, RunAll, GoodWalk, SortArms, ArmOf, Follows;
    NewIsFresh(posted);
    ArmsAreValid(NewLayout(posted), scoped, threads);
    var r, arms := AfterWalks(posted, scoped, threads), ArmsRun(posted, scoped, threads);
    RunFollows(r, arms);
    FollowsValid(r, LayoutLeft(posted, scoped, threads), arms);
  }

  // The d-th delivered row stands in the order behind the input to its thread
  // received ahead of its cause, and ahead of the input received behind it.
  ghost predicate AmongInput(L: Layout, d: nat)
    requires Valid(L) && d < |L.delivered|
  {
    var p, row, i := LayoutPlaces.Place(L, LayoutPlaces.Notice(d)), L.delivered[d].row, L.delivered[d].cause;
    && p < |Order(L)| && Order(L)[p] == row
    && forall j: nat :: InputTo(L.posted, j, row.thread) ==>
         && (j < i ==> LayoutPlaces.Place(L, LayoutPlaces.Posted(j)) < p)
         && (j > i ==> p < LayoutPlaces.Place(L, LayoutPlaces.Posted(j)))
  }

  lemma NoticeIsAmong(L: Layout, d: nat)
    requires Valid(L) && d < |L.delivered|
    ensures AmongInput(L, d)
  {
    hide Valid, Order, LayoutPlaces.Place, InputTo;
    LayoutPlaces.Placed(L, LayoutPlaces.Notice(d));
    forall j: nat | InputTo(L.posted, j, L.delivered[d].row.thread)
      ensures j < |L.posted|
      ensures j < L.delivered[d].cause ==> LayoutPlaces.Place(L, LayoutPlaces.Posted(j)) < LayoutPlaces.Place(L, LayoutPlaces.Notice(d))
      ensures j > L.delivered[d].cause ==> LayoutPlaces.Place(L, LayoutPlaces.Notice(d)) < LayoutPlaces.Place(L, LayoutPlaces.Posted(j))
    {
      InputIsPosted(L.posted, j, L.delivered[d].row.thread);
      NoticeAmongInput(L, d, j);
    }
  }

  lemma InputIsPosted(posted: seq<Event>, j: nat, t: ThreadId)
    requires InputTo(posted, j, t)
    ensures j < |posted|
  {
  }

  lemma NoticeFiled(posted: seq<Event>, scoped: seq<bool>, th: Live, L: Layout) returns (d: nat, i: nat)
    requires |scoped| == |posted| && ThreadLeft(posted, scoped, th, L) && th.ended.told.Some?
    requires exists i: nat :: i < |posted| && Hits(posted[i], scoped[i], th.id)
    ensures FirstHit(posted, scoped, th.id, i) && d < |L.delivered| && L.delivered[d] == DeliveredRow(i, th.ended.told.value.received)
  {
    hide FirstHit, Hits, Within;
    i :| FirstHit(posted, scoped, th.id, i) && InterruptLeft(L, th, i);
    d :| d < |L.delivered| && L.delivered[d] == DeliveredRow(i, th.ended.told.value.received);
  }

  /**
   An ended thread's notice is placed by the interrupt that ended it: in the
   batch it stands behind every message to its reader received ahead of that
   interrupt, and ahead of every one received behind it.
   */
  lemma NoticeStands(posted: seq<Event>, scoped: seq<bool>, threads: seq<Live>, k: nat) returns (d: nat, i: nat)
    requires Sendable(posted, scoped, threads) && k < |threads| && threads[k].ended.told.Some?
    requires exists i: nat :: i < |posted| && Hits(posted[i], scoped[i], threads[k].id)
    ensures FirstHit(posted, scoped, threads[k].id, i)
    ensures var L := LayoutLeft(posted, scoped, threads);
      && Valid(L) && L.posted == posted && d < |L.delivered|
      && L.delivered[d] == DeliveredRow(i, threads[k].ended.told.value.received) && AmongInput(L, d)
  {
    hide GoodThreads, LayoutLeft, FirstHit, Hits, Valid, ThreadLeft, AmongInput;
    ThreadsLeft(posted, scoped, threads, k);
    LeftValid(posted, scoped, threads);
    d, i := NoticeFiled(posted, scoped, threads[k], LayoutLeft(posted, scoped, threads));
    NoticeIsAmong(LayoutLeft(posted, scoped, threads), d);
  }

  // The row is what ending this thread told, under the first interrupt that reached it.
  ghost predicate ToldBy(posted: seq<Event>, scoped: seq<bool>, th: Live, row: DeliveredRow)
    requires |scoped| == |posted|
  {
    th.ended.told.Some? && row.row == th.ended.told.value.received && FirstHit(posted, scoped, th.id, row.cause)
  }

  /** No notice but an ended thread's, and each under the interrupt that ended it. */
  lemma OnlyTheirNotices(posted: seq<Event>, scoped: seq<bool>, threads: seq<Live>, d: nat)
    requires Sendable(posted, scoped, threads) && d < |LayoutLeft(posted, scoped, threads).delivered|
    ensures exists k :: 0 <= k < |threads| && ToldBy(posted, scoped, threads[k], LayoutLeft(posted, scoped, threads).delivered[d])
  {
    hide GoodThreads, LayoutLeft, AfterWalks, ArmsRun, ToldBy, NoticesAll, AheadAll, BehindAll, ParkedAll, WakesAll, NoticesOf;
    var L, r, arms := LayoutLeft(posted, scoped, threads), AfterWalks(posted, scoped, threads), ArmsRun(posted, scoped, threads);
    LeftIs(posted, scoped, threads, 0);
    NoticeIsSomeones(arms, d);
    var m :| 0 <= m < |arms| && NoticesOf(arms[m]) == [L.delivered[d]];
    var k := ArmOfThread(posted, scoped, threads, m);
    NoticeTold(posted, scoped, threads, k, L.delivered[d]);
  }

  lemma ArmOfThread(posted: seq<Event>, scoped: seq<bool>, threads: seq<Live>, m: nat) returns (k: nat)
    requires |scoped| == |posted| && m < |ArmsRun(posted, scoped, threads)|
    ensures k < |threads| && ArmsRun(posted, scoped, threads)[m] == ArmOf(AfterWalks(posted, scoped, threads), scoped, threads[k])
  {
    hide ArmOf;
    var all := Arms(AfterWalks(posted, scoped, threads), scoped, threads);
    assert SortArms(all)[m] in multiset(all);
    k :| k < |all| && all[k] == SortArms(all)[m];
  }

  lemma NoticeTold(posted: seq<Event>, scoped: seq<bool>, threads: seq<Live>, k: nat, row: DeliveredRow)
    requires |scoped| == |posted| && k < |threads| && NoticesOf(ArmOf(AfterWalks(posted, scoped, threads), scoped, threads[k])) == [row]
    ensures ToldBy(posted, scoped, threads[k], row)
  {
    hide WalkAll, ArmPlace, ActOf;
    EndedAt(posted, scoped, threads[k], AfterWalks(posted, scoped, threads));
  }

  lemma EndedAt(posted: seq<Event>, scoped: seq<bool>, th: Live, r: Layout)
    requires |scoped| == |posted| && r.posted == posted && ActOf(r, scoped, th).Ends?
    ensures ActOf(r, scoped, th).out == th.ended && FirstHit(posted, scoped, th.id, ArmPlace(r, scoped, th))
  {
    hide Settles, SettledPlace;
    NoneReach(posted, scoped, th.id, 0);
  }

  // ---------------------------------------------------------------- nothing lost, nothing doubled

  // How often the code beside the arms hands over row x for a thread.
  ghost function HandedFor(posted: seq<Event>, scoped: seq<bool>, th: Live, x: Event): nat
    requires |scoped| == |posted|
  {
    if FirstReach(posted, scoped, th.id, 0) >= 0 then
      N(th.ended.settled, x) + N(th.ended.idled, x) + N(th.ended.resume, x) + N(AllDenials(th.mooted.steps), x)
      + (if th.ended.told.Some? then N(th.ended.told.value.wake, x) + (if th.ended.told.value.received == x then 1 else 0) else 0)
    else if Settles(posted, scoped, th) then
      N(AllDenials(th.walk.steps), x) + (match th.move case Stays => 0 case Runs(pair) => N(pair, x) case Parks(pair) => N(pair, x))
    else if th.id == PRIMARY then N(th.woken, x)
    else 0
  }

  ghost function HandedForAll(posted: seq<Event>, scoped: seq<bool>, threads: seq<Live>, x: Event): nat
    requires |scoped| == |posted|
    decreases |threads|
  {
    if threads == [] then 0
    else HandedForAll(posted, scoped, threads[..|threads| - 1], x) + HandedFor(posted, scoped, threads[|threads| - 1], x)
  }

  ghost function WalkedRows(posted: seq<Event>, scoped: seq<bool>, threads: seq<Live>, x: Event): nat
    requires |scoped| == |posted|
    decreases |threads|
  {
    if threads == [] then 0
    else
      var th := threads[|threads| - 1];
      WalkedRows(posted, scoped, threads[..|threads| - 1], x) + (if Settles(posted, scoped, th) then N(AllDenials(th.walk.steps), x) else 0)
  }

  lemma {:induction false} WalksWrite(l: Layout, scoped: seq<bool>, threads: seq<Live>, x: Event)
    requires |scoped| == |l.posted| && Valid(l) && ArmTrace.Fresh(l) && l.plan.steps == map[] && GoodThreads(l.posted, threads)
    ensures Written(WalkAll(l, scoped, threads), x) == Written(l, x) + WalkedRows(l.posted, scoped, threads, x)
    decreases |threads|
  {
    hide Settles, GoodWalk, Valid, Written, N, AllDenials, ValidWalk;
    if threads != [] {
      var done, th := threads[..|threads| - 1], threads[|threads| - 1];
      WalksWrite(l, scoped, done, x);
      WalkAllWalked(l, scoped, done);
      if Settles(l.posted, scoped, th) {
        var before := WalkAll(l, scoped, done);
        WalkOne(l, before, scoped, done, th);
        PlannedWritten(before, th.id, th.walk.consumed, th.walk.steps, x);
      }
    }
  }

  lemma {:induction false} ArmsHand(r: Layout, scoped: seq<bool>, threads: seq<Live>, x: Event)
    requires |scoped| == |r.posted|
    ensures WalkedRows(r.posted, scoped, threads, x) + HandedAll(Arms(r, scoped, threads), x) == HandedForAll(r.posted, scoped, threads, x)
    decreases |threads|
  {
    hide ArmOf, HandedBy, HandedFor, Settles, N, AllDenials;
    if threads != [] {
      var done, th := threads[..|threads| - 1], threads[|threads| - 1];
      ArmsHand(r, scoped, done, x);
      assert Arms(r, scoped, threads)[..|threads| - 1] == Arms(r, scoped, done);
      ArmHands(r, scoped, th, x);
    }
  }

  lemma ArmHands(r: Layout, scoped: seq<bool>, th: Live, x: Event)
    requires |scoped| == |r.posted|
    ensures (if Settles(r.posted, scoped, th) then N(AllDenials(th.walk.steps), x) else 0) + HandedBy(ArmOf(r, scoped, th), x)
         == HandedFor(r.posted, scoped, th, x)
  {
    hide N, AllDenials, SettledPlace, Answered;
  }

  /** The batch holds every posted event and every row handed over for a live thread, each exactly as often. */
  lemma SendConserves(posted: seq<Event>, scoped: seq<bool>, threads: seq<Live>, x: Event)
    requires Sendable(posted, scoped, threads)
    ensures Valid(LayoutLeft(posted, scoped, threads))
    ensures N(Order(LayoutLeft(posted, scoped, threads)), x) == N(posted, x) + HandedForAll(posted, scoped, threads, x)
  {
    hide Valid, Order, Written, N, WalkAll, RunAll, SortArms, ArmOf, ValidArm, GoodWalk, HandedForAll, HandedAll, WalkedRows;
    var l, r, arms := NewLayout(posted), AfterWalks(posted, scoped, threads), ArmsRun(posted, scoped, threads);
    NewIsFresh(posted);
    ArmsAreValid(l, scoped, threads);
    LeftValid(posted, scoped, threads);
    OrderConserves(LayoutLeft(posted, scoped, threads), x);
    RunWrites(r, arms, x);
    HandedSorted(Arms(r, scoped, threads), x);
    WalksWrite(l, scoped, threads, x);
    NewWrites(posted, x);
    ArmsHand(r, scoped, threads, x);
  }

  lemma NewWrites(posted: seq<Event>, x: Event)
    ensures Written(NewLayout(posted), x) == 0
  {
    NothingAround(NewLayout(posted), |posted|, x);
  }

  // ---------------------------------------------------------------- the primary ahead

  /** A message that wakes the primary wakes it first: its running pair leads every other, whatever else the send moves. */
  lemma PrimaryWakesFirst(posted: seq<Event>, scoped: seq<bool>, threads: seq<Live>, k: nat)
    requires Sendable(posted, scoped, threads) && k < |threads| && threads[k].id == PRIMARY && threads[k].woken != []
    requires forall i: nat :: i < |posted| ==> !Hits(posted[i], scoped[i], PRIMARY)
    requires !(Answered(posted, PRIMARY) && threads[k].rests)
    ensures var L := LayoutLeft(posted, scoped, threads); L.wakes != [] && L.wakes[0] == ThreadWake(PRIMARY, threads[k].woken, [])
  {
    hide GoodThreads, WakesAll, AheadAll, BehindAll, ParkedAll, NoticesAll, AfterWalks, ArmsRun, LayoutLeft;
    var r, arms := AfterWalks(posted, scoped, threads), ArmsRun(posted, scoped, threads);
    PlannedSteps(posted, scoped, threads, k);
    PrimaryArmFirst(posted, scoped, threads, k);
    LeftIs(posted, scoped, threads, 0);
    FirstWakes(r.plan, arms);
    assert WakesOf(arms[0], Steps(r.plan, PRIMARY)) == [ThreadWake(PRIMARY, threads[k].woken, [])];
  }

  lemma PrimaryArmFirst(posted: seq<Event>, scoped: seq<bool>, threads: seq<Live>, k: nat)
    requires Sendable(posted, scoped, threads) && k < |threads| && threads[k].id == PRIMARY
    requires forall i: nat :: i < |posted| ==> !Hits(posted[i], scoped[i], PRIMARY)
    requires !(Answered(posted, PRIMARY) && threads[k].rests)
    ensures var arms := ArmsRun(posted, scoped, threads); arms != [] && arms[0] == Arm(PRIMARY, -1, Wakes(threads[k].woken))
  {
    hide GoodWalk, Answered, SettledPlace, WalkAll;
    var r, arms := AfterWalks(posted, scoped, threads), ArmsRun(posted, scoped, threads);
    ArmRuns(posted, scoped, threads, k);
    NoneReach(posted, scoped, PRIMARY, 0);
    var m :| 0 <= m < |arms| && arms[m] == ArmOf(r, scoped, threads[k]);
    assert arms[m] == Arm(PRIMARY, -1, Wakes(threads[k].woken));
    var n := ArmOfThread(posted, scoped, threads, 0);
    SettledPlaceIs(r, threads[n].id);
    assert arms[0].at <= arms[m].at;
  }
}
