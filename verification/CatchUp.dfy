/**
 Which occurrence a scheduler tick fires and what it passes over
 (internal/api/deploymentscheduler.go:205-370).
 */
module CatchUp {
  import opened Rows
  import opened Options

  const deploymentCatchupWindow: nat := 3600
  const deploymentSkipScanCap: nat := 1000

  // A schedule's occurrences, in order.
  type Cron = seq<int>

  // How many occurrences fall at or before t.
  function Cut(cron: Cron, t: int): (n: nat)
    ensures n <= |cron|
  {
    if cron == [] || cron[|cron| - 1] <= t then |cron| else Cut(cron[..|cron| - 1], t)
  }

  lemma {:induction false} CutSplits(cron: Cron, t: int, i: nat)
    requires Ascending(cron) && i < |cron|
    ensures i < Cut(cron, t) <==> cron[i] <= t
    decreases |cron|
  {
    if cron[|cron| - 1] > t && i < |cron| - 1 { CutSplits(cron[..|cron| - 1], t, i); }
  }

  lemma CutOrdered(cron: Cron, s: int, t: int)
    requires Ascending(cron) && s <= t
    ensures Cut(cron, s) <= Cut(cron, t)
  {
  }

  // The cut at an occurrence counts it.
  lemma CutAt(cron: Cron, i: nat)
    requires Ascending(cron) && i < |cron|
    ensures Cut(cron, cron[i]) == i + 1
  {
  }

  // cron.Due: every occurrence in (from, to].
  function Due(cron: Cron, from: int, to: int): Cron {
    if Cut(cron, from) <= Cut(cron, to) then cron[Cut(cron, from)..Cut(cron, to)] else []
  }

  // cron.Upcoming: up to n occurrences after a bound.
  function Upcoming(cron: Cron, after: int, n: nat): Cron {
    var rest := cron[Cut(cron, after)..];
    if |rest| <= n then rest else rest[..n]
  }

  lemma DueIs(cron: Cron, from: int, to: int, x: int)
    requires Ascending(cron) && from <= to
    ensures x in Due(cron, from, to) <==> x in cron && from < x <= to
    ensures Ascending(Due(cron, from, to))
  {
    CutOrdered(cron, from, to);
    var a, b := Cut(cron, from), Cut(cron, to);
    if x in cron {
      var i :| 0 <= i < |cron| && cron[i] == x;
      CutSplits(cron, from, i);
      CutSplits(cron, to, i);
      if from < x <= to { assert cron[a..b][i - a] == x; }
    }
    if x in cron[a..b] {
      var i :| 0 <= i < b - a && cron[a..b][i] == x;
      CutSplits(cron, from, a + i);
      CutSplits(cron, to, a + i);
    }
  }

  /** The occurrences strictly between lower and occ, up to the scan's cap. */
  method OccurrencesSkipped(cron: Cron, lower: int, occ: int) returns (n: nat)
    requires Ascending(cron) && occ in cron && lower < occ
    ensures n == Saturated(Between(cron, lower, occ))
  {
    var batch := Upcoming(cron, lower, deploymentSkipScanCap);
    ghost var a := Cut(cron, lower);
    ghost var i :| 0 <= i < |cron| && cron[i] == occ;
    CutAt(cron, i);
    CutSplits(cron, lower, i);
    n := 0;
    while n < |batch| && batch[n] < occ
      invariant n <= |batch| && a + n <= i
    {
      assert batch[n] == cron[a + n];
      n := n + 1;
    }
    assert n < |batch| ==> batch[n] == cron[a + n];
  }

  // How many occurrences a fire at occ passes over.
  function Between(cron: Cron, lower: int, occ: int): int {
    Cut(cron, occ) - 1 - Cut(cron, lower)
  }

  function Saturated(n: int): int {
    if n > deploymentSkipScanCap then deploymentSkipScanCap else n
  }

  // ---------------------------------------------------------------- one candidate

  // A scanned row. cron is None for a schedule the generator refuses.
  datatype Candidate = Candidate(id: string, cron: Option<Cron>, resumedAt: int, watermark: Option<int>)

  datatype Fire = Fire(id: string, occ: int, skipped: int)

  function Lower(c: Candidate): int {
    if c.watermark.Some? && c.watermark.value > c.resumedAt then c.watermark.value else c.resumedAt
  }

  // The most recent due occurrence of the whole backlog.
  function LastDue(cron: Cron, lower: int, now: int): Option<int> {
    var due := Due(cron, lower, now);
    if due == [] then None else Some(due[|due| - 1])
  }

  // What the original promises to fire: the last due occurrence, if the catch-up window still holds it.
  function Promised(c: Candidate, now: int): Option<Fire> {
    if c.cron.None? || Lower(c) >= now then None
    else
      var last := LastDue(c.cron.value, Lower(c), now);
      if last.None? || last.value <= now - deploymentCatchupWindow then None
      else
        var n := Between(c.cron.value, Lower(c), last.value);
        // The walk that can saturate is only taken behind the window.
        Some(Fire(c.id, last.value, if Lower(c) < now - deploymentCatchupWindow then Saturated(n) else n))
  }

  ghost predicate Scanned(c: Candidate) {
    c.cron.Some? ==> Ascending(c.cron.value)
  }

  lemma LastDueIs(cron: Cron, lower: int, now: int)
    requires Ascending(cron) && lower <= now
    ensures LastDue(cron, lower, now).None? ==> Cut(cron, now) == Cut(cron, lower)
    ensures LastDue(cron, lower, now).Some? ==> Cut(cron, lower) < Cut(cron, now) && LastDue(cron, lower, now).value == cron[Cut(cron, now) - 1]
  {
  }

  /** The clamped search finds the unclamped search's occurrence when the window holds it, and nothing otherwise. */
  lemma ClampedSearch(cron: Cron, lower: int, floor: int, now: int)
    requires Ascending(cron) && lower <= floor <= now
    ensures LastDue(cron, floor, now)
         == if LastDue(cron, lower, now).Some? && LastDue(cron, lower, now).value > floor then LastDue(cron, lower, now) else None
  {
    LastDueIs(cron, lower, now);
    LastDueIs(cron, floor, now);
    CutOrdered(cron, lower, floor);
    CutOrdered(cron, floor, now);
    if Cut(cron, lower) < Cut(cron, now) { CutSplits(cron, floor, Cut(cron, now) - 1); }
  }

  lemma DueSize(cron: Cron, lower: int, now: int)
    requires Ascending(cron) && lower <= now && Due(cron, lower, now) != []
    ensures |Due(cron, lower, now)| - 1 == Between(cron, lower, LastDue(cron, lower, now).value)
    ensures LastDue(cron, lower, now).value in cron && lower < LastDue(cron, lower, now).value <= now
  {
    CutOrdered(cron, lower, now);
    var b := Cut(cron, now);
    CutAt(cron, b - 1);
    CutSplits(cron, lower, b - 1);
    CutSplits(cron, now, b - 1);
  }

  // An occurrence of the schedule the tick may still fire: past the resume floor and
  // the last claimed one, due, and inside the window.
  predicate Fireable(c: Candidate, now: int, x: int) {
    && c.cron.Some? && x in c.cron.value
    && c.resumedAt < x && (c.watermark.Some? ==> c.watermark.value < x)
    && x <= now && now - deploymentCatchupWindow < x
  }

  lemma LastDueFireable(c: Candidate, now: int)
    requires Scanned(c) && c.cron.Some? && Lower(c) < now
    ensures var last := LastDue(c.cron.value, Lower(c), now);
      && (last.None? ==> forall x :: !Fireable(c, now, x))
      && (last.Some? ==> last.value in c.cron.value && Lower(c) < last.value <= now && forall x :: Fireable(c, now, x) ==> x <= last.value)
  {
    hide Cut;
    var cron, lower := c.cron.value, Lower(c);
    var due := Due(cron, lower, now);
    forall x ensures (x in due <==> x in cron && lower < x <= now) && Ascending(due) { DueIs(cron, lower, now, x); }
    forall x | Fireable(c, now, x) ensures x in due && x <= due[|due| - 1] { Shorter(due, x); }
    if due != [] { assert due[|due| - 1] in due; }
  }

  /** A tick fires the latest fireable occurrence, and fires nothing exactly when none is. */
  lemma FiresLatest(c: Candidate, now: int)
    requires Scanned(c)
    ensures Promised(c, now).None? <==> forall x :: !Fireable(c, now, x)
    ensures Promised(c, now).Some? ==>
      var f := Promised(c, now).value; f.id == c.id && Fireable(c, now, f.occ) && forall x :: Fireable(c, now, x) ==> x <= f.occ
  {
    hide LastDue, Between;
    if c.cron.Some? && Lower(c) < now { LastDueFireable(c, now); }
    if Promised(c, now).Some? { assert Fireable(c, now, Promised(c, now).value.occ); }
    forall x | Fireable(c, now, x) ensures Promised(c, now).Some? {
      assert Lower(c) < x;
    }
  }

  /** What a fire counts as passed over: the occurrences behind the floor and ahead of it. */
  lemma {:induction false} BetweenCounts(cron: Cron, lower: int, occ: int)
    requires Ascending(cron) && occ in cron && lower < occ
    ensures |set x | x in cron && lower < x < occ| == Between(cron, lower, occ)
  {
    hide Cut, Ascending;
    var i :| 0 <= i < |cron| && cron[i] == occ;
    CutAt(cron, i);
    CutSplits(cron, lower, i);
    var a := Cut(cron, lower);
    var mid := cron[a..i];
    forall x ensures x in mid <==> x in cron && lower < x < occ { MidHas(cron, lower, i, x); }
    AscendingPart(cron, a, i);
    assert (set x | x in cron && lower < x < occ) == set x | x in mid;
    SizeOf(mid);
  }

  lemma MidHas(cron: Cron, lower: int, i: nat, x: int)
    requires Ascending(cron) && i < |cron| && Cut(cron, lower) <= i
    ensures x in cron[Cut(cron, lower)..i] <==> x in cron && lower < x < cron[i]
  {
    hide Cut;
    var a := Cut(cron, lower);
    var mid := cron[a..i];
    if x in cron && lower < x < cron[i] {
      var j :| 0 <= j < |cron| && cron[j] == x;
      CutSplits(cron, lower, j);
      assert mid[j - a] == x;
    }
    if x in mid {
      var j :| 0 <= j < |mid| && mid[j] == x;
      CutSplits(cron, lower, a + j);
      assert cron[a + j] == x;
    }
  }

  lemma AscendingPart(cron: Cron, a: nat, i: nat)
    requires Ascending(cron) && a <= i <= |cron|
    ensures Ascending(cron[a..i])
  {
  }

  lemma {:induction false} SizeOf(s: seq<int>)
    requires Ascending(s)
    ensures |set x | x in s| == |s|
    decreases |s|
  {
    if s != [] {
      var short, last := s[..|s| - 1], s[|s| - 1];
      SizeOf(short);
      assert s == short + [last];
      assert (set x | x in s) == (set x | x in short) + {last};
    }
  }

  /** One row of the tick's scan, as the tick computes it: clamped, with the counting walk only behind the window. */
  method Decide(c: Candidate, now: int) returns (refused: bool, fire: Option<Fire>)
    requires Scanned(c)
    ensures fire == Promised(c, now)
    ensures refused <==> c.cron.None? && Lower(c) < now
  {
    hide Due, Between;
    var lower := c.resumedAt;
    if c.watermark.Some? && c.watermark.value > lower { lower := c.watermark.value; }
    if !(lower < now) { return false, None; }
    var floor := lower;
    if now - deploymentCatchupWindow > floor { floor := now - deploymentCatchupWindow; }
    if c.cron.None? { return true, None; }
    var cron := c.cron.value;
    var due := Due(cron, floor, now);
    ClampedSearch(cron, lower, floor, now);
    if due == [] {
      LastInside(cron, lower, floor, now);
      return false, None;
    }
    DueSize(cron, floor, now);
    var occ := due[|due| - 1];
    var skipped := |due| - 1;
    if floor > lower { skipped := OccurrencesSkipped(cron, lower, occ); }
    return false, Some(Fire(c.id, occ, skipped));
  }

  // With no window in force an empty search is an empty backlog.
  lemma LastInside(cron: Cron, lower: int, floor: int, now: int)
    requires Ascending(cron) && lower <= floor <= now && Due(cron, floor, now) == []
    ensures LastDue(cron, lower, now).None? || LastDue(cron, lower, now).value <= floor
  {
    ClampedSearch(cron, lower, floor, now);
  }

  // ---------------------------------------------------------------- the sweep

  function AllFires(rows: seq<Candidate>, now: int): seq<Fire> {
    if rows == [] then []
    else
      var last := Promised(rows[|rows| - 1], now);
      AllFires(rows[..|rows| - 1], now) + (if last.Some? then [last.value] else [])
  }

  function AllRefused(rows: seq<Candidate>, now: int): seq<string> {
    if rows == [] then []
    else
      var c := rows[|rows| - 1];
      AllRefused(rows[..|rows| - 1], now) + (if c.cron.None? && Lower(c) < now then [c.id] else [])
  }

  /** One sweep: a row the generator refuses costs that deployment its fire and no other. */
  method Tick(rows: seq<Candidate>, now: int) returns (fires: seq<Fire>, scanErrs: seq<string>)
    requires forall i :: 0 <= i < |rows| ==> Scanned(rows[i])
    ensures fires == AllFires(rows, now) && scanErrs == AllRefused(rows, now)
  {
    hide Promised, Scanned;
    fires, scanErrs := [], [];
    for i := 0 to |rows|
      invariant fires == AllFires(rows[..i], now) && scanErrs == AllRefused(rows[..i], now)
    {
      assert rows[..i + 1][..i] == rows[..i];
      var refused, fire := Decide(rows[i], now);
      if refused { scanErrs := scanErrs + [rows[i].id]; }
      if fire.Some? { fires := fires + [fire.value]; }
    }
    assert rows[..|rows|] == rows;
  }

  /** The sweep fires what each row is due and nothing else. */
  lemma {:induction false} FiresAre(rows: seq<Candidate>, now: int, f: Fire)
    ensures f in AllFires(rows, now) <==> exists i :: 0 <= i < |rows| && Promised(rows[i], now) == Some(f)
    decreases |rows|
  {
    hide Promised;
    if rows != [] {
      var short, last := rows[..|rows| - 1], rows[|rows| - 1];
      FiresAre(short, now, f);
      if i :| 0 <= i < |short| && Promised(short[i], now) == Some(f) { assert rows[i] == short[i]; }
      if Promised(last, now) == Some(f) { assert Promised(rows[|rows| - 1], now) == Some(f); }
      if i :| 0 <= i < |rows| && Promised(rows[i], now) == Some(f) && i < |short| { assert short[i] == rows[i]; }
    }
  }

  /** A poisoned row changes no other row's fire. */
  lemma {:induction false} FiresApart(a: seq<Candidate>, b: seq<Candidate>, now: int)
    ensures AllFires(a + b, now) == AllFires(a, now) + AllFires(b, now)
    decreases |b|
  {
    if b == [] {
      assert a + b == a;
    } else {
      assert (a + b)[..|a + b| - 1] == a + b[..|b| - 1];
      FiresApart(a, b[..|b| - 1], now);
    }
  }

  // ---------------------------------------------------------------- many ticks

  // A tick whose fire, if any, commits or does not.
  datatype Sweep = Sweep(now: int, commits: bool)

  // The watermark is derived from the committed runs; total counts fires and what they passed over.
  datatype Ledger = Ledger(watermark: Option<int>, total: int, saturated: bool)

  function Fired(id: string, cron: Cron, resumedAt: int, l: Ledger, t: Sweep): Option<Fire> {
    if t.commits then Promised(Candidate(id, Some(cron), resumedAt, l.watermark), t.now) else None
  }

  function SweepStep(id: string, cron: Cron, resumedAt: int, l: Ledger, t: Sweep): Ledger {
    var f := Fired(id, cron, resumedAt, l, t);
    if f.None? then l
    else
      var lower := Lower(Candidate(id, Some(cron), resumedAt, l.watermark));
      Ledger(Some(f.value.occ), l.total + 1 + f.value.skipped,
             l.saturated || f.value.skipped != Between(cron, lower, f.value.occ))
  }

  function Sweeps(id: string, cron: Cron, resumedAt: int, ticks: seq<Sweep>): Ledger {
    if ticks == [] then Ledger(None, 0, false)
    else SweepStep(id, cron, resumedAt, Sweeps(id, cron, resumedAt, ticks[..|ticks| - 1]), ticks[|ticks| - 1])
  }

  ghost predicate Telescopes(cron: Cron, resumedAt: int, l: Ledger) {
    && (l.watermark.Some? ==> l.watermark.value > resumedAt)
    && var exact := Cut(cron, if l.watermark.Some? then l.watermark.value else resumedAt) - Cut(cron, resumedAt);
       l.total <= exact && (l.total == exact <==> !l.saturated)
  }

  lemma SweepKeeps(id: string, cron: Cron, resumedAt: int, l: Ledger, t: Sweep)
    requires Ascending(cron) && Telescopes(cron, resumedAt, l)
    ensures Telescopes(cron, resumedAt, SweepStep(id, cron, resumedAt, l, t))
  {
    hide Due;
    var f := Fired(id, cron, resumedAt, l, t);
    if f.Some? {
      var lower := Lower(Candidate(id, Some(cron), resumedAt, l.watermark));
      DueSize(cron, lower, t.now);
    }
  }

  /**
   Over any ticks without a resume between them, the committed fires and what
   they passed over number the occurrences from the resume floor up to the last
   fire: exactly, unless a count saturated, and never more.
   */
  lemma {:induction false} FiresTelescope(id: string, cron: Cron, resumedAt: int, ticks: seq<Sweep>)
    requires Ascending(cron)
    ensures Telescopes(cron, resumedAt, Sweeps(id, cron, resumedAt, ticks))
    decreases |ticks|
  {
    hide SweepStep;
    if ticks != [] {
      FiresTelescope(id, cron, resumedAt, ticks[..|ticks| - 1]);
      SweepKeeps(id, cron, resumedAt, Sweeps(id, cron, resumedAt, ticks[..|ticks| - 1]), ticks[|ticks| - 1]);
    }
  }

  // A count saturates only over more than the cap, behind a floor already out of the window.
  lemma SaturatesExactly(c: Candidate, now: int)
    requires Scanned(c) && Promised(c, now).Some?
    ensures var f := Promised(c, now).value; var n := Between(c.cron.value, Lower(c), f.occ);
      f.skipped != n <==> n > deploymentSkipScanCap && Lower(c) < now - deploymentCatchupWindow
  {
  }

  ghost predicate WithinCap(cron: Cron, resumedAt: int, now: int) {
    Cut(cron, now) - Cut(cron, resumedAt) <= deploymentSkipScanCap + 1
  }

  lemma SweepUnsaturated(id: string, cron: Cron, resumedAt: int, l: Ledger, t: Sweep)
    requires Ascending(cron) && WithinCap(cron, resumedAt, t.now) && !l.saturated
    ensures !SweepStep(id, cron, resumedAt, l, t).saturated
  {
    hide Due;
    var f := Fired(id, cron, resumedAt, l, t);
    if f.Some? {
      var c := Candidate(id, Some(cron), resumedAt, l.watermark);
      SaturatesExactly(c, t.now);
      DueSize(cron, Lower(c), t.now);
      CutOrdered(cron, resumedAt, Lower(c));
      CutOrdered(cron, f.value.occ, t.now);
    }
  }

  /**
   With no more than a thousand and one occurrences between the resume and the
   last tick, no count ever saturates: the fires and what they passed over
   number the occurrences up to the last fire exactly, however the ticks fall
   and whichever of their fires commit.
   */
  lemma {:induction false} SmallBacklogExact(id: string, cron: Cron, resumedAt: int, ticks: seq<Sweep>)
    requires Ascending(cron) && forall i :: 0 <= i < |ticks| ==> WithinCap(cron, resumedAt, ticks[i].now)
    ensures var l := Sweeps(id, cron, resumedAt, ticks);
      && !l.saturated
      && l.total == Cut(cron, if l.watermark.Some? then l.watermark.value else resumedAt) - Cut(cron, resumedAt)
    decreases |ticks|
  {
    hide SweepStep, Cut, WithinCap;
    FiresTelescope(id, cron, resumedAt, ticks);
    if ticks != [] {
      SmallBacklogExact(id, cron, resumedAt, ticks[..|ticks| - 1]);
      SweepUnsaturated(id, cron, resumedAt, Sweeps(id, cron, resumedAt, ticks[..|ticks| - 1]), ticks[|ticks| - 1]);
    }
  }
}
