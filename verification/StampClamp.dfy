/**
 Fitting the stamps of a commit's answers into the commit's order: one windowed
 pass over its rows (internal/api/events.go:751-800).
 */
module StampClamp {
  import opened Options

  // A row of the commit, in seq order; at is NULL while the row is unprocessed.
  datatype Row = Row(answer: bool, at: Option<int>)

  // GREATEST and LEAST skip NULLs.
  function Greatest(a: Option<int>, b: Option<int>): Option<int> {
    if a.None? then b else if b.None? then a else if a.value < b.value then b else a
  }

  function Least(a: Option<int>, b: Option<int>): Option<int> {
    if a.None? then b else if b.None? then a else if b.value < a.value then b else a
  }

  // MAX over the rows, the answers left out unless counted.
  function MaxOver(rows: seq<Row>, answers: bool): Option<int> {
    if rows == [] then None
    else
      var last := rows[|rows| - 1];
      var before := MaxOver(rows[..|rows| - 1], answers);
      if last.answer && !answers then before else Greatest(before, last.at)
  }

  function MinOver(rows: seq<Row>): Option<int> {
    if rows == [] then None else Least(MinOver(rows[1..]), rows[0].at)
  }

  function Fit(row: Row, floor: Option<int>, ceiling: Option<int>): Row {
    if row.answer && row.at.Some? then row.(at := Least(Greatest(row.at, floor), ceiling)) else row
  }

  function Fitted(rows: seq<Row>, i: nat): Row
    requires i < |rows|
  {
    Fit(rows[i], MaxOver(rows[..i], false), MinOver(rows[i + 1..]))
  }

  // The commit's rows behind the one windowed UPDATE.
  function Clamped(rows: seq<Row>): (r: seq<Row>)
    ensures |r| == |rows| && forall i :: 0 <= i < |r| ==> r[i] == Fitted(rows, i)
  {
    seq(|rows|, i requires 0 <= i < |rows| => Fitted(rows, i))
  }

  /** Both windows grown row by row: the floor forwards, the ceiling over the rows read backwards. */
  method ClampInOnePass(rows: seq<Row>) returns (r: seq<Row>)
    ensures r == Clamped(rows)
  {
    var n := |rows|;
    var ceilings: seq<Option<int>> := [];
    var ceiling: Option<int> := None;
    var k := n;
    while k > 0
      invariant 0 <= k <= n && |ceilings| == n - k
      invariant ceiling == MinOver(rows[k..])
      invariant forall m :: 0 <= m < |ceilings| ==> ceilings[m] == MinOver(rows[k + m + 1..])
    {
      k := k - 1;
      ceilings := [ceiling] + ceilings;
      assert rows[k..][0] == rows[k] && rows[k..][1..] == rows[k + 1..];
      ceiling := Least(ceiling, rows[k].at);
    }
    var floor: Option<int> := None;
    r := [];
    for i := 0 to n
      invariant |r| == i && floor == MaxOver(rows[..i], false)
      invariant forall j :: 0 <= j < i ==> r[j] == Fitted(rows, j)
    {
      assert rows[..i + 1][..i] == rows[..i] && rows[..i + 1][i] == rows[i];
      r := r + [Fit(rows[i], floor, ceilings[i])];
      if !rows[i].answer { floor := Greatest(floor, rows[i].at); }
    }
  }

  // Clamping the first n rows' answers one by one, in list order, each against
  // every row of the commit as the earlier clamps left it.
  function OneByOne(rows: seq<Row>, n: nat): (r: seq<Row>)
    requires n <= |rows|
    ensures |r| == |rows|
  {
    if n == 0 then rows
    else
      var cur := OneByOne(rows, n - 1);
      cur[n - 1 := Fit(cur[n - 1], MaxOver(cur[..n - 1], true), MinOver(cur[n..]))]
  }

  // ---------------------------------------------------------------- bounds

  lemma {:induction false} MinBelow(rows: seq<Row>, i: nat)
    requires i < |rows| && rows[i].at.Some?
    ensures MinOver(rows).Some? && MinOver(rows).value <= rows[i].at.value
    decreases |rows|
  {
    if i > 0 { MinBelow(rows[1..], i - 1); }
  }

  lemma {:induction false} MinReached(rows: seq<Row>) returns (i: nat)
    requires MinOver(rows).Some?
    ensures i < |rows| && rows[i].at == MinOver(rows)
    decreases |rows|
  {
    if MinOver(rows) == rows[0].at {
      i := 0;
    } else {
      i := MinReached(rows[1..]);
      i := i + 1;
    }
  }

  lemma {:induction false} MaxAbove(rows: seq<Row>, i: nat)
    requires i < |rows| && !rows[i].answer && rows[i].at.Some?
    ensures MaxOver(rows, false).Some? && MaxOver(rows, false).value >= rows[i].at.value
    decreases |rows|
  {
    if i < |rows| - 1 {
      assert rows[..|rows| - 1][i] == rows[i];
      MaxAbove(rows[..|rows| - 1], i);
    }
  }

  // An answer lands at or below every stamp listed behind it, raw or clamped.
  lemma HeldBelow(rows: seq<Row>, i: nat, k: nat)
    requires i < k < |rows| && rows[i].answer && rows[i].at.Some? && rows[k].at.Some?
    ensures Fitted(rows, i).at.Some? && Fitted(rows, i).at.value <= rows[k].at.value
    ensures MinOver(rows[i + 1..]).Some? && Fitted(rows, i).at.value <= MinOver(rows[i + 1..]).value
  {
    assert rows[i + 1..][k - i - 1] == rows[k];
    MinBelow(rows[i + 1..], k - i - 1);
  }

  lemma {:induction false} SuffixMin(rows: seq<Row>, i: nat, k: nat)
    requires i <= k <= |rows| && MinOver(rows[k..]).Some?
    ensures MinOver(rows[i..]).Some? && MinOver(rows[i..]).value <= MinOver(rows[k..]).value
    decreases k - i
  {
    if i < k {
      SuffixMin(rows, i + 1, k);
      assert rows[i..][1..] == rows[i + 1..];
    }
  }

  // ---------------------------------------------------------------- one pass is the slow form

  // A clamped answer ahead of row i never raises row i.
  lemma {:induction false} AnswersRaiseNothing(rows: seq<Row>, k: nat, i: nat)
    requires k <= i < |rows| && rows[i].at.Some?
    ensures Greatest(rows[i].at, MaxOver(Clamped(rows)[..k], true)) == Greatest(rows[i].at, MaxOver(rows[..k], false))
    decreases k
  {
    if k > 0 {
      AnswersRaiseNothing(rows, k - 1, i);
      var done := Clamped(rows);
      assert done[..k][..k - 1] == done[..k - 1] && rows[..k][..k - 1] == rows[..k - 1];
      if rows[k - 1].answer && rows[k - 1].at.Some? { HeldBelow(rows, k - 1, i); }
    }
  }

  lemma {:induction false} OneByOnePrefix(rows: seq<Row>, n: nat)
    requires n <= |rows|
    ensures OneByOne(rows, n) == Clamped(rows)[..n] + rows[n..]
    decreases n
  {
    if n > 0 {
      var i := n - 1;
      OneByOnePrefix(rows, i);
      var cur := OneByOne(rows, i);
      assert cur[..i] == Clamped(rows)[..i] && cur[i] == rows[i] && cur[n..] == rows[n..];
      if rows[i].at.Some? { AnswersRaiseNothing(rows, i, i); }
      assert OneByOne(rows, n)[i] == Clamped(rows)[i];
    }
  }

  /** The one-pass clamp is the answers clamped one by one, whatever the stamps. */
  lemma OnePassIsOneByOne(rows: seq<Row>)
    ensures OneByOne(rows, |rows|) == Clamped(rows)
  {
    OneByOnePrefix(rows, |rows|);
  }

  // ---------------------------------------------------------------- the least move

  lemma {:induction false} MaxReached(rows: seq<Row>) returns (i: nat)
    requires MaxOver(rows, false).Some?
    ensures i < |rows| && !rows[i].answer && rows[i].at == MaxOver(rows, false)
    decreases |rows|
  {
    var n := |rows| - 1;
    if !rows[n].answer && rows[n].at == MaxOver(rows, false) {
      i := n;
    } else {
      i := MaxReached(rows[..n]);
    }
  }

  // Row j, no answer, stands ahead of row i with a stamp.
  predicate Leads(rows: seq<Row>, j: int, i: int) {
    0 <= j < i < |rows| && !rows[j].answer && rows[j].at.Some?
  }

  // Row k stands behind row i with a stamp.
  predicate Trails(rows: seq<Row>, i: int, k: int) {
    0 <= i < k < |rows| && rows[k].at.Some?
  }

  // v is the smallest stamp behind row i.
  ghost predicate LeastBehind(rows: seq<Row>, i: int, v: int) {
    (exists k :: Trails(rows, i, k) && rows[k].at.value == v) && forall k :: Trails(rows, i, k) ==> v <= rows[k].at.value
  }

  // v is the largest stamp a row ahead of i has that is no answer's.
  ghost predicate GreatestAhead(rows: seq<Row>, i: int, v: int) {
    (exists j :: Leads(rows, j, i) && rows[j].at.value == v) && forall j :: Leads(rows, j, i) ==> rows[j].at.value <= v
  }

  // A stamp behind row i is below its own, or below a row ahead of it.
  ghost predicate Squeezed(rows: seq<Row>, i: int)
    requires 0 <= i < |rows| && rows[i].at.Some?
  {
    exists k :: Trails(rows, i, k)
      && (rows[k].at.value < rows[i].at.value || exists j :: Leads(rows, j, i) && rows[k].at.value < rows[j].at.value)
  }

  lemma CeilingIs(rows: seq<Row>, i: nat)
    requires i < |rows|
    ensures MinOver(rows[i + 1..]).None? ==> forall k :: !Trails(rows, i, k)
    ensures MinOver(rows[i + 1..]).Some? ==> LeastBehind(rows, i, MinOver(rows[i + 1..]).value)
  {
    var behind := rows[i + 1..];
    forall k | Trails(rows, i, k) ensures MinOver(behind).Some? && MinOver(behind).value <= rows[k].at.value {
      assert behind[k - i - 1] == rows[k];
      MinBelow(behind, k - i - 1);
    }
    if MinOver(behind).Some? {
      var at := MinReached(behind);
      assert behind[at] == rows[i + 1 + at] && Trails(rows, i, i + 1 + at);
    }
  }

  lemma FloorIs(rows: seq<Row>, i: nat)
    requires i < |rows|
    ensures MaxOver(rows[..i], false).None? ==> forall j :: !Leads(rows, j, i)
    ensures MaxOver(rows[..i], false).Some? ==> GreatestAhead(rows, i, MaxOver(rows[..i], false).value)
  {
    var ahead := rows[..i];
    forall j | Leads(rows, j, i) ensures MaxOver(ahead, false).Some? && rows[j].at.value <= MaxOver(ahead, false).value {
      assert ahead[j] == rows[j];
      MaxAbove(ahead, j);
    }
    if MaxOver(ahead, false).Some? {
      var at := MaxReached(ahead);
      assert Leads(rows, at, i);
    }
  }

  /**
   An answer is moved no further than it must be. It keeps its stamp when no
   other row ahead is above it and no stamp behind is below it. A stamp behind
   that is below it, or below a row ahead, brings it down to the smallest stamp
   behind; failing that it is raised to the largest stamp ahead.
   */
  lemma LeastMove(rows: seq<Row>, i: nat)
    requires i < |rows| && rows[i].answer && rows[i].at.Some?
    ensures var a, v := rows[i].at.value, Clamped(rows)[i].at;
      && v.Some?
      && (Squeezed(rows, i) ==> LeastBehind(rows, i, v.value))
      && (!Squeezed(rows, i) && (forall j :: Leads(rows, j, i) ==> rows[j].at.value <= a) ==> v.value == a)
      && (!Squeezed(rows, i) && (exists j :: Leads(rows, j, i) && rows[j].at.value > a) ==> GreatestAhead(rows, i, v.value))
  {
    hide MinOver, MaxOver;
    CeilingIs(rows, i);
    FloorIs(rows, i);
  }

  /** A commit already in order is left as it is. */
  lemma OrderedIsKept(rows: seq<Row>)
    requires Ordered(rows)
    ensures Clamped(rows) == rows
  {
    var done := Clamped(rows);
    forall i | 0 <= i < |rows| ensures done[i] == rows[i] {
      ClampKeeps(rows, i);
      if rows[i].answer && rows[i].at.Some? { LeastMove(rows, i); }
    }
  }

  // ---------------------------------------------------------------- order

  ghost predicate Ordered(rows: seq<Row>) {
    forall i, j :: 0 <= i < j < |rows| && rows[i].at.Some? && rows[j].at.Some? ==> rows[i].at.value <= rows[j].at.value
  }

  ghost predicate AnswersOrdered(rows: seq<Row>) {
    forall i, j :: 0 <= i < j < |rows| && rows[i].answer && rows[j].answer && rows[i].at.Some? && rows[j].at.Some?
      ==> rows[i].at.value <= rows[j].at.value
  }

  ghost predicate OthersOrdered(rows: seq<Row>) {
    forall i, j :: 0 <= i < j < |rows| && !rows[i].answer && !rows[j].answer && rows[i].at.Some? && rows[j].at.Some?
      ==> rows[i].at.value <= rows[j].at.value
  }

  // An answer settled before a row listed ahead of an answer that is itself ahead of it.
  ghost predicate SettledTooEarly(rows: seq<Row>, j: int, i: int, k: int) {
    && 0 <= j < i < k < |rows|
    && !rows[j].answer && rows[i].answer && rows[k].answer
    && rows[j].at.Some? && rows[i].at.Some? && rows[k].at.Some?
    && rows[k].at.value < rows[j].at.value
  }

  /** Clamping never empties or fills a stamp, and touches no row but the answers. */
  lemma ClampKeeps(rows: seq<Row>, i: nat)
    requires i < |rows|
    ensures Clamped(rows)[i].answer == rows[i].answer
    ensures Clamped(rows)[i].at.Some? <==> rows[i].at.Some?
    ensures !rows[i].answer ==> Clamped(rows)[i] == rows[i]
  {
  }

  lemma TwoAnswers(rows: seq<Row>, i: nat, j: nat)
    requires i < j < |rows| && rows[i].answer && rows[i].at.Some? && rows[j].at.Some?
    ensures Clamped(rows)[i].at.Some? && Clamped(rows)[j].at.Some?
    ensures Clamped(rows)[i].at.value <= Clamped(rows)[j].at.value
  {
    HeldBelow(rows, i, j);
    if MinOver(rows[j + 1..]).Some? { SuffixMin(rows, i + 1, j + 1); }
  }

  /** The answers end in order among themselves, whatever the stamps. */
  lemma AnswersEndOrdered(rows: seq<Row>)
    ensures AnswersOrdered(Clamped(rows))
  {
    var done := Clamped(rows);
    forall i, j | 0 <= i < j < |done| && done[i].answer && done[j].answer && done[i].at.Some? && done[j].at.Some?
      ensures done[i].at.value <= done[j].at.value
    {
      TwoAnswers(rows, i, j);
    }
  }

  // A row ahead of an answer holds it up unless a later answer settled before that row.
  lemma HeldUp(rows: seq<Row>, j: nat, i: nat)
    requires j < i < |rows| && !rows[j].answer && rows[i].answer && rows[j].at.Some? && rows[i].at.Some?
    requires OthersOrdered(rows)
    requires forall k :: !SettledTooEarly(rows, j, i, k)
    ensures Clamped(rows)[i].at.value >= rows[j].at.value
  {
    assert rows[..i][j] == rows[j];
    MaxAbove(rows[..i], j);
    var behind := rows[i + 1..];
    if MinOver(behind).Some? {
      var at := MinReached(behind);
      assert behind[at] == rows[i + 1 + at];
      assert !SettledTooEarly(rows, j, i, i + 1 + at);
    }
  }

  lemma OrderedWhenNoneEarly(rows: seq<Row>)
    requires OthersOrdered(rows)
    requires forall j, i, k :: !SettledTooEarly(rows, j, i, k)
    ensures Ordered(Clamped(rows))
  {
    hide Fitted;
    var done := Clamped(rows);
    forall j, i | 0 <= j < i < |done| && done[j].at.Some? && done[i].at.Some?
      ensures done[j].at.value <= done[i].at.value
    {
      ClampKeeps(rows, j);
      ClampKeeps(rows, i);
      if rows[j].answer { TwoAnswers(rows, j, i); }
      else if rows[i].answer { HeldUp(rows, j, i); }
    }
  }

  lemma EarlyBreaksOrder(rows: seq<Row>, j: nat, i: nat, k: nat)
    requires SettledTooEarly(rows, j, i, k)
    ensures !Ordered(Clamped(rows))
  {
    HeldBelow(rows, i, k);
    var done := Clamped(rows);
    assert done[j].at.Some? && done[i].at.Some? && done[i].at.value < done[j].at.value;
  }

  /**
   The order and the stamps say the same, for the whole commit, exactly when the
   other rows' stamps already do and no answer was settled before a row that an
   earlier answer is listed behind.
   */
  lemma OrderedExactly(rows: seq<Row>)
    ensures Ordered(Clamped(rows)) <==> OthersOrdered(rows) && forall j, i, k :: !SettledTooEarly(rows, j, i, k)
  {
    var done := Clamped(rows);
    if Ordered(done) {
      forall i, j | 0 <= i < j < |rows| && !rows[i].answer && !rows[j].answer && rows[i].at.Some? && rows[j].at.Some?
        ensures rows[i].at.value <= rows[j].at.value
      {
        assert done[i] == rows[i] && done[j] == rows[j];
      }
      forall j, i, k ensures !SettledTooEarly(rows, j, i, k) {
        if SettledTooEarly(rows, j, i, k) { EarlyBreaksOrder(rows, j, i, k); }
      }
    } else if OthersOrdered(rows) && forall j, i, k :: !SettledTooEarly(rows, j, i, k) {
      OrderedWhenNoneEarly(rows);
    }
  }

  // An answer settled before a row listed ahead of it.
  ghost predicate SettledBefore(rows: seq<Row>, j: int, k: int) {
    && 0 <= j < k < |rows| && !rows[j].answer && rows[k].answer
    && rows[j].at.Some? && rows[k].at.Some? && rows[k].at.value < rows[j].at.value
  }

  /** The settlement stamps after the append, so the whole commit ends in order. */
  lemma OrderedAfterSettlement(rows: seq<Row>)
    requires OthersOrdered(rows)
    requires forall j, k :: !SettledBefore(rows, j, k)
    ensures Ordered(Clamped(rows))
  {
    forall j, i, k ensures !SettledTooEarly(rows, j, i, k) { assert !SettledBefore(rows, j, k); }
    OrderedWhenNoneEarly(rows);
  }
}
