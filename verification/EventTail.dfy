/**
 Tailing a session's growing log through a scope
 (internal/api/events.go:1751-1757, 1850-1896).
 */
module EventTail {
  import opened Rows

  datatype Row = Row(seqno: nat, id: string, thread: string)

  const sseWakeBatch: nat := 500

  // The session lock serializes appends, so seq order is commit order: a later
  // read sees the earlier log and rows behind it.
  ghost predicate Log(log: seq<Row>) {
    && (forall i :: 0 <= i < |log| ==> log[i].seqno > 0)
    && forall i, j :: 0 <= i < j < |log| ==> log[i].seqno < log[j].seqno
  }

  // COALESCE(MAX(seq), 0)
  function High(log: seq<Row>): nat {
    if log == [] then 0 else log[|log| - 1].seqno
  }

  // How many rows have a seq of at most s.
  function Cut(log: seq<Row>, s: nat): (n: nat)
    ensures n <= |log|
  {
    if log == [] || log[|log| - 1].seqno <= s then |log| else Cut(log[..|log| - 1], s)
  }

  lemma {:induction false} CutSplits(log: seq<Row>, s: nat, i: nat)
    requires Log(log) && i < |log|
    ensures i < Cut(log, s) <==> log[i].seqno <= s
    decreases |log|
  {
    if log[|log| - 1].seqno > s && i < |log| - 1 { CutSplits(log[..|log| - 1], s, i); }
  }

  lemma CutIs(log: seq<Row>, s: nat, n: nat)
    requires Log(log) && n <= |log|
    requires n > 0 ==> log[n - 1].seqno <= s
    requires n < |log| ==> log[n].seqno > s
    ensures Cut(log, s) == n
  {
  }

  lemma CutOrdered(log: seq<Row>, s: nat, t: nat)
    requires Log(log) && s <= t
    ensures Cut(log, s) <= Cut(log, t)
  {
  }

  // The in-scope rows past lo, up to hi.
  function Between(log: seq<Row>, lo: nat, hi: nat, scope: Row -> bool): seq<Row> {
    if Cut(log, lo) <= Cut(log, hi) then Keep(log[Cut(log, lo)..Cut(log, hi)], scope) else []
  }

  // log.List: the first limit in-scope rows after a seq.
  function Page(log: seq<Row>, after: nat, limit: nat, scope: Row -> bool): seq<Row> {
    var found := Keep(log[Cut(log, after)..], scope);
    if |found| <= limit then found else found[..limit]
  }

  // ---------------------------------------------------------------- growth

  lemma CutGrown(log: seq<Row>, more: seq<Row>, s: nat)
    requires Log(log) && Log(log + more) && s <= High(log)
    ensures Cut(log + more, s) == Cut(log, s)
  {
    var n := Cut(log, s);
    var all := log + more;
    if n > 0 { CutSplits(log, s, n - 1); }
    if n < |log| {
      CutSplits(log, s, n);
    } else if n < |all| {
      assert all[n].seqno > 0 && (n > 0 ==> all[n - 1].seqno < all[n].seqno);
    }
    CutIs(all, s, n);
  }

  lemma HighGrows(log: seq<Row>, grown: seq<Row>)
    requires Log(grown) && log <= grown
    ensures High(log) <= High(grown)
  {
  }

  /** Rows committed later never land at or below a position the log has reached. */
  lemma BetweenGrown(log: seq<Row>, grown: seq<Row>, lo: nat, hi: nat, scope: Row -> bool)
    requires Log(log) && Log(grown) && log <= grown && lo <= hi <= High(log)
    ensures Between(grown, lo, hi, scope) == Between(log, lo, hi, scope)
    ensures High(log) <= High(grown)
  {
    hide Keep, Cut;
    var more := grown[|log|..];
    assert grown == log + more;
    CutGrown(log, more, lo);
    CutGrown(log, more, hi);
    CutOrdered(log, lo, hi);
    assert log[Cut(log, lo)..Cut(log, hi)] == grown[Cut(log, lo)..Cut(log, hi)];
    HighGrows(log, grown);
  }

  // ---------------------------------------------------------------- pages

  // A leading piece of the kept rows is what is kept of a leading piece.
  lemma {:induction false} KeepPrefix(s: seq<Row>, p: Row -> bool, k: nat) returns (d: nat)
    requires 0 < k <= |Keep(s, p)|
    ensures 0 < d <= |s| && Keep(s[..d], p) == Keep(s, p)[..k] && s[d - 1] == Keep(s, p)[k - 1]
    decreases |s|
  {
    var short := s[..|s| - 1];
    if k <= |Keep(short, p)| {
      d := KeepPrefix(short, p, k);
      assert s[..d] == short[..d];
    } else {
      d := |s|;
      assert s[..d] == s;
    }
  }

  function Last(page: seq<Row>, hi: nat): nat {
    if page == [] then hi else page[|page| - 1].seqno
  }

  // A page is a leading piece of the in-scope rows behind the position.
  lemma PageIsPrefix(log: seq<Row>, hi: nat, scope: Row -> bool, limit: nat)
    ensures Page(log, hi, limit, scope) <= Keep(log[Cut(log, hi)..], scope)
  {
  }

  // How far into the log a page reaches.
  lemma PageReach(log: seq<Row>, hi: nat, scope: Row -> bool, limit: nat) returns (e: nat)
    requires Log(log)
    ensures var page, c := Page(log, hi, limit, scope), Cut(log, hi);
      && c <= e <= |log| && Keep(log[c..e], scope) == page
      && if page == [] then e == c else c < e && log[e - 1] == page[|page| - 1]
  {
    hide Page;
    hide Cut;
    var c := Cut(log, hi);
    var rest, page := log[c..], Page(log, hi, limit, scope);
    PageIsPrefix(log, hi, scope, limit);
    if page == [] {
      e := c;
    } else {
      hide Keep;
      var d := KeepPrefix(rest, scope, |page|);
      e := c + d;
      assert rest[..d] == log[c..e];
    }
  }

  lemma PageCut(log: seq<Row>, hi: nat, scope: Row -> bool, limit: nat) returns (e: nat)
    requires Log(log)
    ensures var page, c := Page(log, hi, limit, scope), Cut(log, hi);
      && c <= e == Cut(log, Last(page, hi)) && Keep(log[c..e], scope) == page
      && (page != [] ==> hi < Last(page, hi) <= High(log))
  {
    hide Keep;
    hide Page;
    e := PageReach(log, hi, scope, limit);
    if e > Cut(log, hi) {
      CutIs(log, log[e - 1].seqno, e);
      CutSplits(log, hi, e - 1);
    }
  }

  lemma BetweenSplit(log: seq<Row>, lo: nat, mid: nat, hi: nat, scope: Row -> bool)
    requires Log(log) && lo <= mid <= hi
    ensures Between(log, lo, hi, scope) == Between(log, lo, mid, scope) + Between(log, mid, hi, scope)
  {
    hide Keep;
    var a, b, c := Cut(log, lo), Cut(log, mid), Cut(log, hi);
    CutOrdered(log, lo, mid);
    CutOrdered(log, mid, hi);
    assert log[a..c] == log[a..b] + log[b..c];
    KeepConcat(log[a..b], log[b..c], scope);
  }

  // Writing a page moves the position to the page's last row.
  lemma PageWritten(log: seq<Row>, lo: nat, hi: nat, scope: Row -> bool, limit: nat)
    requires Log(log) && lo <= hi <= High(log)
    ensures
      var page := Page(log, hi, limit, scope);
      && hi <= Last(page, hi) <= High(log)
      && Between(log, lo, Last(page, hi), scope) == Between(log, lo, hi, scope) + page
  {
    hide Keep;
    hide Page;
    var page := Page(log, hi, limit, scope);
    var e := PageCut(log, hi, scope, limit);
    BetweenSplit(log, lo, hi, Last(page, hi), scope);
  }

  /** A short page is the last: moving on to a mark the log had reached by then skips nothing. */
  lemma MarkSkipsNothing(log: seq<Row>, lo: nat, hi: nat, scope: Row -> bool, limit: nat, mark: nat)
    requires Log(log) && |Page(log, hi, limit, scope)| < limit
    requires lo <= Last(Page(log, hi, limit, scope), hi) < mark <= High(log)
    ensures Between(log, lo, mark, scope) == Between(log, lo, Last(Page(log, hi, limit, scope), hi), scope)
  {
    hide Keep;
    hide Between;
    hide Page;
    var last := Last(Page(log, hi, limit, scope), hi);
    NothingPast(log, hi, last, scope, limit);
    BetweenSplit(log, lo, last, mark, scope);
    CutOrdered(log, last, mark);
    BetweenNone(log, last, mark, scope);
  }

  lemma BetweenNone(log: seq<Row>, lo: nat, hi: nat, scope: Row -> bool)
    requires forall x :: x in log[Cut(log, lo)..] ==> !scope(x)
    ensures Between(log, lo, hi, scope) == []
  {
    if Cut(log, lo) <= Cut(log, hi) {
      var mid := log[Cut(log, lo)..Cut(log, hi)];
      forall x | x in mid ensures !scope(x) { assert x in log[Cut(log, lo)..]; }
      KeepNone(mid, scope);
    }
  }

  // Behind the last row of a short page nothing is in scope.
  lemma NothingPast(log: seq<Row>, hi: nat, last: nat, scope: Row -> bool, limit: nat)
    requires Log(log) && |Page(log, hi, limit, scope)| < limit
    requires last == Last(Page(log, hi, limit, scope), hi)
    ensures forall x :: x in log[Cut(log, last)..] ==> !scope(x)
  {
    hide Keep;
    var c := Cut(log, hi);
    var e := PageCut(log, hi, scope, limit);
    assert log[c..] == log[c..e] + log[e..];
    KeepConcat(log[c..e], log[e..], scope);
    assert Keep(log[e..], scope) == [];
    forall x | x in log[e..] ensures !scope(x) {
      NoneKept(log[e..], scope, x);
    }
  }

  lemma {:induction false} NoneKept(s: seq<Row>, p: Row -> bool, x: Row)
    requires Keep(s, p) == [] && x in s
    ensures !p(x)
    decreases |s|
  {
    if x != s[|s| - 1] {
      assert s == s[..|s| - 1] + [s[|s| - 1]];
      NoneKept(s[..|s| - 1], p, x);
    }
  }

  lemma PageBounded(log: seq<Row>, after: nat, limit: nat, scope: Row -> bool)
    ensures |Page(log, after, limit, scope)| <= limit
  {
  }

  // ---------------------------------------------------------------- the stream

  // The logs a wake's queries see, in the order it makes them.
  ghost predicate Grows(was: seq<Row>, reads_: seq<seq<Row>>) {
    && (forall k :: 0 <= k < |reads_| ==> Log(reads_[k]) && was <= reads_[k])
    && forall j, k :: 0 <= j < k < |reads_| ==> reads_[j] <= reads_[k]
  }

  class Stream {
    const scope: Row -> bool
    ghost const start: nat
    var lastSeq: nat
    var written: seq<Row>

    // Everything in scope between the start and the position is written, in order.
    ghost predicate Valid(log: seq<Row>)
      reads this
    {
      && Log(log) && start <= lastSeq <= High(log)
      && written == Between(log, start, lastSeq, scope)
    }

    // The position is snapshot once listening.
    constructor (log: seq<Row>, scope: Row -> bool)
      requires Log(log)
      ensures Valid(log) && start == High(log) && written == [] && this.scope == scope
    {
      this.scope := scope;
      start, lastSeq, written := High(log), High(log), [];
      new;
      CutIs(log, High(log), |log|);
      assert log[|log|..|log|] == [];
    }

    ghost method Later(log: seq<Row>, grown: seq<Row>)
      requires Valid(log) && Log(grown) && log <= grown
      ensures Valid(grown)
    {
      BetweenGrown(log, grown, start, lastSeq, scope);
    }

    // One page of the wake: its rows are written and, if it is short, the position takes the mark.
    method WritePage(log: seq<Row>, upTo: nat) returns (short: bool)
      requires Valid(log) && upTo <= High(log)
      modifies this`lastSeq, this`written
      ensures Valid(log) && old(lastSeq) <= lastSeq && old(written) <= written
      ensures short ==> upTo <= lastSeq
      ensures !short ==> |written| == |old(written)| + sseWakeBatch
    {
      hide Between;
      hide Page;
      PageBounded(log, lastSeq, sseWakeBatch, scope);
      var page := Page(log, lastSeq, sseWakeBatch, scope);
      PageWritten(log, start, lastSeq, scope, sseWakeBatch);
      short := |page| < sseWakeBatch;
      ghost var before := lastSeq;
      written := written + page;
      lastSeq := Last(page, lastSeq);
      if short && upTo > lastSeq {
        MarkSkipsNothing(log, start, before, scope, sseWakeBatch, upTo);
        lastSeq := upTo;
      }
    }

    /**
     One wake over logs that grow between its queries: looked[0] as the high-water
     mark is read, looked[k] as page k is. finished is false only when the queries
     run out, or one fails, with every page so far full.
     */
    method Wake(ghost was: seq<Row>, looked: seq<seq<Row>>) returns (finished: bool)
      requires Valid(was) && looked != [] && Grows(was, looked)
      modifies this`lastSeq, this`written
      ensures Valid(looked[|looked| - 1])
      ensures old(lastSeq) <= lastSeq && old(written) <= written
      ensures finished ==> High(looked[0]) <= lastSeq
      ensures !finished ==> |written| == |old(written)| + sseWakeBatch * (|looked| - 1)
    {
      hide Log;
      hide Between;
      var upTo := High(looked[0]);
      Later(was, looked[0]);
      finished := false;
      var k := 1;
      while k < |looked| && !finished
        invariant 1 <= k <= |looked|
        invariant Valid(looked[k - 1])
        invariant old(lastSeq) <= lastSeq && old(written) <= written
        invariant finished ==> upTo <= lastSeq
        invariant !finished ==> |written| == |old(written)| + sseWakeBatch * (k - 1)
        decreases |looked| - k
      {
        Later(looked[k - 1], looked[k]);
        BetweenGrown(looked[0], looked[k], 0, 0, scope);
        finished := WritePage(looked[k], upTo);
        k := k + 1;
      }
      if k < |looked| { Later(looked[k - 1], looked[|looked| - 1]); }
    }
  }

  // What a subscriber must have received of a log when the position is hi.
  ghost predicate ExactlyOnce(log: seq<Row>, start: nat, hi: nat, scope: Row -> bool, written: seq<Row>) {
    && (forall i, j :: 0 <= i < j < |written| ==> written[i].seqno < written[j].seqno)
    && forall x :: x in written <==> x in log && start < x.seqno <= hi && scope(x)
  }

  lemma {:induction false} KeptIn(s: seq<Row>, p: Row -> bool, x: Row)
    ensures x in Keep(s, p) <==> x in s && p(x)
    decreases |s|
  {
    if s != [] {
      KeptIn(s[..|s| - 1], p, x);
      assert s == s[..|s| - 1] + [s[|s| - 1]];
    }
  }

  lemma {:induction false} KeepAscends(s: seq<Row>, p: Row -> bool)
    requires Log(s)
    ensures forall i, j :: 0 <= i < j < |Keep(s, p)| ==> Keep(s, p)[i].seqno < Keep(s, p)[j].seqno
    decreases |s|
  {
    if s != [] {
      var short, last := s[..|s| - 1], s[|s| - 1];
      KeepAscends(short, p);
      forall i | 0 <= i < |Keep(short, p)| ensures Keep(short, p)[i].seqno < last.seqno {
        KeptIn(short, p, Keep(short, p)[i]);
      }
    }
  }

  lemma MiddleIs(log: seq<Row>, start: nat, hi: nat, x: Row)
    requires Log(log) && start <= hi && Cut(log, start) <= Cut(log, hi)
    ensures x in log[Cut(log, start)..Cut(log, hi)] <==> x in log && start < x.seqno <= hi
  {
    var a, b := Cut(log, start), Cut(log, hi);
    var mid := log[a..b];
    if x in log {
      var i :| 0 <= i < |log| && log[i] == x;
      CutSplits(log, start, i);
      CutSplits(log, hi, i);
      if start < x.seqno <= hi { assert mid[i - a] == x; }
    }
    if x in mid {
      var i :| 0 <= i < |mid| && mid[i] == x;
      assert log[a + i] == x;
      CutSplits(log, start, a + i);
      CutSplits(log, hi, a + i);
    }
  }

  /** Every in-scope row past the start and up to the position, once each, in seq order, and nothing else. */
  lemma BetweenIsExactlyOnce(log: seq<Row>, start: nat, hi: nat, scope: Row -> bool)
    requires Log(log) && start <= hi
    ensures ExactlyOnce(log, start, hi, scope, Between(log, start, hi, scope))
  {
    hide Keep, Cut;
    CutOrdered(log, start, hi);
    var mid := log[Cut(log, start)..Cut(log, hi)];
    KeepAscends(mid, scope);
    forall x ensures x in Keep(mid, scope) <==> x in log && start < x.seqno <= hi && scope(x) {
      MiddleIs(log, start, hi, x);
      KeptIn(mid, scope, x);
    }
  }

  ghost predicate GrowsOver(wakes: seq<seq<seq<Row>>>, was: seq<Row>) {
    && (forall w :: 0 <= w < |wakes| ==> wakes[w] != [] && Grows(was, wakes[w]))
    && forall v, w :: 0 <= v < w < |wakes| ==> Grows(wakes[v][|wakes[v]| - 1], wakes[w])
  }

  /**
   A whole subscription: after any number of wakes, each against an appender
   free between any two queries, the client holds exactly the in-scope rows
   between the start and the position; and a wake that finishes has put the
   position at or past everything committed before it read the mark.
   */
  method Follow(log: seq<Row>, scope: Row -> bool, wakes: seq<seq<seq<Row>>>)
    returns (written: seq<Row>, lastSeq: nat, finished: bool)
    requires Log(log) && GrowsOver(wakes, log)
    ensures
      var end := if wakes == [] then log else wakes[|wakes| - 1][|wakes[|wakes| - 1]| - 1];
      ExactlyOnce(end, High(log), lastSeq, scope, written)
    ensures finished && wakes != [] ==> High(wakes[|wakes| - 1][0]) <= lastSeq
  {
    hide Log;
    hide Between;
    hide Grows;
    var stream := new Stream(log, scope);
    ghost var now := log;
    finished := true;
    for w := 0 to |wakes|
      invariant stream.Valid(now) && stream.start == High(log) && stream.scope == scope
      invariant now == if w == 0 then log else wakes[w - 1][|wakes[w - 1]| - 1]
      invariant w > 0 && finished ==> High(wakes[w - 1][0]) <= stream.lastSeq
    {
      finished := stream.Wake(now, wakes[w]);
      now := wakes[w][|wakes[w]| - 1];
    }
    BetweenIsExactlyOnce(now, stream.start, stream.lastSeq, scope);
    written, lastSeq := stream.written, stream.lastSeq;
  }
}
