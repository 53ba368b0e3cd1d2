/** The stable sort of the send's input by cause, and the list it produces. */
module InputOrder {
  import opened EventModel
  import opened SendLayout

  // slices.SortStableFunc by cause: each row goes behind the rows of its own or an earlier cause.
  function SortByCause(s: seq<Input>): seq<Input> {
    if s == [] then [] else Insert(SortByCause(s[..|s| - 1]), s[|s| - 1])
  }

  function Insert(s: seq<Input>, x: Input): seq<Input> {
    if s == [] || s[|s| - 1].cause <= x.cause then s + [x]
    else Insert(s[..|s| - 1], x) + [s[|s| - 1]]
  }

  // The rows of one cause, in their order.
  function Bucket(s: seq<Input>, i: int): seq<Input> {
    if s == [] then []
    else Bucket(s[..|s| - 1], i) + (if s[|s| - 1].cause == i then [s[|s| - 1]] else [])
  }

  function Buckets(s: seq<Input>, k: nat): seq<Input> {
    if k == 0 then [] else Buckets(s, k - 1) + Bucket(s, k - 1)
  }

  ghost predicate Within(s: seq<Input>, lo: int, hi: int) {
    forall k :: 0 <= k < |s| ==> lo <= s[k].cause < hi
  }

  lemma {:induction false} BucketWithin(s: seq<Input>, i: int)
    ensures Within(Bucket(s, i), i, i + 1)
  {
    if s != [] { BucketWithin(s[..|s| - 1], i); }
  }

  lemma {:induction false} BucketsWithin(s: seq<Input>, k: nat)
    ensures Within(Buckets(s, k), 0, k)
    decreases k
  {
    if k > 0 {
      BucketsWithin(s, k - 1);
      BucketWithin(s, k - 1);
    }
  }

  // A row lands between what may precede it and what must follow it.
  lemma {:induction false} InsertBetween(a: seq<Input>, b: seq<Input>, x: Input)
    requires forall k :: 0 <= k < |a| ==> a[k].cause <= x.cause
    requires forall k :: 0 <= k < |b| ==> b[k].cause > x.cause
    ensures Insert(a + b, x) == a + [x] + b
    decreases |b|
  {
    if b == [] {
      assert a + b == a;
    } else {
      var short, last := b[..|b| - 1], b[|b| - 1];
      assert (a + b)[..|a + b| - 1] == a + short;
      InsertBetween(a, short, x);
      assert short + [last] == b;
      assert a + [x] + short + [last] == a + [x] + b;
    }
  }

  // The causes from i up to k, in order.
  function Span(s: seq<Input>, i: nat, k: nat): seq<Input>
    requires i <= k
    decreases k
  {
    if i == k then [] else Span(s, i, k - 1) + Bucket(s, k - 1)
  }

  lemma {:induction false} SpanWithin(s: seq<Input>, i: nat, k: nat)
    requires i <= k
    ensures Within(Span(s, i, k), i, k)
    decreases k
  {
    if i < k {
      SpanWithin(s, i, k - 1);
      BucketWithin(s, k - 1);
    }
  }

  lemma {:induction false} BucketsSplit(s: seq<Input>, i: nat, k: nat)
    requires i <= k
    ensures Buckets(s, k) == Buckets(s, i) + Span(s, i, k)
    decreases k
  {
    if i < k {
      BucketsSplit(s, i, k - 1);
      assert Buckets(s, i) + Span(s, i, k - 1) + Bucket(s, k - 1) == Buckets(s, i) + Span(s, i, k);
    } else {
      assert Span(s, i, k) == [];
    }
  }

  lemma BucketSnoc(s: seq<Input>, x: Input, i: int)
    ensures Bucket(s + [x], i) == Bucket(s, i) + (if x.cause == i then [x] else [])
  {
  }

  lemma {:induction false} BucketsBelow(s: seq<Input>, x: Input, k: nat)
    requires x.cause >= k
    ensures Buckets(s + [x], k) == Buckets(s, k)
    decreases k
  {
    if k > 0 {
      BucketsBelow(s, x, k - 1);
      BucketSnoc(s, x, k - 1);
    }
  }

  lemma {:induction false} SpanAbove(s: seq<Input>, x: Input, i: nat, k: nat)
    requires x.cause < i <= k
    ensures Span(s + [x], i, k) == Span(s, i, k)
    decreases k
  {
    if i < k {
      SpanAbove(s, x, i, k - 1);
      BucketSnoc(s, x, k - 1);
    }
  }

  lemma InsertIntoBuckets(s: seq<Input>, x: Input, n: nat)
    requires 0 <= x.cause < n
    ensures Insert(Buckets(s, n), x) == Buckets(s + [x], n)
  {
    hide Insert, Bucket, Buckets, Span;
    var c: nat := x.cause;
    var low, high := Buckets(s, c + 1), Span(s, c + 1, n);
    BucketsSplit(s, c + 1, n);
    BucketsWithin(s, c + 1);
    SpanWithin(s, c + 1, n);
    InsertBetween(low, high, x);
    BucketsSplit(s + [x], c + 1, n);
    SpanAbove(s, x, c + 1, n);
    OwnBucket(s, x);
  }

  lemma OwnBucket(s: seq<Input>, x: Input)
    requires 0 <= x.cause
    ensures Buckets(s + [x], x.cause + 1) == Buckets(s, x.cause + 1) + [x]
  {
    var c: nat := x.cause;
    BucketsBelow(s, x, c);
    BucketSnoc(s, x, c);
    assert Buckets(s, c) + (Bucket(s, c) + [x]) == Buckets(s, c) + Bucket(s, c) + [x];
  }

  /** A stable sort by cause lists the causes in turn, each cause's rows as they came. */
  lemma {:induction false} StableByCause(s: seq<Input>, n: nat)
    requires Within(s, 0, n)
    ensures SortByCause(s) == Buckets(s, n)
    decreases |s|
  {
    if s == [] {
      EmptyBuckets(n);
    } else {
      var short, last := s[..|s| - 1], s[|s| - 1];
      StableByCause(short, n);
      InsertIntoBuckets(short, last, n);
      assert short + [last] == s;
    }
  }

  lemma {:induction false} EmptyBuckets(n: nat)
    ensures Buckets([], n) == []
  {
    if n > 0 { EmptyBuckets(n - 1); }
  }

  // ---------------------------------------------------------------- the send's input

  function PostedInputs(l: Layout, k: nat): seq<Input>
    requires k <= |l.posted|
  {
    if k == 0 then [] else PostedInputs(l, k - 1) + PostedInput(l, k - 1)
  }

  function DeliveredInputs(delivered: seq<DeliveredRow>): seq<Input> {
    if delivered == [] then []
    else
      var d := delivered[|delivered| - 1];
      DeliveredInputs(delivered[..|delivered| - 1]) + [Input(d.cause, d.row.thread, d.row, false)]
  }

  lemma {:induction false} BucketConcat(a: seq<Input>, b: seq<Input>, i: int)
    ensures Bucket(a + b, i) == Bucket(a, i) + Bucket(b, i)
    decreases |b|
  {
    if b == [] {
      assert a + b == a;
    } else {
      assert (a + b)[..|a + b| - 1] == a + b[..|b| - 1];
      BucketConcat(a, b[..|b| - 1], i);
      var last := b[|b| - 1];
      var tail := if last.cause == i then [last] else [];
      assert Bucket(a + b, i) == Bucket(a, i) + Bucket(b[..|b| - 1], i) + tail;
    }
  }

  lemma {:induction false} PostedBucket(l: Layout, k: nat, i: nat)
    requires k <= |l.posted| && i < |l.posted|
    ensures Bucket(PostedInputs(l, k), i) == if i < k then PostedInput(l, i) else []
    decreases k
  {
    hide Bucket, PostedInput;
    if k > 0 {
      PostedBucket(l, k - 1, i);
      PostedCause(l, k - 1);
      OneBucket(PostedInput(l, k - 1), i, k - 1);
      BucketConcat(PostedInputs(l, k - 1), PostedInput(l, k - 1), i);
    } else {
      NoBucket(i);
    }
  }

  lemma NoBucket(i: int)
    ensures Bucket([], i) == []
  {
  }

  lemma PostedCause(l: Layout, k: nat)
    requires k < |l.posted|
    ensures |PostedInput(l, k)| <= 1 && forall x :: x in PostedInput(l, k) ==> x.cause == k
  {
  }

  lemma OneBucket(s: seq<Input>, i: int, k: int)
    requires |s| <= 1 && forall x :: x in s ==> x.cause == k
    ensures Bucket(s, i) == if i == k then s else []
  {
  }

  lemma {:induction false} DeliveredBucket(delivered: seq<DeliveredRow>, i: int)
    ensures Bucket(DeliveredInputs(delivered), i) == DeliveredBy(delivered, i)
    decreases |delivered|
  {
    if delivered != [] {
      var short, d := delivered[..|delivered| - 1], delivered[|delivered| - 1];
      DeliveredBucket(short, i);
      BucketSnoc(DeliveredInputs(short), Input(d.cause, d.row.thread, d.row, false), i);
    }
  }

  lemma {:induction false} BucketsAreInputs(l: Layout, k: nat)
    requires k <= |l.posted|
    ensures Buckets(PostedInputs(l, |l.posted|) + DeliveredInputs(l.delivered), k) == Inputs(l, k)
    decreases k
  {
    hide Bucket, PostedInputs, DeliveredInputs, PostedInput, DeliveredBy;
    if k > 0 {
      BucketsAreInputs(l, k - 1);
      BucketIsInput(l, k - 1);
      assert Inputs(l, k - 1) + PostedInput(l, k - 1) + DeliveredBy(l.delivered, k - 1)
          == Inputs(l, k - 1) + (PostedInput(l, k - 1) + DeliveredBy(l.delivered, k - 1));
    }
  }

  lemma BucketIsInput(l: Layout, i: nat)
    requires i < |l.posted|
    ensures Bucket(PostedInputs(l, |l.posted|) + DeliveredInputs(l.delivered), i)
         == PostedInput(l, i) + DeliveredBy(l.delivered, i)
  {
    hide *;
    BucketConcat(PostedInputs(l, |l.posted|), DeliveredInputs(l.delivered), i);
    PostedBucket(l, |l.posted|, i);
    DeliveredBucket(l.delivered, i);
  }

  lemma {:induction false} PostedWithin(l: Layout, k: nat)
    requires k <= |l.posted|
    ensures Within(PostedInputs(l, k), 0, k)
    decreases k
  {
    if k > 0 { PostedWithin(l, k - 1); }
  }

  lemma {:induction false} DeliveredWithin(delivered: seq<DeliveredRow>, n: nat)
    requires forall k :: 0 <= k < |delivered| ==> 0 <= delivered[k].cause < n
    ensures Within(DeliveredInputs(delivered), 0, n)
    decreases |delivered|
  {
    if delivered != [] { DeliveredWithin(delivered[..|delivered| - 1], n); }
  }

  /** Sorting the posted and then the delivered input by cause lists each row at the event that caused it. */
  lemma SortedInputs(l: Layout)
    requires Valid(l)
    ensures SortByCause(PostedInputs(l, |l.posted|) + DeliveredInputs(l.delivered)) == Inputs(l, |l.posted|)
  {
    var n := |l.posted|;
    PostedWithin(l, n);
    DeliveredWithin(l.delivered, n);
    StableByCause(PostedInputs(l, n) + DeliveredInputs(l.delivered), n);
    BucketsAreInputs(l, n);
  }
}
