/** Sequences and multisets shared by the event-log modules. */
module Rows {

  // The i-th list of a Go map of slices: a missing key reads as no rows.
  function At<T>(m: map<int, seq<T>>, i: int): seq<T> {
    if i in m then m[i] else []
  }

  function Keep<T>(s: seq<T>, p: T -> bool): seq<T> {
    if s == [] then []
    else Keep(s[..|s| - 1], p) + (if p(s[|s| - 1]) then [s[|s| - 1]] else [])
  }

  lemma {:induction false} KeepConcat<T>(a: seq<T>, b: seq<T>, p: T -> bool)
    ensures Keep(a + b, p) == Keep(a, p) + Keep(b, p)
  {
    if b == [] {
      assert a + b == a;
    } else {
      KeepConcat(a, b[..|b| - 1], p);
      assert (a + b)[..|a + b| - 1] == a + b[..|b| - 1];
    }
  }

  lemma {:induction false} KeepNone<T>(s: seq<T>, p: T -> bool)
    requires forall x :: x in s ==> !p(x)
    ensures Keep(s, p) == []
  {
    if s != [] {
      KeepNone(s[..|s| - 1], p);
    }
  }

  function Sum(h: seq<nat>): nat {
    if h == [] then 0 else Sum(h[..|h| - 1]) + h[|h| - 1]
  }

  // Taking one addend out of a sum.
  lemma {:induction false} SumWithout(h: seq<nat>, p: nat)
    requires p < |h|
    ensures Sum(h) == Sum(h[..p] + h[p + 1..]) + h[p]
  {
    var rest := h[..p] + h[p + 1..];
    if p == |h| - 1 {
      assert rest == h[..p];
    } else {
      var short := h[..|h| - 1];
      SumWithout(short, p);
      assert rest[..|rest| - 1] == short[..p] + short[p + 1..];
      assert rest[|rest| - 1] == h[|h| - 1];
    }
  }

  ghost predicate Injective(s: seq<nat>) {
    forall i, j :: 0 <= i < j < |s| ==> s[i] != s[j]
  }

  // Reading the addends through a one-to-one renumbering of the places.
  function Through<T>(h: seq<T>, at: seq<nat>): (r: seq<T>)
    requires forall i :: 0 <= i < |at| ==> at[i] < |h|
    ensures |r| == |at|
    ensures forall i :: 0 <= i < |at| ==> r[i] == h[at[i]]
  {
    seq(|at|, i requires 0 <= i < |at| => h[at[i]])
  }

  // A one-to-one map of [0, n) into itself is onto.
  lemma {:induction false} Onto(at: seq<nat>, x: nat)
    requires Injective(at)
    requires forall i :: 0 <= i < |at| ==> at[i] < |at|
    requires x < |at|
    ensures x in at
  {
    if x !in at {
      var image := set i | 0 <= i < |at| :: at[i];
      ImageSize(at);
      var room := Below(|at|) - {x};
      assert image <= room;
      SubsetSize(image, room);
    }
  }

  function Below(n: nat): (r: set<nat>)
    ensures |r| == n
    ensures forall y: nat :: y in r <==> y < n
  {
    if n == 0 then {} else Below(n - 1) + {n - 1}
  }

  lemma {:induction false} ImageSize(at: seq<nat>)
    requires Injective(at)
    ensures |set i | 0 <= i < |at| :: at[i]| == |at|
  {
    var image := set i | 0 <= i < |at| :: at[i];
    if at == [] {
      assert image == {};
    } else {
      var short := at[..|at| - 1];
      var rest := set i | 0 <= i < |short| :: short[i];
      ImageSize(short);
      var last := at[|at| - 1];
      assert last !in rest;
      assert image == rest + {last} by {
        forall y | y in image ensures y in rest + {last} {
          var i :| 0 <= i < |at| && at[i] == y;
          if i < |short| { assert short[i] == y; }
        }
        forall y | y in rest ensures y in image {
          var i :| 0 <= i < |short| && short[i] == y;
          assert at[i] == y;
        }
        assert at[|at| - 1] in image;
      }
    }
  }

  lemma {:induction false} SubsetSize<T>(a: set<T>, b: set<T>)
    requires a <= b
    ensures |a| <= |b|
  {
    assert b == a + (b - a);
  }

  // A sum does not depend on the order its addends are read in.
  lemma {:induction false} SumReindexed(h: seq<nat>, at: seq<nat>)
    requires |at| == |h|
    requires Injective(at)
    requires forall i :: 0 <= i < |at| ==> at[i] < |h|
    ensures Sum(Through(h, at)) == Sum(h)
    decreases |h|
  {
    hide Injective;
    var n := |h|;
    if n > 0 {
      Onto(at, n - 1);
      var p :| 0 <= p < n && at[p] == n - 1;
      SumReindexed(h[..n - 1], Removed(at, p));
      SumLast(h, at, p);
    } else {
      assert Through(h, at) == h;
    }
  }

  lemma SumLast(h: seq<nat>, at: seq<nat>, p: nat)
    requires |at| == |h| && Injective(at) && p < |at| && at[p] == |at| - 1
    requires forall i :: 0 <= i < |at| ==> at[i] < |h|
    ensures Sum(Through(h, at)) == Sum(Through(h[..|h| - 1], Removed(at, p))) + h[|h| - 1]
  {
    hide Sum, Injective;
    SumWithout(Through(h, at), p);
    ThroughRemoved(h, at, p);
  }

  lemma ThroughRemoved<T>(h: seq<T>, at: seq<nat>, p: nat)
    requires |at| == |h| && Injective(at) && p < |at|
    requires forall i :: 0 <= i < |at| ==> at[i] < |at|
    requires at[p] == |at| - 1
    ensures Through(h, at)[..p] + Through(h, at)[p + 1..] == Through(h[..|h| - 1], Removed(at, p))
  {
  }

  ghost function Removed(at: seq<nat>, p: nat): (r: seq<nat>)
    requires Injective(at) && p < |at|
    requires forall i :: 0 <= i < |at| ==> at[i] < |at|
    requires at[p] == |at| - 1
    ensures r == at[..p] + at[p + 1..]
    ensures Injective(r)
    ensures forall i :: 0 <= i < |r| ==> r[i] < |at| - 1
  {
    var r := at[..p] + at[p + 1..];
    assert forall i :: 0 <= i < |r| ==> r[i] == at[if i < p then i else i + 1];
    r
  }

  // How often a row occurs in a list.
  function N<T(==)>(s: seq<T>, x: T): nat {
    multiset(s)[x]
  }

  lemma NConcat<T>(a: seq<T>, b: seq<T>, x: T)
    ensures N(a + b, x) == N(a, x) + N(b, x)
  {
  }

  ghost predicate Distinct<T>(s: seq<T>) {
    forall i, j :: 0 <= i < j < |s| ==> s[i] != s[j]
  }

  ghost predicate Ascending(s: seq<int>) {
    forall i, j :: 0 <= i < j < |s| ==> s[i] < s[j]
  }

  // slices.Sort on a slice of distinct indices.
  function SortInts(s: seq<int>): (r: seq<int>)
    requires Distinct(s)
    ensures Ascending(r) && |r| == |s|
    ensures forall x :: x in r <==> x in s
  {
    if s == [] then []
    else
      assert s == s[..|s| - 1] + [s[|s| - 1]];
      InsertInt(SortInts(s[..|s| - 1]), s[|s| - 1])
  }

  function InsertInt(s: seq<int>, x: int): (r: seq<int>)
    requires Ascending(s) && x !in s
    ensures Ascending(r) && |r| == |s| + 1
    ensures forall y :: y in r <==> y == x || y in s
  {
    if s == [] || s[|s| - 1] < x then s + [x]
    else
      var short, last := s[..|s| - 1], s[|s| - 1];
      assert s == short + [last];
      var low := InsertInt(short, x);
      assert forall i :: 0 <= i < |low| ==> low[i] in low;
      low + [last]
  }

  lemma EmptyOrHasFirst(b: seq<int>)
    ensures b == [] || b[0] in b
  {
  }

  lemma Shorter(a: seq<int>, z: int)
    requires Ascending(a) && a != []
    ensures z in a ==> z <= a[|a| - 1]
    ensures z in a[..|a| - 1] <==> z in a && z != a[|a| - 1]
    ensures Ascending(a[..|a| - 1])
  {
  }

  lemma SameEnds(a: seq<int>, b: seq<int>)
    requires Ascending(a) && Ascending(b) && a != [] && forall x :: x in a <==> x in b
    ensures b != [] && a[|a| - 1] == b[|b| - 1]
  {
    EmptyOrHasFirst(a);
    var x, y := a[|a| - 1], b[|b| - 1];
    assert x in a && y in b;
    Shorter(a, y);
    Shorter(b, x);
  }

  // Two ascending lists of the same members are the same list.
  lemma {:induction false} AscendingUnique(a: seq<int>, b: seq<int>)
    requires Ascending(a) && Ascending(b)
    requires forall x :: x in a <==> x in b
    ensures a == b
    decreases |a|
  {
    if a == [] {
      EmptyOrHasFirst(b);
    } else {
      SameEnds(a, b);
      var a', b' := a[..|a| - 1], b[..|b| - 1];
      forall z ensures z in a' <==> z in b' {
        Shorter(a, z);
        Shorter(b, z);
      }
      AscendingUnique(a', b');
      assert a == a' + [a[|a| - 1]] && b == b' + [b[|b| - 1]];
    }
  }
}
