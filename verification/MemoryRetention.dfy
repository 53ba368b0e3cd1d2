/** Pruning memory versions (internal/api/memoryretention.go:96-147). */
module MemoryRetention {

  // id: the row's id, by its place in id order.
  datatype Version = Version(id: nat, store: string, memory: string, createdAt: int)

  // ORDER BY created_at DESC, id DESC
  predicate Newer(a: Version, b: Version) {
    a.createdAt > b.createdAt || (a.createdAt == b.createdAt && a.id > b.id)
  }

  // The id is the primary key.
  ghost predicate Table(vs: set<Version>) {
    forall a, b :: a in vs && b in vs && a.id == b.id ==> a == b
  }

  function Lineage(vs: set<Version>, v: Version): set<Version> {
    set k | k in vs && k.store == v.store && k.memory == v.memory
  }

  ghost predicate IsNewest(vs: set<Version>, m: Version) {
    m in vs && forall k :: k in vs && k != m ==> Newer(m, k)
  }

  lemma {:induction false} NewestExists(vs: set<Version>)
    requires Table(vs) && vs != {}
    ensures exists m :: IsNewest(vs, m)
    decreases |vs|
  {
    var x :| x in vs;
    var rest := vs - {x};
    if rest == {} {
      assert vs == {x};
      assert IsNewest(vs, x);
    } else {
      NewestExists(rest);
      var m :| IsNewest(rest, m);
      NewerOfTwo(vs, x, m);
    }
  }

  lemma NewerOfTwo(vs: set<Version>, x: Version, m: Version)
    requires Table(vs) && x in vs && IsNewest(vs - {x}, m)
    ensures IsNewest(vs, x) || IsNewest(vs, m)
  {
    assert x.id != m.id;
    forall k | k in vs && k != x ensures k == m || Newer(m, k) { assert k in vs - {x}; }
  }

  ghost function Newest(vs: set<Version>): (m: Version)
    requires Table(vs) && vs != {}
    ensures IsNewest(vs, m)
  {
    NewestExists(vs);
    var m :| IsNewest(vs, m);
    m
  }

  // The subquery: ORDER BY ... LIMIT keep.
  ghost function Window(vs: set<Version>, keep: nat): (w: set<Version>)
    requires Table(vs)
    ensures w <= vs
    decreases keep
  {
    if keep == 0 || vs == {} then {}
    else
      var m := Newest(vs);
      {m} + Window(vs - {m}, keep - 1)
  }

  lemma {:induction false} WindowSize(vs: set<Version>, keep: nat)
    requires Table(vs)
    ensures |Window(vs, keep)| == if keep < |vs| then keep else |vs|
    decreases keep
  {
    hide IsNewest;
    if keep > 0 && vs != {} {
      var m := Newest(vs);
      WindowSize(vs - {m}, keep - 1);
      assert m !in Window(vs - {m}, keep - 1);
    }
  }

  lemma {:induction false} WindowAbove(vs: set<Version>, keep: nat, a: Version, b: Version)
    requires Table(vs) && a in Window(vs, keep) && b in vs && b !in Window(vs, keep)
    ensures Newer(a, b)
    decreases keep
  {
    hide Newer;
    var m := Newest(vs);
    if a != m { WindowAbove(vs - {m}, keep - 1, a, b); }
  }

  /** The window is the newest min(keep, size). */
  lemma WindowIsNewest(vs: set<Version>, keep: nat, b: Version)
    requires Table(vs)
    ensures |Window(vs, keep)| == if keep < |vs| then keep else |vs|
    ensures b in vs - Window(vs, keep) ==> forall a :: a in Window(vs, keep) ==> Newer(a, b)
  {
    hide Window, Newer;
    WindowSize(vs, keep);
    if b in vs - Window(vs, keep) {
      forall a | a in Window(vs, keep) ensures Newer(a, b) { WindowAbove(vs, keep, a, b); }
    }
  }

  // What the statement's WHERE spares.
  ghost predicate Spared(vs: set<Version>, heads: set<nat>, cutoff: int, keep: nat, v: Version)
    requires Table(vs)
  {
    v.createdAt >= cutoff || v.id in heads || v in Window(Lineage(vs, v), keep)
  }

  // The table behind one prune; cutoff is the database's now less the window.
  ghost function Prune(vs: set<Version>, heads: set<nat>, cutoff: int, keep: nat): (r: set<Version>)
    requires Table(vs)
    ensures r <= vs && Table(r)
  {
    set v | v in vs && Spared(vs, heads, cutoff, keep, v)
  }

  lemma NewestUnique(a: set<Version>, b: set<Version>)
    requires Table(a) && b <= a && a != {} && Newest(a) in b
    ensures Newest(b) == Newest(a)
  {
  }

  // A set between a window and its lineage has the same window.
  lemma {:induction false} WindowSame(a: set<Version>, b: set<Version>, keep: nat)
    requires Table(a) && Window(a, keep) <= b <= a
    ensures Window(b, keep) == Window(a, keep)
    decreases keep
  {
    hide IsNewest, Newer;
    if keep > 0 && a != {} {
      var m := Newest(a);
      var rest := Window(a - {m}, keep - 1);
      assert Window(a, keep) == {m} + rest;
      NewestUnique(a, b);
      assert rest <= b - {m};
      WindowSame(a - {m}, b - {m}, keep - 1);
    }
  }

  lemma LineagePruned(vs: set<Version>, heads: set<nat>, cutoff: int, keep: nat, v: Version)
    requires Table(vs)
    ensures Window(Lineage(Prune(vs, heads, cutoff, keep), v), keep) == Window(Lineage(vs, v), keep)
  {
    var all, left := Lineage(vs, v), Lineage(Prune(vs, heads, cutoff, keep), v);
    forall k | k in Window(all, keep) ensures k in left {
      assert Lineage(vs, k) == all;
    }
    WindowSame(all, left, keep);
  }

  /** No live head goes, every lineage keeps its newest min(keep, size), and of the rest exactly what is past the window goes. */
  lemma PruneExactly(vs: set<Version>, heads: set<nat>, cutoff: int, keep: nat, v: Version)
    requires Table(vs) && v in vs
    ensures v.id in heads ==> v in Prune(vs, heads, cutoff, keep)
    ensures Window(Lineage(vs, v), keep) <= Prune(vs, heads, cutoff, keep)
    ensures |Window(Lineage(vs, v), keep)| == if keep < |Lineage(vs, v)| then keep else |Lineage(vs, v)|
    ensures v !in Window(Lineage(vs, v), keep) ==> forall a :: a in Window(Lineage(vs, v), keep) ==>
      a.store == v.store && a.memory == v.memory && (a.createdAt > v.createdAt || (a.createdAt == v.createdAt && a.id > v.id))
    ensures v !in Prune(vs, heads, cutoff, keep)
      <==> v.createdAt < cutoff && v.id !in heads && v !in Window(Lineage(vs, v), keep)
    ensures keep > 0 ==> Lineage(Prune(vs, heads, cutoff, keep), v) != {}
  {
    var all := Lineage(vs, v);
    forall k | k in Window(all, keep) ensures k in Prune(vs, heads, cutoff, keep) {
      assert Lineage(vs, k) == all;
    }
    WindowIsNewest(all, keep, v);
    if keep > 0 {
      assert v in all;
      LineagePruned(vs, heads, cutoff, keep, v);
      var w := Window(all, keep);
      assert |w| > 0;
      assert w <= Lineage(Prune(vs, heads, cutoff, keep), v);
    }
  }

  /**
   Sweeps compose: an earlier sweep takes nothing a later one would have kept,
   and hides nothing from it. At one instant a second sweep changes nothing.
   */
  lemma PrunesCompose(vs: set<Version>, heads: set<nat>, early: int, late: int, keep: nat)
    requires Table(vs) && early <= late
    ensures Prune(Prune(vs, heads, early, keep), heads, late, keep) == Prune(vs, heads, late, keep)
  {
    var once := Prune(vs, heads, early, keep);
    var twice, direct := Prune(once, heads, late, keep), Prune(vs, heads, late, keep);
    forall v ensures v in twice <==> v in direct {
      LineagePruned(vs, heads, early, keep, v);
    }
  }

  // A ticker's sweeps, at instants that do not go back.
  ghost function Sweeps(vs: set<Version>, heads: set<nat>, cutoffs: seq<int>, keep: nat): (r: set<Version>)
    requires Table(vs)
    ensures r <= vs && Table(r)
    decreases |cutoffs|
  {
    if cutoffs == [] then vs
    else Prune(Sweeps(vs, heads, cutoffs[..|cutoffs| - 1], keep), heads, cutoffs[|cutoffs| - 1], keep)
  }

  /** With nothing written between them, any number of sweeps is the last one alone. */
  lemma {:induction false} SweepsAreTheLast(vs: set<Version>, heads: set<nat>, cutoffs: seq<int>, keep: nat)
    requires Table(vs) && cutoffs != [] && forall i, j :: 0 <= i < j < |cutoffs| ==> cutoffs[i] <= cutoffs[j]
    ensures Sweeps(vs, heads, cutoffs, keep) == Prune(vs, heads, cutoffs[|cutoffs| - 1], keep)
    decreases |cutoffs|
  {
    var before := cutoffs[..|cutoffs| - 1];
    if before == [] {
      assert Sweeps(vs, heads, before, keep) == vs;
    } else {
      SweepsAreTheLast(vs, heads, before, keep);
      PrunesCompose(vs, heads, cutoffs[|cutoffs| - 2], cutoffs[|cutoffs| - 1], keep);
    }
  }
}
