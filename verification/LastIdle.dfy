/** One session.status_idle per commit: the last, with the fold of its moment (internal/api/events.go:1322-1350). */
module LastIdle {
  import opened Rows
  import opened EventModel

  predicate Idle(e: Event) {
    e.kind.SessionIdle?
  }

  predicate NotIdle(e: Event) {
    !Idle(e)
  }

  // at is the last idle of the batch, -1 for none.
  ghost predicate IsLast(batch: seq<Event>, at: int) {
    && -1 <= at < |batch|
    && (at >= 0 ==> Idle(batch[at]))
    && forall i :: at < i < |batch| ==> !Idle(batch[i])
  }

  ghost predicate AllRestated(batch: seq<Event>) {
    forall i :: 0 <= i < |batch| && Idle(batch[i]) ==> batch[i].restated
  }

  method FindLast(batch: seq<Event>) returns (last: int, restated: bool)
    ensures IsLast(batch, last) && (restated <==> AllRestated(batch))
  {
    last, restated := -1, true;
    for i := 0 to |batch|
      invariant IsLast(batch[..i], last) && (restated <==> AllRestated(batch[..i]))
    {
      if Idle(batch[i]) { last, restated := i, restated && batch[i].restated; }
    }
    assert batch[..|batch|] == batch;
  }

  // The batch with its last idle in its place, restated or not, and no other idle.
  function Kept(batch: seq<Event>, at: nat, restated: bool): seq<Event>
    requires at < |batch|
  {
    Keep(batch[..at], NotIdle) + [batch[at].(restated := restated)] + batch[at + 1..]
  }

  lemma KeepNext(batch: seq<Event>, i: nat)
    requires i < |batch|
    ensures Keep(batch[..i + 1], NotIdle) == Keep(batch[..i], NotIdle) + (if Idle(batch[i]) then [] else [batch[i]])
  {
    assert batch[..i + 1][..i] == batch[..i];
  }

  method DropOthers(batch: seq<Event>, last: nat, restated: bool) returns (kept: seq<Event>)
    requires last < |batch| && IsLast(batch, last)
    ensures kept == Kept(batch, last, restated)
  {
    hide Keep;
    kept := [];
    KeepNone(batch[..0], NotIdle);
    for i := 0 to |batch|
      invariant i <= last ==> kept == Keep(batch[..i], NotIdle)
      invariant last < i ==> kept == Keep(batch[..last], NotIdle) + [batch[last].(restated := restated)] + batch[last + 1..i]
    {
      KeepNext(batch, i);
      var ev := batch[i];
      if i == last { ev := ev.(restated := restated); }
      if NotIdle(batch[i]) || i == last { kept := kept + [ev]; }
    }
    assert batch[last + 1..|batch|] == batch[last + 1..];
  }

  /**
   Every other row stays, in order; of the idles only the last stays, in its
   place, and is a restatement only if all of them were.
   */
  method KeepLastSessionIdle(batch: seq<Event>) returns (kept: seq<Event>)
    ensures (forall i :: 0 <= i < |batch| ==> !Idle(batch[i])) ==> kept == batch
    ensures forall at: nat :: at < |batch| && IsLast(batch, at) ==> kept == Kept(batch, at, AllRestated(batch))
    ensures Keep(kept, NotIdle) == Keep(batch, NotIdle)
  {
    hide Keep;
    hide Kept;
    var last, restated := FindLast(batch);
    if last < 0 {
      return batch;
    }
    kept := DropOthers(batch, last, restated);
    Without(batch, last, restated);
  }

  lemma {:induction false} KeepTwice<T>(s: seq<T>, p: T -> bool)
    ensures Keep(Keep(s, p), p) == Keep(s, p)
  {
    if s != [] {
      var last := s[|s| - 1];
      KeepTwice(s[..|s| - 1], p);
      KeepConcat(Keep(s[..|s| - 1], p), if p(last) then [last] else [], p);
    }
  }

  lemma Without(batch: seq<Event>, at: nat, restated: bool)
    requires at < |batch| && Idle(batch[at])
    ensures Keep(Kept(batch, at, restated), NotIdle) == Keep(batch, NotIdle)
  {
    hide Keep;
    var a, b, ev := batch[..at], batch[at + 1..], batch[at].(restated := restated);
    assert batch == a + [batch[at]] + b;
    KeepConcat(Keep(a, NotIdle) + [ev], b, NotIdle);
    KeepConcat(Keep(a, NotIdle), [ev], NotIdle);
    KeepConcat(a + [batch[at]], b, NotIdle);
    KeepConcat(a, [batch[at]], NotIdle);
    KeepTwice(a, NotIdle);
    KeepNone([ev], NotIdle);
    KeepNone([batch[at]], NotIdle);
  }
}
