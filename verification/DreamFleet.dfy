/** All dreams together: the hold an in-place dream has on its store (internal/api/dreams.go:204-221). */
module DreamFleet {
  import opened Options
  import opened DreamLifecycle
  import opened DreamSafety

  type DreamId = string

  datatype Move =
    | Create(id: DreamId, createdAt: int, input: StoreId, inPlace: bool)
    | Act(id: DreamId, a: Action)

  // An unclosed dream naming the store as its target.
  predicate Holds(s: State, store: StoreId) {
    s.dream.target == Some(store) && !s.dream.closed
  }

  // dreams_target_hold_idx raises the violation the create answers with a refusal.
  function CreateStep(all: map<DreamId, State>, id: DreamId, createdAt: int, input: StoreId, inPlace: bool): map<DreamId, State> {
    if id in all || (inPlace && exists x :: x in all && Holds(all[x], input)) then all
    else all[id := Init(createdAt, input, inPlace)]
  }

  function FleetStep(all: map<DreamId, State>, m: Move): map<DreamId, State> {
    match m
    case Create(id, createdAt, input, inPlace) => CreateStep(all, id, createdAt, input, inPlace)
    case Act(id, a) => if id in all then all[id := Step(all[id], a)] else all
  }

  function FleetRun(moves: seq<Move>): map<DreamId, State> {
    if moves == [] then map[] else FleetStep(FleetRun(moves[..|moves| - 1]), moves[|moves| - 1])
  }

  ghost predicate FleetInv(all: map<DreamId, State>) {
    && (forall x :: x in all ==> Inv(all[x]))
    && forall x, y, store :: x in all && y in all && Holds(all[x], store) && Holds(all[y], store) ==> x == y
  }

  lemma StepHolds(s: State, a: Action, store: StoreId)
    requires Inv(s)
    ensures Inv(Step(s, a)) && (Holds(Step(s, a), store) ==> Holds(s, store))
  {
    hide Inv, Step;
    StepKeeps(s, a);
  }

  lemma FleetStepKeeps(all: map<DreamId, State>, m: Move)
    requires FleetInv(all)
    ensures FleetInv(FleetStep(all, m))
  {
    hide Inv, Step;
    var next := FleetStep(all, m);
    if m.Create? {
      InitHolds(m.createdAt, m.input, m.inPlace);
    } else {
      if m.id in all { StepHolds(all[m.id], m.a, ""); }
    }
    forall x, y, store | x in next && y in next && Holds(next[x], store) && Holds(next[y], store) ensures x == y {
      if m.Act? && m.id in all { StepHolds(all[m.id], m.a, store); }
      assert m.Act? ==> Holds(all[x], store) && Holds(all[y], store);
    }
  }

  /** Whatever is created, cancelled, run and closed, at most one unclosed in-place dream holds a store. */
  lemma {:induction false} OneHolder(moves: seq<Move>)
    ensures FleetInv(FleetRun(moves))
    decreases |moves|
  {
    hide FleetInv, FleetStep;
    if moves == [] {
      NoDreams();
    } else {
      OneHolder(moves[..|moves| - 1]);
      FleetStepKeeps(FleetRun(moves[..|moves| - 1]), moves[|moves| - 1]);
    }
  }

  lemma NoDreams()
    ensures FleetInv(map[])
  {
  }

  function FleetRunOn(all: map<DreamId, State>, moves: seq<Move>): map<DreamId, State> {
    if moves == [] then all else FleetStep(FleetRunOn(all, moves[..|moves| - 1]), moves[|moves| - 1])
  }

  lemma HoldsOn(all: map<DreamId, State>, m: Move, x: DreamId, store: StoreId)
    requires FleetInv(all) && x in all && (Holds(all[x], store) || all[x].dream.closed)
    ensures var next := FleetStep(all, m); x in next && (Holds(next[x], store) || next[x].dream.closed)
    ensures all[x].dream.closed ==> FleetStep(all, m)[x].dream.closed
  {
    hide Inv, Step;
    if m.Act? && m.id == x { StepKeeps(all[x], m.a); }
  }

  /**
   A hold lasts until its dream closes: whatever is done to any dream in between,
   the store's holder is that dream and no other, so every in-place create for
   the store is refused until then.
   */
  lemma {:induction false} HeldUntilClosed(all: map<DreamId, State>, moves: seq<Move>, x: DreamId, store: StoreId)
    requires FleetInv(all) && x in all && Holds(all[x], store)
    ensures var end := FleetRunOn(all, moves);
      && FleetInv(end) && x in end
      && (end[x].dream.closed || (Holds(end[x], store) && forall y :: y in end && Holds(end[y], store) ==> y == x))
    decreases |moves|
  {
    hide FleetStep;
    if moves != [] {
      var before, m := FleetRunOn(all, moves[..|moves| - 1]), moves[|moves| - 1];
      HeldUntilClosed(all, moves[..|moves| - 1], x, store);
      HoldsOn(before, m, x, store);
      FleetStepKeeps(before, m);
    }
  }

  // Some dream not yet closed writes to the store in place.
  ghost predicate Held(all: map<DreamId, State>, store: StoreId) {
    exists x :: x in all && all[x].dream.target == Some(store) && !all[x].dream.closed
  }

  predicate Created(d: Dream, at: int, input: StoreId, target: Option<StoreId>) {
    d == Dream(Pending, 0, 0, at, at, false, false, input, target, [], None, false, {})
  }

  /**
   A create is refused exactly for a store held in place, and only in place: a
   copying dream is never refused and never holds. What it adds is pending, open
   and has nothing yet, and no other dream moves.
   */
  lemma CreatesExactly(all: map<DreamId, State>, id: DreamId, createdAt: int, input: StoreId, inPlace: bool)
    requires id !in all
    ensures var next := FleetStep(all, Create(id, createdAt, input, inPlace));
      && (id !in next <==> inPlace && Held(all, input))
      && (id !in next ==> next == all)
      && (id in next ==> next == all[id := next[id]] && Created(next[id].dream, createdAt, input, if inPlace then Some(input) else None))
      && (id in next ==> (Held(next, input) <==> Held(all, input) || inPlace))
  {
    var next := FleetStep(all, Create(id, createdAt, input, inPlace));
    if id in next {
      assert next[id] == Init(createdAt, input, inPlace);
      forall x | x in all ensures x in next && next[x] == all[x] {}
      if inPlace { assert next[id].dream.target == Some(input) && !next[id].dream.closed; }
      if x :| x in all && all[x].dream.target == Some(input) && !all[x].dream.closed { assert next[x] == all[x]; }
      if x :| x in next && next[x].dream.target == Some(input) && !next[x].dream.closed && x != id { assert all[x] == next[x]; }
    }
  }
}
