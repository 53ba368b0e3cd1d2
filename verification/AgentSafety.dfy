/** No live deployment ever pins an archived agent. */
module AgentSafety {
  import opened Options
  import opened AgentPins

  // Agents that only gain versions, or appear, keep every pin and every open read.
  lemma AgentsGrow(s: State, t: State)
    requires Inv(s) && t.deps == s.deps && t.open == s.open
    requires forall a :: a in s.agents ==> a in t.agents && t.agents[a].archived == s.agents[a].archived && t.agents[a].version >= s.agents[a].version
    requires forall a :: a in t.agents ==> t.agents[a].version >= 1
    ensures Inv(t)
  {
  }

  lemma SameExclusive(s: State, t: State)
    requires t.open == s.open
    ensures forall a :: Exclusive(t, a) == Exclusive(s, a)
  {
  }

  lemma SamePins(s: State, t: State)
    requires t.deps == s.deps
    ensures forall a :: PinsLive(t, a) == PinsLive(s, a)
  {
  }

  // A transaction opened, or moved on, that keeps what it has read and clashes with no other's locks.
  ghost predicate Admits(s: State, tx: Tx, o: Open) {
    && OpenInv(s, o)
    && (o.Updating? ==> (tx in s.open && s.open[tx].Updating? && s.open[tx].dep == o.dep) || !DepHeld(s, o.dep))
    && (o.Archiving? ==> (tx in s.open && s.open[tx].Archiving? && s.open[tx].agent == o.agent) || (tx !in s.open && !AgentHeld(s, o.agent, {})))
    && (tx in s.open && s.open[tx].Archiving? ==> o.Archiving?)
  }

  lemma OpensKeep(s: State, tx: Tx, o: Open)
    requires Inv(s) && Admits(s, tx, o)
    ensures Inv(s.(open := s.open[tx := o]))
  {
    hide GoodPin;
    var t := s.(open := s.open[tx := o]);
    SamePins(s, t);
    forall x | x in t.open ensures OpenInv(t, t.open[x]) {
      OpenStill(s, tx, o, x);
    }
    assert PinsHold(t) by { PinsSame(s, t); }
    assert LocksInv(t) by { LocksStill(s, tx, o); }
  }

  lemma PinsSame(s: State, t: State)
    requires PinsHold(s) && t.deps == s.deps && t.agents == s.agents
    ensures PinsHold(t)
  {
  }

  lemma LocksStill(s: State, tx: Tx, o: Open)
    requires LocksInv(s) && Admits(s, tx, o)
    ensures LocksInv(s.(open := s.open[tx := o]))
  {
  }

  lemma OpenStill(s: State, tx: Tx, o: Open, x: Tx)
    requires Inv(s) && Admits(s, tx, o) && (x in s.open || x == tx)
    ensures var t := s.(open := s.open[tx := o]); OpenInv(t, t.open[x])
  {
  }

  // ---------------------------------------------------------------- ends

  lemma AbortKeeps(s: State, tx: Tx)
    requires Inv(s)
    ensures Inv(s.(open := s.open - {tx}))
  {
  }

  lemma FewerExclusive(s: State, t: State)
    requires forall x :: x in t.open ==> x in s.open && t.open[x] == s.open[x]
    ensures forall a :: Exclusive(t, a) ==> Exclusive(s, a)
  {
  }

  // A deployment's row written under its lock, pinning a live agent nobody is archiving.
  lemma WriteKeeps(s: State, dep: DepId, next: Deployment)
    requires Inv(s)
    requires forall t :: t in s.open && s.open[t].Updating? ==> s.open[t].dep != dep
    requires !next.archived ==> GoodPin(s, next.agent, next.version) && !Exclusive(s, next.agent)
    ensures Inv(s.(deps := s.deps[dep := next]))
  {
  }

  lemma CommitCreate(s: State, tx: Tx)
    requires Inv(s) && tx in s.open && s.open[tx].Creating?
    ensures Inv(CommitStep(s, tx))
  {
    hide LocksInv, PinsHold, GoodPin;
    var o, left := s.open[tx], s.(open := s.open - {tx});
    assert OpenInv(s, o);
    AbortKeeps(s, tx);
    if o.dep !in s.deps {
      FewerExclusive(s, left);
      GoodStill(s, left, o.agent, o.version);
      forall t | t in left.open && left.open[t].Updating? ensures left.open[t].dep != o.dep { assert OpenInv(left, left.open[t]); }
      WriteKeeps(left, o.dep, Deployment(o.agent, o.version, false));
    }
  }

  lemma GoodStill(s: State, t: State, agent: AgentId, version: nat)
    requires t.agents == s.agents && GoodPin(s, agent, version)
    ensures GoodPin(t, agent, version)
  {
  }

  lemma CommitUpdate(s: State, tx: Tx)
    requires Inv(s) && tx in s.open && s.open[tx].Updating?
    ensures Inv(CommitStep(s, tx))
  {
    hide PinsHold, GoodPin;
    var o, left := s.open[tx], s.(open := s.open - {tx});
    assert OpenInv(s, o);
    AbortKeeps(s, tx);
    if o.repin.Some? {
      FewerExclusive(s, left);
      GoodStill(s, left, o.repin.value.0, o.repin.value.1);
      WriteKeeps(left, o.dep, o.read.(agent := o.repin.value.0, version := o.repin.value.1));
    } else {
      assert s.deps[o.dep := o.read] == s.deps;
    }
  }

  /** The agent's exclusive lock and the count under it: nothing pinned it, and nothing could come to. */
  lemma CommitArchive(s: State, tx: Tx)
    requires Inv(s) && tx in s.open && s.open[tx].Archiving?
    ensures Inv(CommitStep(s, tx))
  {
    hide LocksInv;
    var o, left := s.open[tx], s.(open := s.open - {tx});
    assert OpenInv(s, o);
    AbortKeeps(s, tx);
    var t := CommitStep(s, tx);
    if t != s {
      assert s.agents[o.agent].archived || !PinsLive(s, o.agent);
      forall d | d in t.deps && !t.deps[d].archived ensures GoodPin(t, t.deps[d].agent, t.deps[d].version) {
        assert GoodPin(s, s.deps[d].agent, s.deps[d].version);
        assert PinsLive(s, s.deps[d].agent);
      }
      assert Exclusive(s, o.agent);
      forall x | x in t.open ensures OpenInv(t, t.open[x]) {
        assert OpenInv(s, s.open[x]) && OpenInv(left, left.open[x]);
        SameExclusive(left, t);
        SamePins(left, t);
      }
      assert LocksInv(t) by { LocksSame(left, t); }
    }
  }

  lemma LocksSame(s: State, t: State)
    requires LocksInv(s) && t.open == s.open
    requires forall a :: a in t.agents ==> a in s.agents && t.agents[a].version == s.agents[a].version
    ensures LocksInv(t)
  {
  }

  lemma CommitKeeps(s: State, tx: Tx)
    requires Inv(s)
    ensures Inv(CommitStep(s, tx))
  {
    hide Inv;
    if tx in s.open {
      match s.open[tx]
      case Creating(_, _, _) => CommitCreate(s, tx);
      case Updating(_, _, _) => CommitUpdate(s, tx);
      case Archiving(_, _) => CommitArchive(s, tx);
    }
  }

  // ---------------------------------------------------------------- every run

  lemma ResolveIsGood(s: State, agent: AgentId, pin: Option<nat>)
    requires LocksInv(s) && Resolve(s, agent, pin).Some?
    ensures GoodPin(s, agent, Resolve(s, agent, pin).value) && !Exclusive(s, agent)
  {
  }

  lemma OpenStepKeeps(s: State, a: Action)
    requires Inv(s) && (a.ResolveCreate? || a.LockDeployment? || a.ResolveRepin? || a.LockAgent? || a.CountPins?)
    ensures Inv(Step(s, a))
  {
    hide LocksInv, PinsHold, GoodPin, Resolve;
    var t := Step(s, a);
    if t != s {
      if a.ResolveCreate? || a.ResolveRepin? { ResolveIsGood(s, a.agent, a.pin); }
      if a.tx in s.open { assert OpenInv(s, s.open[a.tx]); }
      OpensKeep(s, a.tx, t.open[a.tx]);
    }
  }

  lemma ArchiveDeploymentKeeps(s: State, dep: DepId)
    requires Inv(s) && dep in s.deps && !DepHeld(s, dep)
    ensures Inv(s.(deps := s.deps[dep := s.deps[dep].(archived := true)]))
  {
  }

  lemma StepKeeps(s: State, a: Action)
    requires Inv(s)
    ensures Inv(Step(s, a))
  {
    hide Inv, CommitStep;
    match a
    case CreateAgent(agent) => AgentStepKeeps(s, a);
    case UpdateAgent(agent, expected) => AgentStepKeeps(s, a);
    case ArchiveDeployment(dep) => if dep in s.deps && !DepHeld(s, dep) { ArchiveDeploymentKeeps(s, dep); }
    case Commit(tx) => CommitKeeps(s, tx);
    case Abort(tx) => AbortKeeps(s, tx);
    case _ => OpenStepKeeps(s, a);
  }

  lemma AgentStepKeeps(s: State, a: Action)
    requires Inv(s) && (a.CreateAgent? || a.UpdateAgent?)
    ensures Inv(Step(s, a))
  {
    hide PinsHold, OpenInv;
    AgentsGrow(s, Step(s, a));
  }

  /** Over every interleaving of their locks, a live deployment pins a live agent at a version it has. */
  lemma {:induction false} LivePinsLive(acts: seq<Action>)
    ensures Inv(Run(acts))
    ensures var s := Run(acts); forall d :: d in s.deps && !s.deps[d].archived ==>
      && s.deps[d].agent in s.agents && !s.agents[s.deps[d].agent].archived
      && 1 <= s.deps[d].version <= s.agents[s.deps[d].agent].version
    decreases |acts|
  {
    hide Step, Inv;
    if acts == [] {
      EmptyHolds();
    } else {
      LivePinsLive(acts[..|acts| - 1]);
      StepKeeps(Run(acts[..|acts| - 1]), acts[|acts| - 1]);
    }
    PinsAre(Run(acts));
  }

  lemma PinsAre(s: State)
    requires Inv(s)
    ensures forall d :: d in s.deps && !s.deps[d].archived ==>
      && s.deps[d].agent in s.agents && !s.agents[s.deps[d].agent].archived
      && 1 <= s.deps[d].version <= s.agents[s.deps[d].agent].version
  {
    forall d | d in s.deps && !s.deps[d].archived ensures GoodPin(s, s.deps[d].agent, s.deps[d].version) { }
  }

  lemma EmptyHolds()
    ensures Inv(Empty)
  {
  }
}
