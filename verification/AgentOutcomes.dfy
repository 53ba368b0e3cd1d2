/** What each route does to agents and pins when nothing stands in its way, and what it refuses. */
module AgentOutcomes {
  import opened Options
  import opened AgentPins

  // An agent a deployment can be pinned to now: there, live, and not being archived.
  predicate Pinnable(s: State, agent: AgentId) {
    agent in s.agents && !s.agents[agent].archived && forall t :: t in s.open && s.open[t].Archiving? ==> s.open[t].agent != agent
  }

  // The version a body's agent names: the one it says, if the agent has it, and the latest if it says none.
  predicate Named(a: Agent, pin: Option<nat>, version: nat) {
    if pin.None? then version == a.version else version == pin.value && 1 <= version <= a.version
  }

  /** A create pins exactly the version its body names, on a live agent nobody is archiving; anything else is refused. */
  lemma CreatePins(s: State, tx: Tx, dep: DepId, agent: AgentId, pin: Option<nat>, version: nat)
    requires tx !in s.open && dep !in s.deps
    ensures var end := Step(Step(s, ResolveCreate(tx, dep, agent, pin)), Commit(tx));
      && (Pinnable(s, agent) && Named(s.agents[agent], pin, version) ==> end == s.(deps := s.deps[dep := Deployment(agent, version, false)]))
      && (!Pinnable(s, agent) || (pin.Some? && !(1 <= pin.value <= s.agents[agent].version)) ==> end == s)
  {
    ResolvesExactly(s, agent, pin, version);
    assert (s.open[tx := Creating(dep, agent, version)]) - {tx} == s.open;
  }

  lemma ResolvesExactly(s: State, agent: AgentId, pin: Option<nat>, version: nat)
    ensures Resolve(s, agent, pin) == Some(version) <==> Pinnable(s, agent) && Named(s.agents[agent], pin, version)
    ensures Resolve(s, agent, pin).None? <==> !Pinnable(s, agent) || (pin.Some? && !(1 <= pin.value <= s.agents[agent].version))
  {
  }

  /** An update with an agent repins to what it names; one without leaves the pin as it was. */
  lemma UpdateRepins(s: State, tx: Tx, dep: DepId, agent: AgentId, pin: Option<nat>, version: nat)
    requires tx !in s.open && dep in s.deps && !s.deps[dep].archived && !DepHeld(s, dep)
    ensures var locked := Step(s, LockDeployment(tx, dep));
      && Step(locked, Commit(tx)) == s
      && (Pinnable(s, agent) && Named(s.agents[agent], pin, version) ==>
            Step(Step(locked, ResolveRepin(tx, agent, pin)), Commit(tx)) == s.(deps := s.deps[dep := Deployment(agent, version, false)]))
      && (!Pinnable(s, agent) ==> Step(locked, ResolveRepin(tx, agent, pin)) == locked)
  {
    var locked := Step(s, LockDeployment(tx, dep));
    assert locked == s.(open := s.open[tx := Updating(dep, s.deps[dep], None)]);
    assert Pinnable(locked, agent) == Pinnable(s, agent) by {
      forall t | t in s.open ensures locked.open[t] == s.open[t] { }
    }
    ResolvesExactly(locked, agent, pin, version);
    assert s.deps[dep := s.deps[dep]] == s.deps && locked.open - {tx} == s.open;
    var repinned := Step(locked, ResolveRepin(tx, agent, pin));
    assert repinned.open - {tx} == s.open;
  }

  // A live deployment pins the agent.
  predicate PinnedLive(s: State, agent: AgentId) {
    exists d :: d in s.deps && !s.deps[d].archived && s.deps[d].agent == agent
  }

  /** An agent nobody holds is archived exactly when no live deployment pins it. */
  lemma AgentArchivedExactly(s: State, tx: Tx, agent: AgentId)
    requires tx !in s.open && agent in s.agents && !s.agents[agent].archived && !AgentHeld(s, agent, {})
    ensures var end := Step(Step(Step(s, LockAgent(tx, agent)), CountPins(tx)), Commit(tx));
      && agent in end.agents && (end.agents[agent].archived <==> !PinnedLive(s, agent))
      && (!PinnedLive(s, agent) ==> end == s.(agents := s.agents[agent := s.agents[agent].(archived := true)]))
  {
    var locked := Step(s, LockAgent(tx, agent));
    assert locked == s.(open := s.open[tx := Archiving(agent, false)]);
    assert PinsLive(locked, agent) == PinnedLive(s, agent);
    var counted := Step(locked, CountPins(tx));
    assert counted.open - {tx} == s.open;
  }

  /** A deployment is archived unless an update holds it; an agent's version goes up by one, and only from the version its caller read. */
  lemma RowsMove(s: State, dep: DepId, agent: AgentId, expected: Option<nat>)
    ensures dep in s.deps && !DepHeld(s, dep) ==>
      Step(s, ArchiveDeployment(dep)) == s.(deps := s.deps[dep := s.deps[dep].(archived := true)])
    ensures agent in s.agents && !s.agents[agent].archived && !AgentHeld(s, agent, {}) && (expected.Some? ==> expected.value == s.agents[agent].version) ==>
      Step(s, UpdateAgent(agent, expected)) == s.(agents := s.agents[agent := Agent(s.agents[agent].version + 1, false)])
    ensures agent in s.agents && (s.agents[agent].archived || (expected.Some? && expected.value != s.agents[agent].version)) ==>
      Step(s, UpdateAgent(agent, expected)) == s
  {
  }
}
