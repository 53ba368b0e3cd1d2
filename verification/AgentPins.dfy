/**
 Agents and the deployments that pin them, at the level of row locks
 (internal/api/agents.go:717-820, internal/api/deploymentparse.go:145-246,
 internal/api/deployments.go:201-214, 601-610).
 */
module AgentPins {
  import opened Options

  type AgentId = string
  type DepId = string
  type Tx = nat

  datatype Agent = Agent(version: nat, archived: bool)
  datatype Deployment = Deployment(agent: AgentId, version: nat, archived: bool)

  /**
   Open transactions and the locks they hold to their end.
   Creating: a create holding its agent FOR SHARE. Updating: an update holding
   its deployment FOR UPDATE, with the row it read; repin, once the body's agent
   has been resolved, holds that agent FOR SHARE too. Archiving: an agent archive
   holding the agent FOR UPDATE; counted, once it has found no live deployment pinning it.
   */
  datatype Open =
    | Creating(dep: DepId, agent: AgentId, version: nat)
    | Updating(dep: DepId, read: Deployment, repin: Option<(AgentId, nat)>)
    | Archiving(agent: AgentId, counted: bool)

  datatype State = State(agents: map<AgentId, Agent>, deps: map<DepId, Deployment>, open: map<Tx, Open>)

  datatype Action =
    | CreateAgent(agent: AgentId)
    | UpdateAgent(agent: AgentId, expected: Option<nat>)
    | ResolveCreate(tx: Tx, dep: DepId, agent: AgentId, pin: Option<nat>)
    | LockDeployment(tx: Tx, dep: DepId)
    | ResolveRepin(tx: Tx, agent: AgentId, pin: Option<nat>)
    | ArchiveDeployment(dep: DepId)
    | LockAgent(tx: Tx, agent: AgentId)
    | CountPins(tx: Tx)
    | Commit(tx: Tx)
    | Abort(tx: Tx)

  const Empty: State := State(map[], map[], map[])

  predicate SharesAgent(o: Open, agent: AgentId) {
    (o.Creating? && o.agent == agent) || (o.Updating? && o.repin.Some? && o.repin.value.0 == agent)
  }

  predicate Exclusive(s: State, agent: AgentId) {
    exists t :: t in s.open && s.open[t].Archiving? && s.open[t].agent == agent
  }

  predicate AgentHeld(s: State, agent: AgentId, but: set<Tx>) {
    exists t :: t in s.open && t !in but && (SharesAgent(s.open[t], agent) || (s.open[t].Archiving? && s.open[t].agent == agent))
  }

  predicate DepHeld(s: State, dep: DepId) {
    exists t :: t in s.open && s.open[t].Updating? && s.open[t].dep == dep
  }

  // Versions of an agent are numbered from 1 without gaps.
  function Pinned(a: Agent, pin: Option<nat>): Option<nat> {
    if pin.None? then Some(a.version) else if 1 <= pin.value <= a.version then pin else None
  }

  // resolveDeploymentAgent, its shared lock granted: a live agent and an existing version.
  function Resolve(s: State, agent: AgentId, pin: Option<nat>): Option<nat> {
    if agent !in s.agents || Exclusive(s, agent) || s.agents[agent].archived then None
    else Pinned(s.agents[agent], pin)
  }

  predicate PinsLive(s: State, agent: AgentId) {
    exists d :: d in s.deps && !s.deps[d].archived && s.deps[d].agent == agent
  }

  function CommitStep(s: State, tx: Tx): State {
    if tx !in s.open then s
    else
      var left := s.(open := s.open - {tx});
      match s.open[tx]
      case Creating(dep, agent, version) =>
        if dep in s.deps then left else left.(deps := s.deps[dep := Deployment(agent, version, false)])
      case Updating(dep, read, repin) =>
        // One UPDATE of every column: without an agent in the body it writes back what it read.
        var next := if repin.Some? then read.(agent := repin.value.0, version := repin.value.1) else read;
        left.(deps := s.deps[dep := next])
      case Archiving(agent, counted) =>
        if agent in s.agents && (counted || s.agents[agent].archived)
        then left.(agents := s.agents[agent := s.agents[agent].(archived := true)]) else s
  }

  function Step(s: State, a: Action): State {
    match a
    case CreateAgent(agent) =>
      if agent in s.agents then s else s.(agents := s.agents[agent := Agent(1, false)])
    case UpdateAgent(agent, expected) =>
      // updateAgent: the row's lock, a live agent, the version the caller read if it says one, and one more.
      if agent !in s.agents || s.agents[agent].archived || AgentHeld(s, agent, {}) then s
      else if expected.Some? && expected.value != s.agents[agent].version then s
      else s.(agents := s.agents[agent := s.agents[agent].(version := s.agents[agent].version + 1)])
    case ResolveCreate(tx, dep, agent, pin) =>
      if tx in s.open || Resolve(s, agent, pin).None? then s
      else s.(open := s.open[tx := Creating(dep, agent, Resolve(s, agent, pin).value)])
    case LockDeployment(tx, dep) =>
      if tx in s.open || dep !in s.deps || DepHeld(s, dep) || s.deps[dep].archived then s
      else s.(open := s.open[tx := Updating(dep, s.deps[dep], None)])
    case ResolveRepin(tx, agent, pin) =>
      if tx !in s.open || !s.open[tx].Updating? || s.open[tx].repin.Some? || Resolve(s, agent, pin).None? then s
      else s.(open := s.open[tx := s.open[tx].(repin := Some((agent, Resolve(s, agent, pin).value)))])
    case ArchiveDeployment(dep) =>
      if dep !in s.deps || DepHeld(s, dep) then s else s.(deps := s.deps[dep := s.deps[dep].(archived := true)])
    case LockAgent(tx, agent) =>
      if tx in s.open || agent !in s.agents || AgentHeld(s, agent, {}) then s
      else s.(open := s.open[tx := Archiving(agent, false)])
    case CountPins(tx) =>
      if tx !in s.open || !s.open[tx].Archiving? || PinsLive(s, s.open[tx].agent) then s
      else s.(open := s.open[tx := s.open[tx].(counted := true)])
    case Commit(tx) => CommitStep(s, tx)
    case Abort(tx) => s.(open := s.open - {tx})
  }

  function Run(acts: seq<Action>): State {
    if acts == [] then Empty else Step(Run(acts[..|acts| - 1]), acts[|acts| - 1])
  }

  // ---------------------------------------------------------------- what every state keeps

  // The promise: a live deployment pins a live agent, at a version it has.
  ghost predicate PinsHold(s: State) {
    forall d :: d in s.deps && !s.deps[d].archived ==> GoodPin(s, s.deps[d].agent, s.deps[d].version)
  }

  predicate GoodPin(s: State, agent: AgentId, version: nat) {
    agent in s.agents && !s.agents[agent].archived && 1 <= version <= s.agents[agent].version
  }

  // What an open transaction has read stays true while it holds its locks.
  ghost predicate OpenInv(s: State, o: Open) {
    match o
    case Creating(dep, agent, version) => GoodPin(s, agent, version) && !Exclusive(s, agent)
    case Updating(dep, read, repin) =>
      && dep in s.deps && s.deps[dep] == read && !read.archived
      && (repin.Some? ==> GoodPin(s, repin.value.0, repin.value.1) && !Exclusive(s, repin.value.0))
    case Archiving(agent, counted) => agent in s.agents && (counted ==> !PinsLive(s, agent))
  }

  ghost predicate LocksInv(s: State) {
    && (forall t, u :: t in s.open && u in s.open && s.open[t].Updating? && s.open[u].Updating? && s.open[t].dep == s.open[u].dep ==> t == u)
    && (forall t, u :: t in s.open && u in s.open && s.open[t].Archiving? && s.open[u].Archiving? && s.open[t].agent == s.open[u].agent ==> t == u)
    && forall a :: a in s.agents ==> s.agents[a].version >= 1
  }

  ghost predicate Inv(s: State) {
    PinsHold(s) && LocksInv(s) && forall t :: t in s.open ==> OpenInv(s, s.open[t])
  }
}
