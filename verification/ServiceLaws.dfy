/** What each operation of the agent service does and answers, told by the stored agents alone. */
module ServiceLaws {
  import opened Wrappers
  import opened Registry
  import opened Stores
  import opened Agreement

  // ---------------------------------------------------------------------------
  // Heartbeats

  /** A heartbeat is taken from every known agent that is not disconnected, and makes it healthy. */
  lemma HeartbeatMeans(m: Mem, t: Timeouts, id: AgentId, pvcs: seq<Pvc>, now: int)
    ensures var op := Heartbeat(id, pvcs, now);
            if id in m && m[id].state != Disconnected then
              && Step(m, t, op)
                 == m[id := m[id].(state := Healthy, healthy := true, lastHeartbeat := now, pvcs := pvcs)]
              && MemReply(m, t, op) == Acknowledged
            else Step(m, t, op) == m && MemReply(m, t, op) == Rejected
  {
  }

  /** The tables take it exactly if moreover the inventory names no claim twice. */
  lemma SqlHeartbeatMeans(s: Tables, t: Timeouts, id: AgentId, pvcs: seq<Pvc>, now: int)
    ensures var op, state := Heartbeat(id, pvcs, now), StateOf(s, id);
            if state.Some? && state.value != Disconnected && DistinctNames(pvcs) then
              && SqlReply(s, t, op) == Acknowledged
              && SqlStep(s, t, op).agents.Keys == s.agents.Keys
              && forall node :: node in s.agents ==>
                   SqlStep(s, t, op).agents[node] ==
                   if s.agents[node].id == id
                   then s.agents[node].(state := Healthy, healthy := true, lastHeartbeat := now) else s.agents[node]
            else SqlReply(s, t, op) == Rejected && SqlStep(s, t, op) == s
  {
    InsertSucceeds(Without(s.pvcs, id), id, pvcs);
  }

  /** Recovery: over either store an unhealthy agent that is heard from again is healthy. */
  lemma Recovers(s: Tables, m: Mem, t: Timeouts, id: AgentId, pvcs: seq<Pvc>, now: int)
    requires Inv(m) && Same(s, m) && id in m && m[id].state == Unhealthy && DistinctNames(pvcs)
    ensures var op := Heartbeat(id, pvcs, now);
            && MemReply(m, t, op) == SqlReply(s, t, op) == Acknowledged
            && Step(m, t, op)[id].state == Healthy && Step(m, t, op)[id].lastHeartbeat == now
            && StateOf(SqlStep(s, t, op), id) == Some(Healthy)
  {
    var op := Heartbeat(id, pvcs, now);
    HeartbeatMeans(m, t, id, pvcs, now);
    StepAgrees(s, m, t, op);
    HeartbeatStep(m, t, op);
    SameState(SqlStep(s, t, op), Step(m, t, op), id);
  }

  // ---------------------------------------------------------------------------
  // Registrations

  /** The first agent of a node is registered under a new identifier, if its tools are good. */
  lemma FirstRegistration(m: Mem, t: Timeouts, reg: Registration, newId: AgentId, now: int)
    requires newId !in m && forall id :: id in m ==> m[id].node != reg.node
    ensures var op := Register(reg, newId, now);
            if reg.toolsOk then
              && Step(m, t, op) == m[newId := Agent(newId, reg.node, Healthy, true, now, reg.tools, now, reg.pvcs,
                                                    reg.jwtNamespace)]
              && MemReply(m, t, op) == Registered(newId)
            else Step(m, t, op) == m && MemReply(m, t, op) == Rejected
  {
    assert ByNode(m, reg.node).None?;
    if reg.toolsOk {
      var a := Prepare(reg, None, newId, now).value;
      assert forall id :: id in m ==> !Displaced(m, a, id);
    }
  }

  /** A node that has an agent keeps it, with the namespace it is bound to; a good registration replaces the rest. */
  lemma Reregistration(m: Mem, t: Timeouts, reg: Registration, newId: AgentId, now: int, id: AgentId)
    requires Inv(m) && id in m && m[id].node == reg.node
    ensures var op := Register(reg, newId, now);
            if reg.toolsOk && (m[id].jwtNamespace == "" || m[id].jwtNamespace == reg.jwtNamespace) then
              && Step(m, t, op)
                 == m[id := Agent(id, reg.node, Healthy, true, now, reg.tools, m[id].registeredAt, reg.pvcs,
                                  reg.jwtNamespace)]
              && MemReply(m, t, op) == Registered(id)
            else Step(m, t, op) == m && MemReply(m, t, op) == Rejected
  {
    var op := Register(reg, newId, now);
    ByNodeUnique(m, reg.node, id);
    assert AgentOk(m[id], id);
    if Accepted(m, op) {
      PreparedExpected(m, t, op);
      UpsertIsPut(m, Prepare(reg, KnownOf(ByNode(m, reg.node)), newId, now).value);
    }
  }

  /** Good tools, and no agent of the node that is bound to another namespace. */
  ghost predicate Welcome(m: Mem, reg: Registration) {
    && reg.toolsOk
    && forall id :: id in m && m[id].node == reg.node ==>
         m[id].jwtNamespace == "" || m[id].jwtNamespace == reg.jwtNamespace
  }

  lemma WelcomeIsRegistered(m: Mem, t: Timeouts, reg: Registration, newId: AgentId, now: int)
    requires Inv(m) && newId !in m
    ensures MemReply(m, t, Register(reg, newId, now)).Registered? <==> Welcome(m, reg)
  {
    if id :| id in m && m[id].node == reg.node {
      Reregistration(m, t, reg, newId, now, id);
      forall j | j in m && m[j].node == reg.node
        ensures j == id
      {
        assert OnSameNode(m, id, j);
      }
    } else {
      FirstRegistration(m, t, reg, newId, now);
    }
  }

  // ---------------------------------------------------------------------------
  // Evaluations

  /** An evaluation changes nothing of an agent but its state and its health, by age alone. */
  lemma EvaluationMeans(m: Mem, t: Timeouts, now: int, id: AgentId)
    requires id in m
    ensures var a, a' := m[id], Step(m, t, Evaluation(now))[id];
            var late, gone := a.lastHeartbeat < now - t.unhealthy, a.lastHeartbeat < now - t.disconnected;
            match a.state
            case Healthy =>
              a' == if late && gone then a.(state := Disconnected, healthy := false)
                    else if late then a.(state := Unhealthy, healthy := false)
                    else a
            case Unhealthy => a' == if gone then a.(state := Disconnected, healthy := false) else a
            case _ => a' == a
  {
  }

  /** The transition table of agents, edge by edge. */
  lemma AgentEdges(from: AgentState, to: AgentState)
    ensures Edge(from, to) <==>
            || (from == Registering && (to == Healthy || to == Disconnected))
            || (from == Healthy && (to == Unhealthy || to == Registering))
            || (from == Unhealthy && (to == Healthy || to == Disconnected))
            || (from == Disconnected && to == Registering)
  {
  }
}
