/** The agent stores and the agent service as they run, each operation equal to its function on values. */
module AgentService {
  import opened Wrappers
  import opened Registry
  import opened Stores
  import ServiceLaws

  // ---------------------------------------------------------------------------
  // The in-memory store

  ghost predicate PartlyMarked(
    before: Mem, agents: Mem, todo: set<AgentId>, from: AgentState, to: AgentState, cutoff: int)
  {
    && agents.Keys == before.Keys && todo <= before.Keys
    && (forall id :: id in before ==>
          agents[id] == if id in todo then before[id] else Marked(before[id], from, to, cutoff))
  }

  lemma MarkOneMore(
    before: Mem, agents: Mem, todo: set<AgentId>, from: AgentState, to: AgentState, cutoff: int, id: AgentId)
    requires id in todo && PartlyMarked(before, agents, todo, from, to, cutoff)
    ensures agents[id] == before[id]
    ensures PartlyMarked(before, agents[id := Marked(before[id], from, to, cutoff)], todo - {id}, from, to, cutoff)
  {
  }

  /** An ageing pass of which the agents in `todo` are left. */
  ghost predicate Partly(
    before: Mem, agents: Mem, todo: set<AgentId>, count: nat, from: AgentState, to: AgentState, cutoff: int)
  {
    && PartlyMarked(before, agents, todo, from, to, cutoff)
    && count == |StaleIds(before, from, cutoff) - todo|
  }

  lemma StaleLeft(before: Mem, todo: set<AgentId>, from: AgentState, cutoff: int, id: AgentId)
    requires id in todo && todo <= before.Keys
    ensures var all := StaleIds(before, from, cutoff);
            |all - (todo - {id})| == |all - todo| + if Stale(before[id], from, cutoff) then 1 else 0
  {
    var all := StaleIds(before, from, cutoff);
    if id in all {
      assert all - (todo - {id}) == all - todo + {id};
    } else {
      assert all - (todo - {id}) == all - todo;
    }
  }

  lemma PartlyStep(
    before: Mem, agents: Mem, todo: set<AgentId>, count: nat, from: AgentState, to: AgentState, cutoff: int,
    id: AgentId)
    requires id in todo && Partly(before, agents, todo, count, from, to, cutoff)
    ensures id in agents
    ensures var a := agents[id];
            var stale := a.state == from && a.lastHeartbeat < cutoff;
            Partly(
              before, if stale then agents[id := a.(state := to, healthy := false)] else agents, todo - {id},
              if stale then count + 1 else count, from, to, cutoff)
  {
    StaleLeft(before, todo, from, cutoff, id);
    MarkOneMore(before, agents, todo, from, to, cutoff, id);
    assert agents[id := agents[id]] == agents;
  }

  lemma PartlyStart(m: Mem, from: AgentState, to: AgentState, cutoff: int)
    ensures Partly(m, m, m.Keys, 0, from, to, cutoff)
  {
    assert StaleIds(m, from, cutoff) - m.Keys == {};
  }

  lemma PartlyEnd(before: Mem, agents: Mem, count: nat, from: AgentState, to: AgentState, cutoff: int)
    requires Partly(before, agents, {}, count, from, to, cutoff)
    ensures agents == Mark(before, from, to, cutoff) && count == |StaleIds(before, from, cutoff)|
  {
    assert StaleIds(before, from, cutoff) - {} == StaleIds(before, from, cutoff);
  }

  class MemRepo {
    var agents: map<AgentId, Agent>

    constructor ()
      ensures agents == map[]
    {
      agents := map[];
    }

    method UpsertAgent(a: Agent)
      modifies this
      ensures agents == Upsert(old(agents), a)
    {
      var todo := agents.Keys;
      while todo != {}
        invariant todo <= agents.Keys <= old(agents).Keys
        invariant forall id :: id in old(agents) ==> (id in agents <==> id in todo || !Displaced(old(agents), a, id))
        invariant forall id :: id in agents ==> agents[id] == old(agents)[id]
        decreases |todo|
      {
        var id :| id in todo;
        todo := todo - {id};
        if agents[id].node == a.node && id != a.id { agents := agents - {id}; }
      }
      agents := agents[a.id := a];
    }

    method GetAgentByID(id: AgentId) returns (r: Option<Agent>)
      ensures r == if id in agents then Some(agents[id]) else None
    {
      if id in agents { return Some(agents[id]); }
      return None;
    }

    method GetAgentByClusterAndNode(node: Node) returns (r: Option<Agent>)
      ensures r.Some? ==> r.value.node == node && exists id :: id in agents && agents[id] == r.value
      ensures r.None? ==> forall id :: id in agents ==> agents[id].node != node
    {
      var todo := agents.Keys;
      while todo != {}
        invariant todo <= agents.Keys
        invariant forall id :: id in agents && agents[id].node == node ==> id in todo
        decreases |todo|
      {
        var id :| id in todo;
        if agents[id].node == node { return Some(agents[id]); }
        todo := todo - {id};
      }
      return None;
    }

    method UpdateHeartbeat(id: AgentId, pvcs: seq<Pvc>, now: int)
      modifies this
      ensures agents == Registry.UpdateHeartbeat(old(agents), id, pvcs, now)
    {
      if id in agents { agents := agents[id := Beaten(agents[id], pvcs, now)]; }
    }

    /** The loop of both ageing passes. */
    method Age(from: AgentState, to: AgentState, cutoff: int) returns (count: nat)
      modifies this
      ensures agents == Mark(old(agents), from, to, cutoff) && count == |StaleIds(old(agents), from, cutoff)|
    {
      var todo := agents.Keys;
      count := 0;
      ghost var before := agents;
      PartlyStart(before, from, to, cutoff);
      while todo != {}
        invariant Partly(before, agents, todo, count, from, to, cutoff)
        decreases |todo|
      {
        var id :| id in todo;
        PartlyStep(before, agents, todo, count, from, to, cutoff, id);
        var a := agents[id];
        if a.state == from && a.lastHeartbeat < cutoff {
          agents := agents[id := a.(state := to, healthy := false)];
          count := count + 1;
        }
        todo := todo - {id};
      }
      PartlyEnd(before, agents, count, from, to, cutoff);
    }

    method MarkUnhealthy(cutoff: int) returns (count: nat)
      modifies this
      ensures agents == Mark(old(agents), Healthy, Unhealthy, cutoff)
      ensures count == |StaleIds(old(agents), Healthy, cutoff)|
    {
      count := Age(Healthy, Unhealthy, cutoff);
    }

    method MarkDisconnected(cutoff: int) returns (count: nat)
      modifies this
      ensures agents == Mark(old(agents), Unhealthy, Disconnected, cutoff)
      ensures count == |StaleIds(old(agents), Unhealthy, cutoff)|
    {
      count := Age(Unhealthy, Disconnected, cutoff);
    }
  }

  // ---------------------------------------------------------------------------
  // The tables

  class AgentRepository {
    var agents: map<Node, AgentRow>
    var pvcs: PvcTable

    constructor ()
      ensures Contents() == Tables(map[], map[])
    {
      agents, pvcs := map[], map[];
    }

    function Contents(): Tables
      reads this
    {
      Tables(agents, pvcs)
    }

    /** The insertions of one transaction, up to the first that fails. */
    method InsertPvcs(agent: AgentId, list: seq<Pvc>) returns (ok: bool)
      modifies this`pvcs
      ensures ok == InsertAll(old(pvcs), agent, list).Some?
      ensures ok ==> pvcs == InsertAll(old(pvcs), agent, list).value
    {
      var i := 0;
      while i < |list|
        invariant 0 <= i <= |list|
        invariant InsertAll(old(pvcs), agent, list) == InsertAll(pvcs, agent, list[i..])
      {
        var k := PvcKey(agent, list[i].name);
        assert list[i..][0] == list[i] && list[i..][1..] == list[i + 1..];
        if k in pvcs { return false; }
        pvcs := pvcs[k := list[i]];
        i := i + 1;
      }
      ok := true;
    }

    /** Clear the node's inventory, write its row, insert the inventory; any failure restores both tables. */
    method UpsertAgent(a: Agent) returns (ok: bool)
      modifies this
      ensures ok == SqlUpsert(old(Contents()), a).Some?
      ensures Contents() == if ok then SqlUpsert(old(Contents()), a).value else old(Contents())
    {
      var before := Contents();
      if a.node in agents { pvcs := Without(pvcs, agents[a.node].id); }
      if IdElsewhere(before, a) {
        pvcs := before.pvcs;
        return false;
      }
      agents := agents[a.node := SqlRow(before, a)];
      ok := InsertPvcs(a.id, a.pvcs);
      if !ok { agents, pvcs := before.agents, before.pvcs; }
    }

    method UpdateHeartbeat(id: AgentId, list: seq<Pvc>, now: int) returns (ok: bool)
      modifies this
      ensures ok == SqlHeartbeat(old(Contents()), id, list, now).Some?
      ensures Contents() == if ok then SqlHeartbeat(old(Contents()), id, list, now).value else old(Contents())
    {
      var before := Contents();
      agents := BeatenRows(agents, id, now);
      pvcs := Without(pvcs, id);
      if list != [] && !HasId(before, id) {
        ok := false;
      } else {
        ok := InsertPvcs(id, list);
      }
      if !ok { agents, pvcs := before.agents, before.pvcs; }
    }

    method MarkUnhealthy(cutoff: int) returns (count: nat)
      modifies this`agents
      ensures Contents() == SqlMarkUnhealthy(old(Contents()), cutoff)
      ensures count == |StaleNodes(old(Contents()), Healthy, cutoff)|
    {
      var affected := set node | node in agents && agents[node].state == Healthy && agents[node].lastHeartbeat < cutoff;
      assert affected == StaleNodes(Contents(), Healthy, cutoff);
      agents := map node | node in agents ::
        if node in affected then agents[node].(state := Unhealthy, healthy := false) else agents[node];
      count := |affected|;
    }

    method MarkDisconnected(cutoff: int) returns (count: nat)
      modifies this`agents
      ensures Contents() == SqlMarkDisconnected(old(Contents()), cutoff)
      ensures count == |StaleNodes(old(Contents()), Unhealthy, cutoff)|
    {
      var affected :=
        set node | node in agents && agents[node].state == Unhealthy && agents[node].lastHeartbeat < cutoff;
      assert affected == StaleNodes(Contents(), Unhealthy, cutoff);
      agents := map node | node in agents ::
        if node in affected then agents[node].(state := Disconnected) else agents[node];
      count := |affected|;
    }

    method GetStateByID(id: AgentId) returns (r: Option<AgentState>)
      requires UniqueIds(Contents())
      ensures r == StateOf(Contents(), id)
    {
      var todo := agents.Keys;
      while todo != {}
        invariant todo <= agents.Keys
        invariant forall node :: node in agents && agents[node].id == id ==> node in todo
        decreases |todo|
      {
        var node :| node in todo;
        if agents[node].id == id {
          assert forall other :: other in agents && agents[other].id == id ==> SameId(Contents(), node, other);
          return Some(agents[node].state);
        }
        todo := todo - {node};
      }
      return None;
    }
  }

  predicate SameId(s: Tables, i: Node, j: Node) {
    i in s.agents && j in s.agents && s.agents[i].id == s.agents[j].id
  }

  /** The primary key of `agents`. */
  ghost predicate UniqueIds(s: Tables) {
    forall i, j {:trigger SameId(s, i, j)} :: SameId(s, i, j) ==> i == j
  }

  /** The table's constraint is kept by every operation of the service. */
  lemma UniqueIdsKept(s: Tables, t: Timeouts, op: Op)
    requires UniqueIds(s)
    ensures UniqueIds(SqlStep(s, t, op))
  {
    var s' := SqlStep(s, t, op);
    forall i, j | SameId(s', i, j)
      ensures i == j
    {
      match op
      case Register(reg, newId, now) => assert SameId(s, i, j) || i == j;
      case Heartbeat(_, _, _) => assert SameId(s, i, j);
      case Evaluation(_) => assert SameId(s, i, j);
    }
  }

  // ---------------------------------------------------------------------------
  // The service

  lemma PassesAreStep(m: Mem, m1: Mem, m2: Mem, t: Timeouts, now: int)
    requires Inv(m) && m1 == FirstPass(m, t, now) && m2 == SecondPass(m1, t, now)
    ensures Inv(m2) && m2 == Step(m, t, Evaluation(now))
    ensures MemReply(m, t, Evaluation(now))
            == Counted(|StaleIds(m, Healthy, now - t.unhealthy)|, |StaleIds(m1, Unhealthy, now - t.disconnected)|)
  {
    OtherStep(m, t, Evaluation(now));
  }

  method EvaluateMem(mem: MemRepo, t: Timeouts, now: int) returns (reply: Reply)
    requires Inv(mem.agents)
    modifies mem
    ensures Inv(mem.agents) && mem.agents == Step(old(mem.agents), t, Evaluation(now))
    ensures reply == MemReply(old(mem.agents), t, Evaluation(now))
  {
    ghost var m := mem.agents;
    var unhealthy := mem.MarkUnhealthy(now - t.unhealthy);
    ghost var m1 := mem.agents;
    var disconnected := mem.MarkDisconnected(now - t.disconnected);
    reply := Counted(unhealthy, disconnected);
    PassesAreStep(m, m1, mem.agents, t, now);
  }

  method EvaluateDb(db: AgentRepository, t: Timeouts, now: int) returns (reply: Reply)
    requires UniqueIds(db.Contents())
    modifies db
    ensures UniqueIds(db.Contents()) && db.Contents() == SqlStep(old(db.Contents()), t, Evaluation(now))
    ensures reply == SqlReply(old(db.Contents()), t, Evaluation(now))
  {
    UniqueIdsKept(db.Contents(), t, Evaluation(now));
    var unhealthy := db.MarkUnhealthy(now - t.unhealthy);
    var disconnected := db.MarkDisconnected(now - t.disconnected);
    reply := Counted(unhealthy, disconnected);
  }

  /** The service runs over either store. */
  datatype Repository = InMemory(mem: MemRepo) | Postgres(db: AgentRepository)

  class Service {
    const repo: Repository

    constructor (repo: Repository)
      ensures this.repo == repo
    {
      this.repo := repo;
    }

    ghost function Footprint(): set<object> {
      match repo
      case InMemory(mem) => {mem}
      case Postgres(db) => {db}
    }

    ghost predicate Valid()
      reads Footprint()
    {
      match repo
      case InMemory(mem) => Inv(mem.agents)
      case Postgres(db) => UniqueIds(db.Contents())
    }

    method KnownAt(node: Node) returns (r: Option<Known>)
      requires Valid()
      ensures repo.InMemory? ==> r == KnownOf(ByNode(repo.mem.agents, node))
      ensures repo.Postgres? ==> r == KnownRow(repo.db.Contents(), node)
    {
      match repo {
        case InMemory(mem) =>
          var found := mem.GetAgentByClusterAndNode(node);
          r := KnownOf(found);
          if found.Some? {
            ghost var id :| id in mem.agents && mem.agents[id] == found.value;
            ByNodeUnique(mem.agents, node, id);
          } else {
            ByNodeIs(mem.agents, node);
          }
        case Postgres(db) => r := KnownRow(db.Contents(), node);
      }
    }

    method Store(a: Agent) returns (ok: bool)
      modifies Footprint()
      ensures repo.InMemory? ==> ok && repo.mem.agents == Upsert(old(repo.mem.agents), a)
      ensures repo.Postgres? ==>
        var r := SqlUpsert(old(repo.db.Contents()), a);
        ok == r.Some? && repo.db.Contents() == if ok then r.value else old(repo.db.Contents())
    {
      match repo {
        case InMemory(mem) => mem.UpsertAgent(a); ok := true;
        case Postgres(db) => ok := db.UpsertAgent(a);
      }
    }

    /** `newId` is drawn fresh. */
    method RegisterAgent(reg: Registration, newId: AgentId, now: int, ghost t: Timeouts) returns (reply: Reply)
      requires Valid()
      requires repo.InMemory? ==> newId !in repo.mem.agents
      modifies Footprint()
      ensures Valid()
      ensures repo.InMemory? ==>
        && repo.mem.agents == Step(old(repo.mem.agents), t, Register(reg, newId, now))
        && reply == MemReply(old(repo.mem.agents), t, Register(reg, newId, now))
      ensures repo.Postgres? ==>
        && repo.db.Contents() == SqlStep(old(repo.db.Contents()), t, Register(reg, newId, now))
        && reply == SqlReply(old(repo.db.Contents()), t, Register(reg, newId, now))
      ensures repo.InMemory? ==> (reply.Registered? <==> ServiceLaws.Welcome(old(repo.mem.agents), reg))
    {
      ghost var op := Register(reg, newId, now);
      if repo.InMemory? {
        RegisterStep(repo.mem.agents, t, op);
        ServiceLaws.WelcomeIsRegistered(repo.mem.agents, t, reg, newId, now);
      } else {
        UniqueIdsKept(repo.db.Contents(), t, op);
      }
      if !reg.toolsOk { return Rejected; }
      var existing := KnownAt(reg.node);
      if existing.Some? && existing.value.jwtNamespace != "" && existing.value.jwtNamespace != reg.jwtNamespace {
        return Rejected;
      }
      var id, registeredAt := newId, now;
      if existing.Some? { id, registeredAt := existing.value.id, existing.value.registeredAt; }
      var a := TransitionTo(
        Agent(id, reg.node, Registering, false, now, reg.tools, registeredAt, reg.pvcs, reg.jwtNamespace), Healthy);
      if a.None? { return Rejected; }
      var ok := Store(a.value);
      return if ok then Registered(id) else Rejected;
    }

    method StateAt(id: AgentId) returns (r: Option<AgentState>)
      requires Valid()
      ensures repo.InMemory? ==> r == if id in repo.mem.agents then Some(repo.mem.agents[id].state) else None
      ensures repo.Postgres? ==> r == StateOf(repo.db.Contents(), id)
    {
      match repo {
        case InMemory(mem) =>
          var a := mem.GetAgentByID(id);
          r := if a.Some? then Some(a.value.state) else None;
        case Postgres(db) => r := db.GetStateByID(id);
      }
    }

    method Heartbeat(id: AgentId, pvcs: seq<Pvc>, now: int, ghost t: Timeouts) returns (reply: Reply)
      requires Valid()
      modifies Footprint()
      ensures Valid()
      ensures repo.InMemory? ==>
        && repo.mem.agents == Step(old(repo.mem.agents), t, Op.Heartbeat(id, pvcs, now))
        && reply == MemReply(old(repo.mem.agents), t, Op.Heartbeat(id, pvcs, now))
      ensures repo.Postgres? ==>
        && repo.db.Contents() == SqlStep(old(repo.db.Contents()), t, Op.Heartbeat(id, pvcs, now))
        && reply == SqlReply(old(repo.db.Contents()), t, Op.Heartbeat(id, pvcs, now))
      ensures repo.InMemory? ==>
        var agents := old(repo.mem.agents);
        reply == if id in agents && agents[id].state != Disconnected then Acknowledged else Rejected
      ensures repo.Postgres? ==>
        var state := StateOf(old(repo.db.Contents()), id);
        reply == if state.Some? && state.value != Disconnected && DistinctNames(pvcs) then Acknowledged else Rejected
    {
      ghost var op := Op.Heartbeat(id, pvcs, now);
      if repo.InMemory? {
        OtherStep(repo.mem.agents, t, op);
        ServiceLaws.HeartbeatMeans(repo.mem.agents, t, id, pvcs, now);
      } else {
        UniqueIdsKept(repo.db.Contents(), t, op);
        ServiceLaws.SqlHeartbeatMeans(repo.db.Contents(), t, id, pvcs, now);
      }
      var state := StateAt(id);
      if state.None? || state.value == Disconnected { return Rejected; }
      if state.value == Unhealthy && !Edge(Unhealthy, Healthy) { return Rejected; }
      match repo {
        case InMemory(mem) =>
          mem.UpdateHeartbeat(id, pvcs, now);
          reply := Acknowledged;
        case Postgres(db) =>
          var ok := db.UpdateHeartbeat(id, pvcs, now);
          reply := if ok then Acknowledged else Rejected;
      }
    }

    /** One evaluation cycle: first the unhealthy pass, then the disconnected one, from a single clock reading. */
    method Evaluate(t: Timeouts, now: int) returns (reply: Reply)
      requires Valid()
      modifies Footprint()
      ensures Valid()
      ensures repo.InMemory? ==>
        && repo.mem.agents == Step(old(repo.mem.agents), t, Evaluation(now))
        && reply == MemReply(old(repo.mem.agents), t, Evaluation(now))
      ensures repo.Postgres? ==>
        && repo.db.Contents() == SqlStep(old(repo.db.Contents()), t, Evaluation(now))
        && reply == SqlReply(old(repo.db.Contents()), t, Evaluation(now))
    {
      match repo {
        case InMemory(mem) => reply := EvaluateMem(mem, t, now);
        case Postgres(db) => reply := EvaluateDb(db, t, now);
      }
    }
  }
}
