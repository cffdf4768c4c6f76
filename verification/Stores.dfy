/** The two-table agent store, and its agreement with the in-memory one. */
module Stores {
  import opened Wrappers
  import opened Registry

  // ---------------------------------------------------------------------------
  // Tables

  /** A row of `agents`; the table is keyed by its unique constraint on cluster and node. */
  datatype AgentRow = AgentRow(
    id: AgentId, state: AgentState, healthy: bool, lastHeartbeat: int, tools: Tools, registeredAt: int,
    jwtNamespace: string)

  /** The primary key of `agent_pvcs`. */
  datatype PvcKey = PvcKey(agent: AgentId, name: string)

  type PvcTable = map<PvcKey, Pvc>

  datatype Tables = Tables(agents: map<Node, AgentRow>, pvcs: PvcTable)

  function RowOf(a: Agent): AgentRow {
    AgentRow(a.id, a.state, a.healthy, a.lastHeartbeat, a.tools, a.registeredAt, a.jwtNamespace)
  }

  function Without(p: PvcTable, agent: AgentId): PvcTable {
    map k | k in p && k.agent != agent :: p[k]
  }

  /** Rows are inserted one by one; a primary key already present fails the transaction. */
  function InsertAll(p: PvcTable, agent: AgentId, pvcs: seq<Pvc>): Option<PvcTable>
    decreases |pvcs|
  {
    if pvcs == [] then Some(p)
    else
      var k := PvcKey(agent, pvcs[0].name);
      if k in p then None else InsertAll(p[k := pvcs[0]], agent, pvcs[1..])
  }

  /** The inventory read back for an agent. */
  function Rows(p: PvcTable, agent: AgentId): set<Pvc> {
    set k | k in p && k.agent == agent :: p[k]
  }

  // ---------------------------------------------------------------------------
  // Statements and transactions

  predicate HasId(s: Tables, id: AgentId) {
    exists node :: node in s.agents && s.agents[node].id == id
  }

  /** The identifier is the primary key: no other node's row may hold it. */
  predicate IdElsewhere(s: Tables, a: Agent) {
    exists node :: node in s.agents && node != a.node && s.agents[node].id == a.id
  }

  /** On conflict every column but `registered_at` is overwritten. */
  function SqlRow(s: Tables, a: Agent): AgentRow {
    if a.node in s.agents then RowOf(a).(registeredAt := s.agents[a.node].registeredAt) else RowOf(a)
  }

  function Cleared(s: Tables, node: Node): PvcTable {
    if node in s.agents then Without(s.pvcs, s.agents[node].id) else s.pvcs
  }

  /** `None` is a rolled-back transaction. */
  function SqlUpsert(s: Tables, a: Agent): Option<Tables> {
    var inserted := InsertAll(Cleared(s, a.node), a.id, a.pvcs);
    if IdElsewhere(s, a) || inserted.None? then None
    else Some(Tables(s.agents[a.node := SqlRow(s, a)], inserted.value))
  }

  function BeatenRows(agents: map<Node, AgentRow>, id: AgentId, now: int): map<Node, AgentRow> {
    map node | node in agents ::
      if agents[node].id == id then agents[node].(state := Healthy, healthy := true, lastHeartbeat := now)
      else agents[node]
  }

  function SqlHeartbeat(s: Tables, id: AgentId, pvcs: seq<Pvc>, now: int): Option<Tables> {
    var inserted := InsertAll(Without(s.pvcs, id), id, pvcs);
    if inserted.None? || (pvcs != [] && !HasId(s, id)) then None
    else Some(Tables(BeatenRows(s.agents, id, now), inserted.value))
  }

  predicate StaleRow(r: AgentRow, state: AgentState, cutoff: int) {
    r.state == state && r.lastHeartbeat < cutoff
  }

  function StaleNodes(s: Tables, from: AgentState, cutoff: int): set<Node> {
    set node | node in s.agents && StaleRow(s.agents[node], from, cutoff)
  }

  function UnhealthyRow(r: AgentRow, cutoff: int): AgentRow {
    if StaleRow(r, Healthy, cutoff) then r.(state := Unhealthy, healthy := false) else r
  }

  /** The column `healthy` is left as it is. */
  function DisconnectedRow(r: AgentRow, cutoff: int): AgentRow {
    if StaleRow(r, Unhealthy, cutoff) then r.(state := Disconnected) else r
  }

  function SqlMarkUnhealthy(s: Tables, cutoff: int): Tables {
    s.(agents := map node | node in s.agents :: UnhealthyRow(s.agents[node], cutoff))
  }

  function SqlMarkDisconnected(s: Tables, cutoff: int): Tables {
    s.(agents := map node | node in s.agents :: DisconnectedRow(s.agents[node], cutoff))
  }

  // ---------------------------------------------------------------------------
  // The service over the tables, and what callers are told

  datatype Reply = Registered(id: AgentId) | Acknowledged | Rejected | Counted(unhealthy: nat, disconnected: nat)

  function KnownRow(s: Tables, node: Node): Option<Known> {
    if node in s.agents then
      Some(Known(s.agents[node].id, s.agents[node].registeredAt, s.agents[node].jwtNamespace))
    else None
  }

  ghost function StateOf(s: Tables, id: AgentId): Option<AgentState> {
    if node :| node in s.agents && s.agents[node].id == id then Some(s.agents[node].state) else None
  }

  /** The transaction an operation runs, if the service gets that far. */
  ghost function Attempt(s: Tables, t: Timeouts, op: Op): Option<Tables> {
    match op
    case Register(reg, newId, now) =>
      var a := Prepare(reg, KnownRow(s, reg.node), newId, now);
      if a.None? then None else SqlUpsert(s, a.value)
    case Heartbeat(id, pvcs, now) =>
      if TakesHeartbeat(StateOf(s, id)) then SqlHeartbeat(s, id, pvcs, now) else None
    case Evaluation(now) =>
      Some(SqlMarkDisconnected(SqlMarkUnhealthy(s, now - t.unhealthy), now - t.disconnected))
  }

  ghost function SqlStep(s: Tables, t: Timeouts, op: Op): Tables {
    var r := Attempt(s, t, op);
    if r.None? then s else r.value
  }

  ghost function SqlReply(s: Tables, t: Timeouts, op: Op): Reply {
    if Attempt(s, t, op).None? then Rejected
    else
      match op
      case Register(reg, newId, now) => Registered(Prepare(reg, KnownRow(s, reg.node), newId, now).value.id)
      case Heartbeat(_, _, _) => Acknowledged
      case Evaluation(now) =>
        Counted(|StaleNodes(s, Healthy, now - t.unhealthy)|,
                |StaleNodes(SqlMarkUnhealthy(s, now - t.unhealthy), Unhealthy, now - t.disconnected)|)
  }

  ghost function SqlRun(s: Tables, t: Timeouts, ops: seq<Op>): Tables
    decreases |ops|
  {
    if ops == [] then s else SqlRun(SqlStep(s, t, ops[0]), t, ops[1..])
  }

  ghost function SqlReplies(s: Tables, t: Timeouts, ops: seq<Op>): seq<Reply>
    decreases |ops|
  {
    if ops == [] then [] else [SqlReply(s, t, ops[0])] + SqlReplies(SqlStep(s, t, ops[0]), t, ops[1..])
  }

  /** The operation is carried out by the in-memory store. */
  ghost predicate Accepted(m: Mem, op: Op) {
    match op
    case Register(reg, newId, now) =>
      var existing := ByNode(m, reg.node);
      Prepare(reg, KnownOf(existing), newId, now).Some? && (existing.None? ==> newId !in m)
    case Heartbeat(id, _, _) => TakesHeartbeat(if id in m then Some(m[id].state) else None)
    case Evaluation(_) => true
  }

  ghost function MemReply(m: Mem, t: Timeouts, op: Op): Reply {
    if !Accepted(m, op) then Rejected
    else
      match op
      case Register(reg, newId, now) => Registered(Prepare(reg, KnownOf(ByNode(m, reg.node)), newId, now).value.id)
      case Heartbeat(_, _, _) => Acknowledged
      case Evaluation(now) => Counted(Evaluate(m, t, now).1, Evaluate(m, t, now).2)
  }

  ghost function MemReplies(m: Mem, t: Timeouts, ops: seq<Op>): seq<Reply>
    decreases |ops|
  {
    if ops == [] then [] else [MemReply(m, t, ops[0])] + MemReplies(Step(m, t, ops[0]), t, ops[1..])
  }

  // ---------------------------------------------------------------------------
  // Agreement

  predicate RowMatches(row: AgentRow, node: Node, m: Mem) {
    row.id in m && m[row.id].node == node && RowOf(m[row.id]) == row
  }

  predicate AgentMatches(s: Tables, a: Agent) {
    a.node in s.agents && s.agents[a.node].id == a.id && multiset(a.pvcs) == multiset(Rows(s.pvcs, a.id))
  }

  predicate KeyOk(p: PvcTable, k: PvcKey, m: Mem)
    requires k in p
  {
    k.agent in m && p[k].name == k.name
  }

  /** Both stores describe the same agents; inventories are compared as multisets. */
  ghost predicate Same(s: Tables, m: Mem) {
    && (forall node {:trigger RowMatches(s.agents[node], node, m)} ::
          node in s.agents ==> RowMatches(s.agents[node], node, m))
    && (forall id {:trigger AgentMatches(s, m[id])} :: id in m ==> AgentMatches(s, m[id]))
    && (forall k {:trigger KeyOk(s.pvcs, k, m)} :: k in s.pvcs ==> KeyOk(s.pvcs, k, m))
  }

  predicate DistinctNames(pvcs: seq<Pvc>) {
    forall i, j :: 0 <= i < j < |pvcs| ==> pvcs[i].name != pvcs[j].name
  }

  /** The inventory an operation reports names no claim twice. */
  predicate CleanInventory(op: Op) {
    match op
    case Register(reg, _, _) => DistinctNames(reg.pvcs)
    case Heartbeat(_, pvcs, _) => DistinctNames(pvcs)
    case Evaluation(_) => true
  }

  // ---------------------------------------------------------------------------
  // Inventories

  predicate Named(p: PvcTable) {
    forall k :: k in p ==> p[k].name == k.name
  }

  predicate NoneYet(p: PvcTable, agent: AgentId, pvcs: seq<Pvc>) {
    forall i :: 0 <= i < |pvcs| ==> PvcKey(agent, pvcs[i].name) !in p
  }

  lemma DistinctTail(pvcs: seq<Pvc>)
    requires pvcs != []
    ensures DistinctNames(pvcs) <==>
            DistinctNames(pvcs[1..]) && forall i :: 1 <= i < |pvcs| ==> pvcs[i].name != pvcs[0].name
  {
    assert forall i :: 1 <= i < |pvcs| ==> pvcs[i] == pvcs[1..][i - 1];
  }

  lemma NoneYetTail(p: PvcTable, agent: AgentId, pvcs: seq<Pvc>)
    requires pvcs != [] && PvcKey(agent, pvcs[0].name) !in p
    ensures NoneYet(p[PvcKey(agent, pvcs[0].name) := pvcs[0]], agent, pvcs[1..]) <==>
            NoneYet(p, agent, pvcs) && forall i :: 1 <= i < |pvcs| ==> pvcs[i].name != pvcs[0].name
  {
    var p' := p[PvcKey(agent, pvcs[0].name) := pvcs[0]];
    assert forall i :: 1 <= i < |pvcs| ==> pvcs[i] == pvcs[1..][i - 1];
    assert forall i :: 1 <= i < |pvcs| ==>
      (PvcKey(agent, pvcs[i].name) in p' <==> PvcKey(agent, pvcs[i].name) in p || pvcs[i].name == pvcs[0].name);
  }

  /** The insertions succeed exactly if no name occurs twice and none is there already. */
  lemma {:induction false} InsertSucceeds(p: PvcTable, agent: AgentId, pvcs: seq<Pvc>)
    ensures InsertAll(p, agent, pvcs).Some? <==> DistinctNames(pvcs) && NoneYet(p, agent, pvcs)
    decreases |pvcs|
  {
    if pvcs != [] && PvcKey(agent, pvcs[0].name) !in p {
      InsertSucceeds(p[PvcKey(agent, pvcs[0].name) := pvcs[0]], agent, pvcs[1..]);
      DistinctTail(pvcs);
      NoneYetTail(p, agent, pvcs);
    }
  }

  lemma AddRow(p: PvcTable, agent: AgentId, x: Pvc, other: AgentId)
    requires Named(p) && PvcKey(agent, x.name) !in p
    ensures var p' := p[PvcKey(agent, x.name) := x];
            && Named(p')
            && Rows(p', other) == (if other == agent then Rows(p, agent) + {x} else Rows(p, other))
            && (other == agent ==> x !in Rows(p, agent))
  {
    var k := PvcKey(agent, x.name);
    var p' := p[k := x];
    assert forall j :: j in p ==> j != k && p'[j] == p[j];
    assert forall y :: y in Rows(p, other) ==> exists j :: j in p && j.agent == other && p[j] == y && p'[j] == y;
    if other == agent { assert p'[k] == x; }
  }

  /** What is read back after the insertions: the rows from before, and exactly the inserted ones. */
  lemma {:induction false} InsertContents(p: PvcTable, agent: AgentId, pvcs: seq<Pvc>, other: AgentId)
    requires Named(p) && InsertAll(p, agent, pvcs).Some?
    ensures var p' := InsertAll(p, agent, pvcs).value;
            && Named(p')
            && multiset(Rows(p', other)) ==
               multiset(Rows(p, other)) + (if other == agent then multiset(pvcs) else multiset{})
    decreases |pvcs|
  {
    if pvcs != [] {
      AddRow(p, agent, pvcs[0], other);
      InsertContents(p[PvcKey(agent, pvcs[0].name) := pvcs[0]], agent, pvcs[1..], other);
      assert pvcs == [pvcs[0]] + pvcs[1..];
    }
  }

  lemma {:induction false} InsertKeys(p: PvcTable, agent: AgentId, pvcs: seq<Pvc>, k: PvcKey)
    requires InsertAll(p, agent, pvcs).Some? && k in InsertAll(p, agent, pvcs).value
    ensures k in p || k.agent == agent
    decreases |pvcs|
  {
    if pvcs != [] { InsertKeys(p[PvcKey(agent, pvcs[0].name) := pvcs[0]], agent, pvcs[1..], k); }
  }

  lemma Replaced(p: PvcTable, agent: AgentId, pvcs: seq<Pvc>)
    requires Named(p)
    ensures var r := InsertAll(Without(p, agent), agent, pvcs); r.Some? <==> DistinctNames(pvcs)
  {
    InsertSucceeds(Without(p, agent), agent, pvcs);
  }

  /** Replacing an agent's inventory: its rows are the new ones, every other agent's are as before. */
  lemma ReplacedContents(p: PvcTable, agent: AgentId, pvcs: seq<Pvc>, other: AgentId)
    requires Named(p) && DistinctNames(pvcs)
    ensures InsertAll(Without(p, agent), agent, pvcs).Some?
    ensures var p' := InsertAll(Without(p, agent), agent, pvcs).value;
            && Named(p')
            && multiset(Rows(p', other)) == (if other == agent then multiset(pvcs) else multiset(Rows(p, other)))
  {
    Replaced(p, agent, pvcs);
    InsertContents(Without(p, agent), agent, pvcs, other);
    if other == agent {
      assert Rows(Without(p, agent), agent) == {};
    } else {
      var q := Without(p, agent);
      assert forall k :: k in p && k.agent == other ==> k in q && q[k] == p[k];
      assert Rows(q, other) == Rows(p, other);
    }
  }

  lemma TwiceInside(pvcs: seq<Pvc>, i: nat, j: nat)
    requires i < j < |pvcs| && pvcs[i] == pvcs[j]
    ensures multiset(pvcs)[pvcs[i]] >= 2
  {
    var x := pvcs[i];
    assert pvcs == pvcs[..j] + pvcs[j..];
    assert x in multiset(pvcs[..j]) by { assert pvcs[..j][i] == x; }
    assert x in multiset(pvcs[j..]) by { assert pvcs[j..][0] == x; }
  }

  /** The tables cannot hold an inventory that names a claim twice. */
  lemma TableNamesDistinct(p: PvcTable, agent: AgentId, pvcs: seq<Pvc>)
    requires Named(p) && multiset(pvcs) == multiset(Rows(p, agent))
    ensures DistinctNames(pvcs)
  {
    forall i, j | 0 <= i < j < |pvcs|
      ensures pvcs[i].name != pvcs[j].name
    {
      if pvcs[i].name == pvcs[j].name {
        assert pvcs[i] in multiset(pvcs) && pvcs[j] in multiset(pvcs);
        assert pvcs[i] in Rows(p, agent) && pvcs[j] in Rows(p, agent);
        assert pvcs[i] == p[PvcKey(agent, pvcs[i].name)] == pvcs[j];
        TwiceInside(pvcs, i, j);
      }
    }
  }
}
