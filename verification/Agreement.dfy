/** Every run of the agent service describes the same agents over either store. */
module Agreement {
  import opened Wrappers
  import opened Registry
  import opened Stores

  lemma SameNamed(s: Tables, m: Mem)
    requires Same(s, m)
    ensures Named(s.pvcs)
  {
    forall k | k in s.pvcs
      ensures s.pvcs[k].name == k.name
    {
      assert KeyOk(s.pvcs, k, m);
    }
  }

  /** Reading by node finds the same agent. */
  lemma SameLookup(s: Tables, m: Mem, node: Node)
    requires Inv(m) && Same(s, m)
    ensures KnownRow(s, node) == KnownOf(ByNode(m, node))
    ensures var found := ByNode(m, node);
            found.Some? ==> found.value.id in m && m[found.value.id] == found.value
  {
    var found := ByNode(m, node);
    ByNodeIs(m, node);
    if found.Some? {
      assert AgentMatches(s, m[found.value.id]);
      assert RowMatches(s.agents[node], node, m);
    }
    assert node in s.agents ==> RowMatches(s.agents[node], node, m);
  }

  /** Reading by identifier finds the same state. */
  lemma SameState(s: Tables, m: Mem, id: AgentId)
    requires Inv(m) && Same(s, m)
    ensures StateOf(s, id) == (if id in m then Some(m[id].state) else None)
    ensures HasId(s, id) <==> id in m
  {
    if id in m {
      assert AgentOk(m[id], id) && AgentMatches(s, m[id]);
      assert RowMatches(s.agents[m[id].node], m[id].node, m);
    }
    forall node | node in s.agents && s.agents[node].id == id
      ensures id in m && s.agents[node].state == m[id].state
    {
      assert RowMatches(s.agents[node], node, m);
    }
  }

  /** What the service hands to the store: a new identifier, or that of the node's agent with its first registration. */
  ghost predicate Expected(m: Mem, a: Agent) {
    && (forall id :: id in m && m[id].node == a.node ==> id == a.id && m[id].registeredAt == a.registeredAt)
    && (a.id in m ==> m[a.id].node == a.node)
  }

  lemma UpsertIsPut(m: Mem, a: Agent)
    requires Expected(m, a)
    ensures Upsert(m, a) == m[a.id := a]
  {
    assert forall id :: id in m ==> !Displaced(m, a, id);
  }

  lemma UpsertRow(s: Tables, m: Mem, a: Agent)
    requires Inv(m) && Same(s, m) && Expected(m, a)
    ensures SqlRow(s, a) == RowOf(a) && !IdElsewhere(s, a)
    ensures a.id in m <==> a.node in s.agents
    ensures a.node in s.agents ==> s.agents[a.node].id == a.id
  {
    if a.node in s.agents { assert RowMatches(s.agents[a.node], a.node, m); }
    if a.id in m { assert AgentOk(m[a.id], a.id) && AgentMatches(s, m[a.id]); }
    forall node | node in s.agents && s.agents[node].id == a.id
      ensures node == a.node
    {
      assert RowMatches(s.agents[node], node, m);
    }
  }

  lemma ClearedIsWithout(s: Tables, m: Mem, a: Agent)
    requires Inv(m) && Same(s, m) && Expected(m, a)
    ensures Cleared(s, a.node) == Without(s.pvcs, a.id)
  {
    UpsertRow(s, m, a);
    if a.node !in s.agents {
      forall k | k in s.pvcs
        ensures k.agent != a.id
      {
        assert KeyOk(s.pvcs, k, m);
      }
    }
  }

  /** One agent's row and inventory replaced in both stores. */
  lemma PutSame(s: Tables, m: Mem, a: Agent, p: PvcTable)
    requires Inv(m) && Same(s, m) && Expected(m, a) && Named(p)
    requires forall other: AgentId ::
               multiset(Rows(p, other)) == (if other == a.id then multiset(a.pvcs) else multiset(Rows(s.pvcs, other)))
    requires forall k :: k in p ==> k in s.pvcs || k.agent == a.id
    ensures Same(Tables(s.agents[a.node := RowOf(a)], p), m[a.id := a])
  {
    var s', m' := Tables(s.agents[a.node := RowOf(a)], p), m[a.id := a];
    UpsertRow(s, m, a);
    forall node | node in s'.agents
      ensures RowMatches(s'.agents[node], node, m')
    {
      if node != a.node { assert RowMatches(s.agents[node], node, m); }
    }
    forall id | id in m'
      ensures AgentMatches(s', m'[id])
    {
      if id != a.id { assert AgentMatches(s, m[id]) && AgentOk(m[id], id); }
    }
    forall k | k in p
      ensures KeyOk(p, k, m')
    {
      if k.agent != a.id { assert KeyOk(s.pvcs, k, m); }
    }
  }

  lemma ReplaceSame(s: Tables, m: Mem, a: Agent)
    requires Inv(m) && Same(s, m) && Expected(m, a) && DistinctNames(a.pvcs)
    ensures var p := InsertAll(Without(s.pvcs, a.id), a.id, a.pvcs);
            p.Some? && Same(Tables(s.agents[a.node := RowOf(a)], p.value), m[a.id := a])
  {
    SameNamed(s, m);
    ReplacedContents(s.pvcs, a.id, a.pvcs, a.id);
    var p := InsertAll(Without(s.pvcs, a.id), a.id, a.pvcs).value;
    forall other: AgentId
      ensures multiset(Rows(p, other)) == (if other == a.id then multiset(a.pvcs) else multiset(Rows(s.pvcs, other)))
    {
      ReplacedContents(s.pvcs, a.id, a.pvcs, other);
    }
    forall k | k in p
      ensures k in s.pvcs || k.agent == a.id
    {
      InsertKeys(Without(s.pvcs, a.id), a.id, a.pvcs, k);
    }
    PutSame(s, m, a, p);
  }

  lemma UpsertAgrees(s: Tables, m: Mem, a: Agent)
    requires Inv(m) && Same(s, m) && Expected(m, a)
    ensures SqlUpsert(s, a).Some? <==> DistinctNames(a.pvcs)
    ensures DistinctNames(a.pvcs) ==> Same(SqlUpsert(s, a).value, Upsert(m, a))
  {
    SameNamed(s, m);
    UpsertRow(s, m, a);
    ClearedIsWithout(s, m, a);
    UpsertIsPut(m, a);
    Replaced(s.pvcs, a.id, a.pvcs);
    if DistinctNames(a.pvcs) { ReplaceSame(s, m, a); }
  }

  /** The service keeps the identifier and first registration of the node's agent. */
  lemma PreparedExpected(m: Mem, t: Timeouts, op: Op)
    requires Inv(m) && op.Register? && Accepted(m, op)
    ensures Expected(m, Prepare(op.reg, KnownOf(ByNode(m, op.reg.node)), op.newId, op.now).value)
  {
    var found := ByNode(m, op.reg.node);
    var a := Prepare(op.reg, KnownOf(found), op.newId, op.now).value;
    ByNodeIs(m, op.reg.node);
    forall id | id in m && m[id].node == a.node
      ensures id == a.id && m[id].registeredAt == a.registeredAt
    {
      ByNodeUnique(m, a.node, id);
      assert AgentOk(m[id], id);
    }
  }

  lemma RejectedRegister(s: Tables, m: Mem, t: Timeouts, op: Op)
    requires Inv(m) && Same(s, m) && op.Register? && !Accepted(m, op)
    ensures Attempt(s, t, op).None? && Step(m, t, op) == m
  {
    var node := op.reg.node;
    SameLookup(s, m, node);
    var a := Prepare(op.reg, KnownRow(s, node), op.newId, op.now);
    if a.Some? {
      var id := a.value.id;
      assert id in m && AgentOk(m[id], id) && AgentMatches(s, m[id]);
      assert IdElsewhere(s, a.value);
    }
  }

  lemma RegisterAgrees(s: Tables, m: Mem, t: Timeouts, op: Op)
    requires Inv(m) && Same(s, m) && op.Register? && Accepted(m, op)
    ensures Attempt(s, t, op).Some? <==> CleanInventory(op)
    ensures CleanInventory(op) ==> Same(SqlStep(s, t, op), Step(m, t, op)) && SqlReply(s, t, op) == MemReply(m, t, op)
  {
    SameLookup(s, m, op.reg.node);
    PreparedExpected(m, t, op);
    UpsertAgrees(s, m, Prepare(op.reg, KnownRow(s, op.reg.node), op.newId, op.now).value);
  }

  lemma BeatenSame(s: Tables, m: Mem, id: AgentId, now: int)
    requires Inv(m) && Same(s, m) && id in m
    ensures forall pvcs ::
      BeatenRows(s.agents, id, now) == s.agents[m[id].node := RowOf(Beaten(m[id], pvcs, now))]
  {
    assert AgentOk(m[id], id) && AgentMatches(s, m[id]);
    forall node | node in s.agents
      ensures s.agents[node].id == id <==> node == m[id].node
      ensures RowMatches(s.agents[node], node, m)
    {
      assert RowMatches(s.agents[node], node, m);
    }
  }

  lemma HeartbeatAgrees(s: Tables, m: Mem, t: Timeouts, op: Op)
    requires Inv(m) && Same(s, m) && op.Heartbeat?
    ensures Accepted(m, op) ==> (Attempt(s, t, op).Some? <==> CleanInventory(op))
    ensures !Accepted(m, op) ==> Attempt(s, t, op).None? && Step(m, t, op) == m
    ensures Accepted(m, op) && CleanInventory(op) ==> Same(SqlStep(s, t, op), Step(m, t, op))
  {
    var id := op.id;
    SameState(s, m, id);
    if Accepted(m, op) {
      var a := Beaten(m[id], op.pvcs, op.now);
      SameNamed(s, m);
      assert AgentOk(m[id], id);
      Replaced(s.pvcs, id, op.pvcs);
      if CleanInventory(op) {
        BeatenSame(s, m, id, op.now);
        assert forall j :: j in m && m[j].node == m[id].node ==> OnSameNode(m, id, j);
        ReplaceSame(s, m, a);
      }
    }
  }

  // ---------------------------------------------------------------------------
  // Ageing

  /** Rows and agents change alike: nodes, identifiers and inventories stay. */
  lemma AgedSame(s: Tables, m: Mem, s': Tables, m': Mem)
    requires Inv(m) && Same(s, m)
    requires s'.pvcs == s.pvcs && s'.agents.Keys == s.agents.Keys && m'.Keys == m.Keys
    requires forall id :: id in m ==> m'[id].id == m[id].id && m'[id].node == m[id].node && m'[id].pvcs == m[id].pvcs
    requires forall id :: id in m && m[id].node in s.agents ==> s'.agents[m[id].node] == RowOf(m'[id])
    ensures Same(s', m')
  {
    forall node | node in s'.agents
      ensures RowMatches(s'.agents[node], node, m')
    {
      assert RowMatches(s.agents[node], node, m);
      var id := s.agents[node].id;
      assert AgentOk(m[id], id) && m'[id].node == m[id].node;
    }
    forall id | id in m'
      ensures AgentMatches(s', m'[id])
    {
      assert AgentMatches(s, m[id]) && AgentOk(m[id], id);
    }
    forall k | k in s'.pvcs
      ensures KeyOk(s'.pvcs, k, m')
    {
      assert KeyOk(s.pvcs, k, m);
    }
  }

  /** The row of an agent of both stores. */
  lemma RowAt(s: Tables, m: Mem, id: AgentId)
    requires Inv(m) && Same(s, m) && id in m
    ensures m[id].node in s.agents && s.agents[m[id].node] == RowOf(m[id])
    ensures m[id].healthy <==> m[id].state == Healthy
  {
    assert AgentOk(m[id], id) && AgentMatches(s, m[id]);
    assert RowMatches(s.agents[m[id].node], m[id].node, m);
  }

  /** `healthy` need not be written when an unhealthy agent is disconnected: it is already false. */
  lemma DisconnectedSame(s: Tables, m: Mem, cutoff: int)
    requires Inv(m) && Same(s, m)
    ensures Same(SqlMarkDisconnected(s, cutoff), Mark(m, Unhealthy, Disconnected, cutoff))
  {
    var s', m' := SqlMarkDisconnected(s, cutoff), Mark(m, Unhealthy, Disconnected, cutoff);
    forall id | id in m && m[id].node in s.agents
      ensures s'.agents[m[id].node] == RowOf(m'[id])
    {
      RowAt(s, m, id);
    }
    AgedSame(s, m, s', m');
  }

  lemma UnhealthySame(s: Tables, m: Mem, cutoff: int)
    requires Inv(m) && Same(s, m)
    ensures Same(SqlMarkUnhealthy(s, cutoff), Mark(m, Healthy, Unhealthy, cutoff))
  {
    var s', m' := SqlMarkUnhealthy(s, cutoff), Mark(m, Healthy, Unhealthy, cutoff);
    forall id | id in m && m[id].node in s.agents
      ensures s'.agents[m[id].node] == RowOf(m'[id])
    {
      RowAt(s, m, id);
    }
    AgedSame(s, m, s', m');
  }

  lemma {:induction false} ImageSize<A, B>(domain: set<A>, image: set<B>, f: A -> B)
    requires forall x, y :: x in domain && y in domain && f(x) == f(y) ==> x == y
    requires image == set x | x in domain :: f(x)
    ensures |domain| == |image|
    decreases |domain|
  {
    if domain != {} {
      var x :| x in domain;
      var rest := domain - {x};
      assert image - {f(x)} == set y | y in rest :: f(y);
      ImageSize(rest, image - {f(x)}, f);
    }
  }

  function NodeOf(m: Mem, id: AgentId): Node {
    if id in m then m[id].node else Node("", "")
  }

  lemma StaleTogether(s: Tables, m: Mem, from: AgentState, cutoff: int)
    requires Inv(m) && Same(s, m)
    ensures StaleNodes(s, from, cutoff) == set id | id in StaleIds(m, from, cutoff) :: NodeOf(m, id)
  {
    var ids, nodes := StaleIds(m, from, cutoff), StaleNodes(s, from, cutoff);
    forall id | id in ids
      ensures NodeOf(m, id) in nodes
    {
      RowAt(s, m, id);
    }
    forall node | node in nodes
      ensures exists id :: id in ids && NodeOf(m, id) == node
    {
      assert RowMatches(s.agents[node], node, m);
      assert s.agents[node].id in ids;
    }
  }

  /** The rows an ageing statement affects are as many as the agents the loop changes. */
  lemma CountsAgree(s: Tables, m: Mem, from: AgentState, cutoff: int)
    requires Inv(m) && Same(s, m)
    ensures |StaleNodes(s, from, cutoff)| == |StaleIds(m, from, cutoff)|
  {
    var ids := StaleIds(m, from, cutoff);
    StaleTogether(s, m, from, cutoff);
    forall i, j | i in ids && j in ids && NodeOf(m, i) == NodeOf(m, j)
      ensures i == j
    {
      assert OnSameNode(m, i, j);
    }
    ImageSize(ids, StaleNodes(s, from, cutoff), id => NodeOf(m, id));
  }

  lemma FirstAgrees(s: Tables, m: Mem, t: Timeouts, now: int)
    requires Inv(m) && Same(s, m)
    ensures Same(SqlMarkUnhealthy(s, now - t.unhealthy), FirstPass(m, t, now))
    ensures Inv(FirstPass(m, t, now))
  {
    UnhealthySame(s, m, now - t.unhealthy);
    FirstPassAges(m, t, now);
  }

  lemma SecondAgrees(s: Tables, m: Mem, t: Timeouts, now: int)
    requires Inv(m) && Same(s, m)
    ensures Same(SqlMarkDisconnected(s, now - t.disconnected), SecondPass(m, t, now))
  {
    DisconnectedSame(s, m, now - t.disconnected);
  }

  lemma EvaluationAgrees(s: Tables, m: Mem, t: Timeouts, op: Op)
    requires Inv(m) && Same(s, m) && op.Evaluation?
    ensures Same(SqlStep(s, t, op), Step(m, t, op))
  {
    FirstAgrees(s, m, t, op.now);
    SecondAgrees(SqlMarkUnhealthy(s, op.now - t.unhealthy), FirstPass(m, t, op.now), t, op.now);
  }

  lemma EvaluationCounts(s: Tables, m: Mem, t: Timeouts, op: Op)
    requires Inv(m) && Same(s, m) && op.Evaluation?
    ensures SqlReply(s, t, op) == MemReply(m, t, op)
  {
    FirstAgrees(s, m, t, op.now);
    CountsAgree(s, m, Healthy, op.now - t.unhealthy);
    CountsAgree(SqlMarkUnhealthy(s, op.now - t.unhealthy), FirstPass(m, t, op.now), Unhealthy, op.now - t.disconnected);
  }

  // ---------------------------------------------------------------------------
  // Runs

  /** After a rejected transaction the stores differ, because the tables cannot hold the inventory. */
  lemma DuplicatesDiffer(s: Tables, m: Mem, t: Timeouts, op: Op)
    requires Inv(m) && Same(s, m) && Accepted(m, op) && !CleanInventory(op)
    ensures SqlStep(s, t, op) == s && !Same(s, Step(m, t, op))
  {
    var m' := Step(m, t, op);
    SameNamed(s, m);
    var id, pvcs :| id in m' && m'[id].pvcs == pvcs && m'[id].id == id && !DistinctNames(pvcs) by {
      if op.Register? {
        RegisterAgrees(s, m, t, op);
        var a := Prepare(op.reg, KnownOf(ByNode(m, op.reg.node)), op.newId, op.now).value;
        assert m'[a.id] == a;
      } else {
        HeartbeatAgrees(s, m, t, op);
        assert AgentOk(m[op.id], op.id);
        assert m'[op.id].pvcs == op.pvcs;
      }
    }
    if op.Register? { RegisterAgrees(s, m, t, op); } else { HeartbeatAgrees(s, m, t, op); }
    if Same(s, m') {
      assert AgentMatches(s, m'[id]);
      TableNamesDistinct(s.pvcs, id, pvcs);
    }
  }

  lemma StepAgrees(s: Tables, m: Mem, t: Timeouts, op: Op)
    requires Inv(m) && Same(s, m)
    requires Accepted(m, op) ==> CleanInventory(op)
    ensures Same(SqlStep(s, t, op), Step(m, t, op)) && SqlReply(s, t, op) == MemReply(m, t, op)
  {
    match op
    case Register(_, _, _) =>
      if Accepted(m, op) { RegisterAgrees(s, m, t, op); } else { RejectedRegister(s, m, t, op); }
    case Heartbeat(_, _, _) => HeartbeatAgrees(s, m, t, op);
    case Evaluation(_) => EvaluationAgrees(s, m, t, op); EvaluationCounts(s, m, t, op);
  }

  /** From agreeing stores, one operation keeps them in agreement exactly if it is refused or names no claim twice. */
  lemma AgreementExactly(s: Tables, m: Mem, t: Timeouts, op: Op)
    requires Inv(m) && Same(s, m)
    ensures Same(SqlStep(s, t, op), Step(m, t, op)) <==> !Accepted(m, op) || CleanInventory(op)
  {
    if Accepted(m, op) && !CleanInventory(op) {
      DuplicatesDiffer(s, m, t, op);
    } else {
      StepAgrees(s, m, t, op);
    }
  }

  /** No operation of the run that the service carries out reports an inventory that names a claim twice. */
  ghost predicate AcceptedAreClean(m: Mem, t: Timeouts, ops: seq<Op>)
    decreases |ops|
  {
    ops == [] ||
    ((Accepted(m, ops[0]) ==> CleanInventory(ops[0])) && AcceptedAreClean(Step(m, t, ops[0]), t, ops[1..]))
  }

  lemma StepInv(m: Mem, t: Timeouts, op: Op)
    requires Inv(m)
    ensures Inv(Step(m, t, op))
  {
    if op.Register? { RegisterStep(m, t, op); } else { OtherStep(m, t, op); }
  }

  /**
   Store refinement: over every such sequence of registrations, heartbeats and evaluations, both stores describe the
   same agents and give the same answers.
   */
  lemma {:induction false} StoresAgree(s: Tables, m: Mem, t: Timeouts, ops: seq<Op>)
    requires Inv(m) && Same(s, m) && AcceptedAreClean(m, t, ops)
    ensures Same(SqlRun(s, t, ops), Run(m, t, ops))
    ensures SqlReplies(s, t, ops) == MemReplies(m, t, ops)
    decreases |ops|
  {
    if ops != [] {
      StepAgrees(s, m, t, ops[0]);
      StepInv(m, t, ops[0]);
      StoresAgree(SqlStep(s, t, ops[0]), Step(m, t, ops[0]), t, ops[1..]);
    }
  }

  /** The stores agree after every operation of the run. */
  ghost predicate AlwaysSame(s: Tables, m: Mem, t: Timeouts, ops: seq<Op>)
    decreases |ops|
  {
    Same(s, m) && (ops == [] || AlwaysSame(SqlStep(s, t, ops[0]), Step(m, t, ops[0]), t, ops[1..]))
  }

  /** And only over such sequences do they agree all along. */
  lemma {:induction false} StoresAgreeExactly(s: Tables, m: Mem, t: Timeouts, ops: seq<Op>)
    requires Inv(m) && Same(s, m)
    ensures AlwaysSame(s, m, t, ops) <==> AcceptedAreClean(m, t, ops)
    decreases |ops|
  {
    if ops != [] {
      AgreementExactly(s, m, t, ops[0]);
      if Same(SqlStep(s, t, ops[0]), Step(m, t, ops[0])) {
        StepInv(m, t, ops[0]);
        StoresAgreeExactly(SqlStep(s, t, ops[0]), Step(m, t, ops[0]), t, ops[1..]);
      }
    }
  }

  /** From empty stores. */
  lemma StoresAgreeFromEmpty(t: Timeouts, ops: seq<Op>)
    ensures AlwaysSame(Tables(map[], map[]), map[], t, ops) <==> AcceptedAreClean(map[], t, ops)
    ensures AcceptedAreClean(map[], t, ops) ==> SqlReplies(Tables(map[], map[]), t, ops) == MemReplies(map[], t, ops)
  {
    StoresAgreeExactly(Tables(map[], map[]), map[], t, ops);
    if AcceptedAreClean(map[], t, ops) { StoresAgree(Tables(map[], map[]), map[], t, ops); }
  }
}
