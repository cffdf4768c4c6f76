/** The agent registry: the service's decisions and the in-memory store. */
module Registry {
  import opened Wrappers

  type AgentId = nat

  datatype AgentState = Registering | Healthy | Unhealthy | Disconnected

  /** The transition table of agents. */
  predicate Edge(from: AgentState, to: AgentState) {
    match from
    case Registering => to == Healthy || to == Disconnected
    case Healthy => to == Unhealthy || to == Registering
    case Unhealthy => to == Healthy || to == Disconnected
    case Disconnected => to == Registering
  }

  /** A node of a cluster; at most one agent serves it. */
  datatype Node = Node(cluster: string, name: string)

  datatype Tools = Tools(tar: string, zstd: string, stunnel: string)

  datatype Pvc = Pvc(name: string, sizeBytes: int, storageClass: string, nodeAffinity: string)

  datatype Agent = Agent(
    id: AgentId, node: Node, state: AgentState, healthy: bool, lastHeartbeat: int, tools: Tools,
    registeredAt: int, pvcs: seq<Pvc>, jwtNamespace: string)

  function TransitionTo(a: Agent, target: AgentState): (r: Option<Agent>)
    ensures r.Some? <==> Edge(a.state, target)
    ensures r.Some? ==> r.value.state == target && (r.value.healthy <==> target == Healthy)
  {
    if Edge(a.state, target) then Some(a.(state := target, healthy := target == Healthy)) else None
  }

  // ---------------------------------------------------------------------------
  // The service's decisions, independent of the store

  /** A request to register; `toolsOk` is the verdict on the tool versions. */
  datatype Registration = Registration(node: Node, tools: Tools, toolsOk: bool, pvcs: seq<Pvc>, jwtNamespace: string)

  /** What the service uses of the agent already registered for the node. */
  datatype Known = Known(id: AgentId, registeredAt: int, jwtNamespace: string)

  function Prepare(reg: Registration, existing: Option<Known>, newId: AgentId, now: int): Option<Agent> {
    if !reg.toolsOk then None
    else if
      existing.Some? && existing.value.jwtNamespace != "" && existing.value.jwtNamespace != reg.jwtNamespace
    then None
    else
      var id := if existing.Some? then existing.value.id else newId;
      var registeredAt := if existing.Some? then existing.value.registeredAt else now;
      TransitionTo(
        Agent(id, reg.node, Registering, false, now, reg.tools, registeredAt, reg.pvcs, reg.jwtNamespace), Healthy)
  }

  /** A heartbeat is taken from a known agent that is not disconnected. */
  predicate TakesHeartbeat(state: Option<AgentState>) {
    state.Some? && state.value != Disconnected && (state.value == Unhealthy ==> Edge(Unhealthy, Healthy))
  }

  // ---------------------------------------------------------------------------
  // The in-memory store

  type Mem = map<AgentId, Agent>

  ghost function ByNode(m: Mem, node: Node): Option<Agent> {
    if id :| id in m && m[id].node == node then Some(m[id]) else None
  }

  predicate Displaced(m: Mem, a: Agent, id: AgentId)
    requires id in m
  {
    m[id].node == a.node && id != a.id
  }

  /** The agent replaces any other for its node. */
  function Upsert(m: Mem, a: Agent): Mem {
    (map id | id in m && !Displaced(m, a, id) :: m[id])[a.id := a]
  }

  function Beaten(a: Agent, pvcs: seq<Pvc>, now: int): Agent {
    a.(state := Healthy, healthy := true, lastHeartbeat := now, pvcs := pvcs)
  }

  function UpdateHeartbeat(m: Mem, id: AgentId, pvcs: seq<Pvc>, now: int): Mem {
    if id in m then m[id := Beaten(m[id], pvcs, now)] else m
  }

  predicate Stale(a: Agent, state: AgentState, cutoff: int) {
    a.state == state && a.lastHeartbeat < cutoff
  }

  /** Agents in state `from` whose last heartbeat is older than the cutoff. */
  function StaleIds(m: Mem, from: AgentState, cutoff: int): set<AgentId> {
    set id | id in m && Stale(m[id], from, cutoff)
  }

  function Marked(a: Agent, from: AgentState, to: AgentState, cutoff: int): Agent {
    if Stale(a, from, cutoff) then a.(state := to, healthy := false) else a
  }

  /** One ageing pass: stale agents in state `from` go to state `to`, which is not healthy. */
  function Mark(m: Mem, from: AgentState, to: AgentState, cutoff: int): Mem {
    map id | id in m :: Marked(m[id], from, to, cutoff)
  }

  datatype Timeouts = Timeouts(unhealthy: int, disconnected: int)

  function FirstPass(m: Mem, t: Timeouts, now: int): Mem {
    Mark(m, Healthy, Unhealthy, now - t.unhealthy)
  }

  function SecondPass(m: Mem, t: Timeouts, now: int): Mem {
    Mark(m, Unhealthy, Disconnected, now - t.disconnected)
  }

  /** Both passes, with the number of agents each changed. */
  function Evaluate(m: Mem, t: Timeouts, now: int): (Mem, nat, nat) {
    var m1 := FirstPass(m, t, now);
    (SecondPass(m1, t, now),
     |StaleIds(m, Healthy, now - t.unhealthy)|,
     |StaleIds(m1, Unhealthy, now - t.disconnected)|)
  }

  // ---------------------------------------------------------------------------
  // The service over the in-memory store

  /** A new agent draws an identifier not used before. */
  datatype Op =
    | Register(reg: Registration, newId: AgentId, now: int)
    | Heartbeat(id: AgentId, pvcs: seq<Pvc>, now: int)
    | Evaluation(now: int)

  function KnownOf(a: Option<Agent>): Option<Known> {
    if a.Some? then Some(Known(a.value.id, a.value.registeredAt, a.value.jwtNamespace)) else None
  }

  ghost function Step(m: Mem, t: Timeouts, op: Op): Mem {
    match op
    case Register(reg, newId, now) =>
      var existing := ByNode(m, reg.node);
      var a := Prepare(reg, KnownOf(existing), newId, now);
      if a.None? || (existing.None? && newId in m) then m else Upsert(m, a.value)
    case Heartbeat(id, pvcs, now) =>
      if TakesHeartbeat(if id in m then Some(m[id].state) else None) then UpdateHeartbeat(m, id, pvcs, now) else m
    case Evaluation(now) => SecondPass(FirstPass(m, t, now), t, now)
  }

  ghost function Run(m: Mem, t: Timeouts, ops: seq<Op>): Mem
    decreases |ops|
  {
    if ops == [] then m else Run(Step(m, t, ops[0]), t, ops[1..])
  }

  // ---------------------------------------------------------------------------
  // Identity

  predicate AgentOk(a: Agent, id: AgentId) {
    a.id == id && (a.healthy <==> a.state == Healthy) && a.state != Registering
  }

  predicate OnSameNode(m: Mem, i: AgentId, j: AgentId) {
    i in m && j in m && m[i].node == m[j].node
  }

  ghost predicate OnePerNode(m: Mem) {
    forall i, j {:trigger OnSameNode(m, i, j)} :: OnSameNode(m, i, j) ==> i == j
  }

  /** One agent per node, stored under its own identifier; healthy iff in the healthy state. */
  ghost predicate Inv(m: Mem) {
    (forall id {:trigger AgentOk(m[id], id)} :: id in m ==> AgentOk(m[id], id)) && OnePerNode(m)
  }

  /** The agent is still there, the same one: node, first registration and a non-empty namespace are as before. */
  predicate SameAgent(m: Mem, m': Mem, id: AgentId)
    requires id in m
  {
    && id in m' && m'[id].node == m[id].node && m'[id].registeredAt == m[id].registeredAt
    && (m[id].jwtNamespace != "" ==> m'[id].jwtNamespace == m[id].jwtNamespace)
  }

  ghost predicate Continues(m: Mem, m': Mem) {
    forall id {:trigger SameAgent(m, m', id)} :: id in m ==> SameAgent(m, m', id)
  }

  lemma ByNodeIs(m: Mem, node: Node)
    requires Inv(m)
    ensures var found := ByNode(m, node);
            found.Some? ==>
              var a := found.value;
              a.node == node && a.id in m && m[a.id] == a && AgentOk(a, a.id)
  {
    var found := ByNode(m, node);
    if found.Some? {
      var id :| id in m && m[id].node == node && found == Some(m[id]);
      assert AgentOk(m[id], id);
    }
  }

  lemma ByNodeUnique(m: Mem, node: Node, id: AgentId)
    requires Inv(m) && id in m && m[id].node == node
    ensures ByNode(m, node) == Some(m[id])
  {
    ByNodeIs(m, node);
    assert ByNode(m, node).Some? ==> OnSameNode(m, id, ByNode(m, node).value.id);
  }

  lemma RegisterStep(m: Mem, t: Timeouts, op: Op)
    requires Inv(m) && op.Register?
    ensures var m' := Step(m, t, op); Inv(m') && Continues(m, m')
  {
    var m' := Step(m, t, op);
    ByNodeIs(m, op.reg.node);
    forall id | id in m
      ensures SameAgent(m, m', id)
    {
      assert AgentOk(m[id], id);
      if m[id].node == op.reg.node { ByNodeUnique(m, op.reg.node, id); }
    }
    forall id | id in m'
      ensures AgentOk(m'[id], id)
    {
      if id in m { assert AgentOk(m[id], id); }
    }
    forall i, j | OnSameNode(m', i, j)
      ensures i == j
    {
      assert i in m && j in m && OnSameNode(m, i, j) ==> i == j;
      if i in m && m[i].node == op.reg.node { ByNodeUnique(m, op.reg.node, i); }
      if j in m && m[j].node == op.reg.node { ByNodeUnique(m, op.reg.node, j); }
    }
  }

  ghost predicate KeepsDisconnected(m: Mem, m': Mem) {
    forall id :: id in m && id in m' && m[id].state == Disconnected ==> m'[id].state == Disconnected
  }

  lemma HeartbeatStep(m: Mem, t: Timeouts, op: Op)
    requires Inv(m) && op.Heartbeat?
    ensures var m' := Step(m, t, op); Ages(m, m')
  {
    var m' := Step(m, t, op);
    assert m'.Keys == m.Keys;
    forall id | id in m
      ensures AgentOk(m'[id], id) && SameAgent(m, m', id)
    {
      assert AgentOk(m[id], id);
    }
    assert forall i, j {:trigger OnSameNode(m', i, j)} :: OnSameNode(m', i, j) ==> OnSameNode(m, i, j);
  }

  lemma MarkKeeps(m: Mem, from: AgentState, to: AgentState, cutoff: int)
    requires Inv(m) && from != Disconnected && to != Healthy && to != Registering
    ensures var m' := Mark(m, from, to, cutoff); Ages(m, m')
  {
    var m' := Mark(m, from, to, cutoff);
    forall id | id in m
      ensures AgentOk(m'[id], id) && SameAgent(m, m', id)
    {
      assert AgentOk(m[id], id);
    }
    assert forall i, j {:trigger OnSameNode(m', i, j)} :: OnSameNode(m', i, j) ==> OnSameNode(m, i, j);
  }

  ghost predicate Ages(m: Mem, m': Mem) {
    Inv(m') && Continues(m, m') && KeepsDisconnected(m, m')
  }

  lemma AgesTransitive(a: Mem, b: Mem, c: Mem)
    requires Ages(a, b) && Ages(b, c)
    ensures Ages(a, c)
  {
    ContinuesTransitive(a, b, c);
    forall id | id in a && id in c && a[id].state == Disconnected
      ensures c[id].state == Disconnected
    {
      assert SameAgent(a, b, id);
    }
  }

  lemma FirstPassAges(m: Mem, t: Timeouts, now: int)
    requires Inv(m)
    ensures Ages(m, FirstPass(m, t, now))
  {
    MarkKeeps(m, Healthy, Unhealthy, now - t.unhealthy);
  }

  lemma SecondPassAges(m: Mem, t: Timeouts, now: int)
    requires Inv(m)
    ensures Ages(m, SecondPass(m, t, now))
  {
    MarkKeeps(m, Unhealthy, Disconnected, now - t.disconnected);
  }

  lemma OtherStep(m: Mem, t: Timeouts, op: Op)
    requires Inv(m) && !op.Register?
    ensures Ages(m, Step(m, t, op))
  {
    match op
    case Heartbeat(_, _, _) => HeartbeatStep(m, t, op);
    case Evaluation(now) =>
      var m1 := FirstPass(m, t, now);
      FirstPassAges(m, t, now);
      SecondPassAges(m1, t, now);
      AgesTransitive(m, m1, SecondPass(m1, t, now));
  }

  lemma ContinuesTransitive(a: Mem, b: Mem, c: Mem)
    requires Continues(a, b) && Continues(b, c)
    ensures Continues(a, c)
  {
    forall id | id in a
      ensures SameAgent(a, c, id)
    {
      assert SameAgent(a, b, id) && SameAgent(b, c, id);
    }
  }

  /**
   Registry identity: over every run there is at most one agent per node; its identifier, first registration and
   non-empty namespace never change; it is healthy iff in the healthy state.
   */
  lemma {:induction false} IdentityHolds(m: Mem, t: Timeouts, ops: seq<Op>)
    requires Inv(m)
    ensures Inv(Run(m, t, ops)) && Continues(m, Run(m, t, ops))
    decreases |ops|
  {
    if ops == [] {
      assert forall id :: id in m ==> SameAgent(m, m, id);
    } else {
      var m1 := Step(m, t, ops[0]);
      if ops[0].Register? { RegisterStep(m, t, ops[0]); } else { OtherStep(m, t, ops[0]); }
      IdentityHolds(m1, t, ops[1..]);
      ContinuesTransitive(m, m1, Run(m1, t, ops[1..]));
    }
  }

  /** An agent that is disconnected stays so until it registers again. */
  lemma {:induction false} DisconnectedUntilRegistered(m: Mem, t: Timeouts, ops: seq<Op>, id: AgentId)
    requires Inv(m) && id in m && m[id].state == Disconnected
    requires forall i :: 0 <= i < |ops| && ops[i].Register? ==> ops[i].reg.node != m[id].node
    ensures var m' := Run(m, t, ops); id in m' && m'[id].state == Disconnected
    decreases |ops|
  {
    if ops != [] {
      var m1 := Step(m, t, ops[0]);
      assert AgentOk(m[id], id);
      if ops[0].Register? {
        RegisterStep(m, t, ops[0]);
        ByNodeIs(m, ops[0].reg.node);
        assert m1[id] == m[id];
      } else {
        OtherStep(m, t, ops[0]);
      }
      assert SameAgent(m, m1, id);
      DisconnectedUntilRegistered(m1, t, ops[1..], id);
    }
  }

  // ---------------------------------------------------------------------------
  // Health

  /** Nobody is written off early: unhealthy or disconnected agents have been silent for longer than the timeout. */
  predicate Timely(a: Agent, t: Timeouts, now: int) {
    && a.lastHeartbeat <= now
    && (a.state == Unhealthy ==> now - a.lastHeartbeat > t.unhealthy)
    && (a.state == Disconnected ==> now - a.lastHeartbeat > t.disconnected)
  }

  ghost predicate AllTimely(m: Mem, t: Timeouts, now: int) {
    forall id :: id in m ==> Timely(m[id], t, now)
  }

  /** The clock never goes back. */
  ghost predicate InOrder(ops: seq<Op>, start: int)
    decreases |ops|
  {
    ops == [] || (start <= ops[0].now && InOrder(ops[1..], ops[0].now))
  }

  function EndTime(ops: seq<Op>, start: int): int {
    if ops == [] then start else ops[|ops| - 1].now
  }

  lemma StepTimely(m: Mem, t: Timeouts, op: Op, before: int)
    requires Inv(m) && AllTimely(m, t, before) && before <= op.now
    ensures AllTimely(Step(m, t, op), t, op.now)
  {
    var m' := Step(m, t, op);
    forall id | id in m'
      ensures Timely(m'[id], t, op.now)
    {
      if id in m { assert Timely(m[id], t, before); }
    }
  }

  /** After an evaluation, every agent that is not disconnected is healthy exactly if its heartbeat is recent enough. */
  lemma EvaluationClassifies(m: Mem, t: Timeouts, now: int, id: AgentId)
    requires Inv(m) && AllTimely(m, t, now) && id in m
    ensures var a := Evaluate(m, t, now).0[id];
            && (a.state != Disconnected ==> (a.healthy <==> now - a.lastHeartbeat <= t.unhealthy))
            && (a.state == Unhealthy ==> now - a.lastHeartbeat <= t.disconnected)
  {
    assert AgentOk(m[id], id) && Timely(m[id], t, now);
  }

  function Changed(m: Mem, m': Mem): set<AgentId> {
    set id | id in m && id in m' && m'[id] != m[id]
  }

  /** The agents a pass changes are the stale ones. */
  lemma MarkChanges(m: Mem, from: AgentState, to: AgentState, cutoff: int)
    requires from != to
    ensures StaleIds(m, from, cutoff) == Changed(m, Mark(m, from, to, cutoff))
  {
    var m' := Mark(m, from, to, cutoff);
    forall id | id in m
      ensures Stale(m[id], from, cutoff) <==> m'[id] != m[id]
    {
    }
  }

  lemma FirstCount(m: Mem, t: Timeouts, now: int)
    ensures Evaluate(m, t, now).1 == |Changed(m, FirstPass(m, t, now))|
  {
    MarkChanges(m, Healthy, Unhealthy, now - t.unhealthy);
  }

  lemma SecondCount(m: Mem, t: Timeouts, now: int)
    ensures Evaluate(m, t, now).2 == |Changed(FirstPass(m, t, now), Evaluate(m, t, now).0)|
  {
    MarkChanges(FirstPass(m, t, now), Unhealthy, Disconnected, now - t.disconnected);
  }

  lemma NothingStale(m: Mem, from: AgentState, to: AgentState, cutoff: int)
    requires StaleIds(m, from, cutoff) == {}
    ensures Mark(m, from, to, cutoff) == m
  {
    forall id | id in m
      ensures !Stale(m[id], from, cutoff)
    {
      assert id !in StaleIds(m, from, cutoff);
    }
  }

  /** A pass leaves nothing stale for itself, and nothing new for a pass from a state it does not enter. */
  lemma PassClears(m: Mem, from: AgentState, to: AgentState, cutoff: int, state: AgentState, other: int)
    requires from != to && state != to
    requires (state == from && other == cutoff) || StaleIds(m, state, other) == {}
    ensures StaleIds(Mark(m, from, to, cutoff), state, other) == {}
  {
    forall id | id in m
      ensures !Stale(Marked(m[id], from, to, cutoff), state, other)
    {
      assert id in StaleIds(m, state, other) || !Stale(m[id], state, other);
    }
  }

  /** Evaluating again at the same instant changes nothing. */
  lemma EvaluationIdempotent(m: Mem, t: Timeouts, now: int)
    ensures var m' := Evaluate(m, t, now).0; Evaluate(m', t, now) == (m', 0, 0)
  {
    var early, late := now - t.unhealthy, now - t.disconnected;
    var m1 := FirstPass(m, t, now);
    var m2 := SecondPass(m1, t, now);
    PassClears(m, Healthy, Unhealthy, early, Healthy, early);
    PassClears(m1, Unhealthy, Disconnected, late, Healthy, early);
    PassClears(m1, Unhealthy, Disconnected, late, Unhealthy, late);
    NothingStale(m2, Healthy, Unhealthy, early);
    NothingStale(m2, Unhealthy, Disconnected, late);
  }

  /** Health classification over every run with a clock that never goes back. */
  lemma {:induction false} HealthHolds(m: Mem, t: Timeouts, ops: seq<Op>, start: int)
    requires Inv(m) && AllTimely(m, t, start) && InOrder(ops, start)
    ensures Inv(Run(m, t, ops)) && AllTimely(Run(m, t, ops), t, EndTime(ops, start))
    decreases |ops|
  {
    if ops != [] {
      var m1 := Step(m, t, ops[0]);
      if ops[0].Register? { RegisterStep(m, t, ops[0]); } else { OtherStep(m, t, ops[0]); }
      StepTimely(m, t, ops[0], start);
      HealthHolds(m1, t, ops[1..], ops[0].now);
    }
  }

  lemma TimelyLater(m: Mem, t: Timeouts, before: int, now: int)
    requires AllTimely(m, t, before) && before <= now
    ensures AllTimely(m, t, now)
  {
    forall id | id in m
      ensures Timely(m[id], t, now)
    {
      assert Timely(m[id], t, before);
    }
  }

  /** In every reachable state: an evaluation leaves each agent that is not disconnected healthy iff it is recent
      enough. */
  lemma ClassifiedAfterRun(t: Timeouts, ops: seq<Op>, start: int, now: int, id: AgentId)
    requires InOrder(ops, start) && EndTime(ops, start) <= now && id in Run(map[], t, ops)
    ensures var a := Evaluate(Run(map[], t, ops), t, now).0[id];
            && (a.state != Disconnected ==> (a.healthy <==> now - a.lastHeartbeat <= t.unhealthy))
            && (a.state == Unhealthy ==> now - a.lastHeartbeat <= t.disconnected)
  {
    HealthHolds(map[], t, ops, start);
    TimelyLater(Run(map[], t, ops), t, EndTime(ops, start), now);
    EvaluationClassifies(Run(map[], t, ops), t, now, id);
  }
}
