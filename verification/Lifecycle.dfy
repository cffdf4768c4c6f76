/** What every run of uninterrupted operations keeps, with any repository, agent and validation failures. */
module Lifecycle {
  import opened Wrappers
  import opened Transfers
  import opened Handlers

  type World = map<TransferId, Cell>

  /** An operation, with the answers the outside world gives it: `faults` are the points whose call fails. */
  datatype Op =
    | Create(id: TransferId, req: Request, now: int, lookup: Lookup, createFaults: set<CreatePc>)
    | Cancel(id: TransferId, now: int, cancelFaults: set<CancelPc>)
    | Report(id: TransferId, report: Report, now: int, reportFaults: set<ReportPc>)

  function CellOf(w: World, id: TransferId): Option<Cell> {
    if id in w then Some(w[id]) else None
  }

  function WithCell(w: World, id: TransferId, c: Option<Cell>): World {
    if c.Some? then w[id := c.value] else w
  }

  /** The effect of an operation on its own transfer. A new transfer gets an identifier not used before. */
  function StepCell(cfg: Config, c: Option<Cell>, op: Op): Option<Cell> {
    match op
    case Create(_, req, now, lookup, faults) =>
      if c.Some? then c else CreateAlone(cfg, c, StartCreate(req, now, lookup), faults).0
    case Cancel(_, now, faults) => CancelAlone(cfg, c, StartCancel(now), faults).0
    case Report(_, report, now, faults) => ReportAlone(cfg, c, StartReport(report, now), faults).0
  }

  function Step(cfg: Config, w: World, op: Op): World {
    WithCell(w, op.id, StepCell(cfg, CellOf(w, op.id), op))
  }

  function RunFrom(cfg: Config, w: World, ops: seq<Op>): World
    decreases |ops|
  {
    if ops == [] then w else RunFrom(cfg, Step(cfg, w, ops[0]), ops[1..])
  }

  // ---------------------------------------------------------------------------
  // The transition table holds for everything persisted

  predicate IsPath(path: seq<State>) {
    forall i :: 0 <= i < |path| - 1 ==> Edge(path[i], path[i + 1])
  }

  lemma PathExtend(path: seq<State>, s: State)
    requires IsPath(path) && path != [] && Edge(path[|path| - 1], s)
    ensures IsPath(path + [s])
  {
  }

  /** What holds of a persisted transfer after any operation, whatever failed. */
  predicate Life(c: Cell) {
    && c.path != [] && c.path[0] == Pending && c.path[|c.path| - 1] == c.row.state && IsPath(c.path)
    && (c.row.completedAt.Some? ==> IsTerminal(c.row.state))
    && (c.row.state == Transferring || c.row.state == Completed ==> c.row.strategy.Some?)
    && 0 <= c.row.retryCount && (c.row.retryCount > 0 ==> c.row.retryCount <= c.row.retryMax)
  }

  predicate CreateLife(c: Option<Cell>, h: CreateHandler) {
    match h.pc
    case Insert => c.None?
    case CreateDone => c.Some? ==> Life(c.value)
    case _ =>
      && c.Some? && Life(c.value)
      && var row := c.value.row;
         match h.pc
         case RecordCreated | PersistValidating => row.state == Pending
         case Validate | RecordValidated | PickStrategy => row.state == Validating
         case PersistStrategy => row.state == Validating && h.strategy.Some?
         case PersistTransferring => row.state == Validating && row.strategy.Some?
         case PersistStarted | RecordStarted | CommandSource | CommandDestination => row.state == Transferring
         case PersistFailed => row.state == Validating || row.state == Transferring
         case _ => true
  }

  lemma CreateStepLife(cfg: Config, c: Option<Cell>, h: CreateHandler, ok: bool)
    requires CreateLife(c, h)
    ensures var (c', h') := CreateStep(cfg, c, h, ok); CreateLife(c', h')
  {
    if c.Some? {
      var p := c.value.path;
      forall s | p != [] && IsPath(p) && Edge(p[|p| - 1], s)
        ensures IsPath(p + [s])
      {
        PathExtend(p, s);
      }
    }
  }

  lemma {:induction false} CreateAloneLife(cfg: Config, c: Option<Cell>, h: CreateHandler, faults: set<CreatePc>)
    requires CreateLife(c, h)
    ensures var r := CreateAlone(cfg, c, h, faults).0; r.Some? ==> Life(r.value)
    decreases CreateRank(h.pc)
  {
    if h.pc != CreateDone {
      CreateStepLife(cfg, c, h, h.pc !in faults);
      var (c', h') := CreateStep(cfg, c, h, h.pc !in faults);
      CreateAloneLife(cfg, c', h', faults);
    }
  }

  predicate CancelLife(c: Cell, h: CancelHandler) {
    && Life(c)
    && (h.pc == PersistCancelled ==> Edge(c.row.state, Cancelled))
    && (h.pc == PersistCancelledAt ==> c.row.state == Cancelled)
  }

  lemma {:induction false} CancelAloneLife(cfg: Config, c: Cell, h: CancelHandler, faults: set<CancelPc>)
    requires CancelLife(c, h)
    ensures var r := CancelAlone(cfg, Some(c), h, faults).0; r.Some? && Life(r.value)
    decreases CancelRank(h.pc)
  {
    if h.pc != CancelDone {
      var (c', h') := CancelOn(cfg, c, h, h.pc !in faults);
      if h.pc == PersistCancelled { PathExtend(c.path, Cancelled); }
      CancelAloneLife(cfg, c', h', faults);
    }
  }

  /** Between reading the row and deciding, a handler that runs alone still holds the current row, but for progress. */
  predicate UpToDate(c: Cell, h: ReportHandler) {
    h.row.Some? && h.row.value.(progress := c.row.progress) == c.row
  }

  predicate ReportLife(c: Cell, h: ReportHandler) {
    && Life(c)
    && match h.pc
       case PersistProgress | RecordProgress | PublishProgress => UpToDate(c, h)
       case PersistCompleted => UpToDate(c, h) && Edge(c.row.state, Completed)
       case IncrementRetries => UpToDate(c, h) && MayRetry(c.row)
       case PersistExhausted => UpToDate(c, h) && Edge(c.row.state, Failed)
       case PersistCompletedAt => c.row.state == Completed
       case _ => true
  }

  lemma {:induction false} ReportAloneLife(cfg: Config, c: Cell, h: ReportHandler, faults: set<ReportPc>)
    requires ReportLife(c, h)
    ensures var r := ReportAlone(cfg, Some(c), h, faults).0; r.Some? && Life(r.value)
    decreases ReportRank(h.pc)
  {
    if h.pc != ReportDone {
      var (c', h') := ReportOn(cfg, c, h, h.pc !in faults);
      if h.pc == PersistCompleted { PathExtend(c.path, Completed); }
      if h.pc == PersistExhausted { PathExtend(c.path, Failed); }
      ReportAloneLife(cfg, c', h', faults);
    }
  }

  /** All the lives a transfer can have, from its first state on. */
  predicate OneOfTheLives(path: seq<State>) {
    || path == [Pending] || path == [Pending, Cancelled]
    || path == [Pending, Validating]
    || path == [Pending, Validating, Failed] || path == [Pending, Validating, Cancelled]
    || path == [Pending, Validating, Transferring]
    || path == [Pending, Validating, Transferring, Completed]
    || path == [Pending, Validating, Transferring, Failed]
    || path == [Pending, Validating, Transferring, Cancelled]
  }

  lemma LivesAreFew(path: seq<State>)
    requires path != [] && path[0] == Pending
    ensures IsPath(path) <==> OneOfTheLives(path)
  {
    if IsPath(path) {
      assert |path| > 1 ==> Edge(path[0], path[1]);
      assert |path| > 2 ==> Edge(path[1], path[2]);
      assert |path| > 3 ==> Edge(path[2], path[3]);
      assert |path| > 4 ==> Edge(path[3], path[4]);
      assert |path| <= 4;
    }
  }

  // ---------------------------------------------------------------------------
  // Terminal states are final

  /** State, completion time and the path of persisted states are those of `c0`, which is terminal. */
  predicate Frozen(c0: Cell, c: Cell) {
    c.row.state == c0.row.state && c.row.completedAt == c0.row.completedAt && c.path == c0.path
  }

  lemma CancelRejectsTerminal(cfg: Config, c: Cell, now: int, faults: set<CancelPc>)
    requires IsTerminal(c.row.state)
    ensures var (r, h) := CancelAlone(cfg, Some(c), StartCancel(now), faults);
            r == Some(c) && h.outcome == Rejected
  {
    var h0 := StartCancel(now);
    var (c1, h1) := CancelStep(cfg, Some(c), h0, h0.pc !in faults);
    assert h1.pc == CancelDone;
    assert CancelAlone(cfg, c1, h1, faults) == (c1, h1);
  }

  lemma {:induction false} ReportKeepsTerminal(cfg: Config, c0: Cell, c: Cell, h: ReportHandler, faults: set<ReportPc>)
    requires IsTerminal(c0.row.state) && Frozen(c0, c)
    requires h.row.Some? ==> h.row.value.state == c0.row.state
    requires h.pc != PersistCompleted && h.pc != PersistCompletedAt && h.pc != PersistExhausted
    ensures var r := ReportAlone(cfg, Some(c), h, faults).0; r.Some? && Frozen(c0, r.value)
    decreases ReportRank(h.pc)
  {
    if h.pc != ReportDone {
      var (c', h') := ReportOn(cfg, c, h, h.pc !in faults);
      ReportKeepsTerminal(cfg, c0, c', h', faults);
    }
  }

  // ---------------------------------------------------------------------------
  // Whole runs

  ghost predicate AllLife(w: World) {
    forall id :: id in w ==> Life(w[id])
  }

  lemma StepCellLife(cfg: Config, c: Option<Cell>, op: Op)
    requires c.Some? ==> Life(c.value)
    ensures var r := StepCell(cfg, c, op);
            && (r.Some? ==> Life(r.value))
            && (c.Some? ==> r.Some?)
            && (c.Some? && IsTerminal(c.value.row.state) ==> Frozen(c.value, r.value))
  {
    match op
    case Create(_, req, now, lookup, faults) =>
      if c.None? { CreateAloneLife(cfg, c, StartCreate(req, now, lookup), faults); }
    case Cancel(_, now, faults) =>
      if c.Some? {
        CancelAloneLife(cfg, c.value, StartCancel(now), faults);
        if IsTerminal(c.value.row.state) { CancelRejectsTerminal(cfg, c.value, now, faults); }
      } else {
        var (c1, h1) := CancelStep(cfg, c, StartCancel(now), LoadForCancel !in faults);
        assert CancelAlone(cfg, c1, h1, faults) == (c, h1);
      }
    case Report(_, report, now, faults) =>
      if c.Some? {
        ReportAloneLife(cfg, c.value, StartReport(report, now), faults);
        if IsTerminal(c.value.row.state) {
          ReportKeepsTerminal(cfg, c.value, c.value, StartReport(report, now), faults);
        }
      } else {
        var (c1, h1) := ReportStep(cfg, c, StartReport(report, now), LoadForReport !in faults);
        assert ReportAlone(cfg, c1, h1, faults) == (c, h1);
      }
  }

  /**
   Transfer lifecycle: over every sequence of operations, with any failures, the persisted states of a transfer
   follow the transition table, a completion time means a terminal state, a transfer that moves or has moved data
   has a strategy, retries stay within bounds, and a terminal transfer keeps its state and completion time for good.
   */
  lemma {:induction false} LifecycleHolds(cfg: Config, w: World, ops: seq<Op>)
    requires AllLife(w)
    ensures AllLife(RunFrom(cfg, w, ops))
    ensures forall id :: id in w ==>
              && id in RunFrom(cfg, w, ops)
              && (IsTerminal(w[id].row.state) ==> Frozen(w[id], RunFrom(cfg, w, ops)[id]))
    decreases |ops|
  {
    if ops != [] {
      var op := ops[0];
      StepCellLife(cfg, CellOf(w, op.id), op);
      LifecycleHolds(cfg, Step(cfg, w, op), ops[1..]);
    }
  }
}
