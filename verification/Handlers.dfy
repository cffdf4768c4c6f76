/**
 The three operations of the orchestrator, step by step. A handler is an operation under way; one step of it
 makes at most one call to the repository, the agents or the hub. An operation that nothing interrupts is its
 handler run to the end; interleaved handlers are the subject of `Interleaving`.
 */
module Handlers {
  import opened Wrappers
  import opened Transfers

  /** Entries of the event log. */
  datatype Event =
    | LogCreated | LogValidated | LogStarted(strategy: Strategy) | LogProgress(report: Report)
    | LogRetried(attempt: int) | LogCompleted | LogFailed(failure: Failure) | LogCancelled

  /** Calls to the outside world on behalf of a transfer. */
  datatype Effect =
    | SendTransfer(cluster: string) | SendCancel(cluster: string)
    | Publish(report: Report) | CloseStream
    | RevokeCredentials | DeleteObjects

  /** All there is of one transfer: its row, its event log, the states persisted so far and the calls made for it. */
  datatype Cell = Cell(row: Row, log: seq<Event>, path: seq<State>, effects: seq<Effect>)

  function Persist(c: Cell, s: State): Cell {
    c.(row := c.row.(state := s), path := c.path + [s])
  }

  function PersistFailure(c: Cell, failure: Failure, now: int): Cell {
    c.(row := c.row.(state := Failed, failure := Some(failure), completedAt := Some(now)), path := c.path + [Failed])
  }

  /** A lost event is only a warning. */
  function Log(c: Cell, e: Event, ok: bool): Cell {
    if ok then c.(log := c.log + [e]) else c
  }

  function Emit(c: Cell, effects: seq<Effect>): Cell {
    c.(effects := c.effects + effects)
  }

  /** Best-effort cleanup: every call is made, whether or not the ones before it failed. */
  function CleanupEffects(row: Row): seq<Effect> {
    [RevokeCredentials, SendCancel(row.source.cluster), SendCancel(row.destination.cluster)] +
    if row.strategy == Some(S3) then [DeleteObjects] else []
  }

  datatype Outcome = Running | Succeeded | Rejected

  // ---------------------------------------------------------------------------
  // CreateTransfer

  datatype CreatePc =
    | Insert | RecordCreated | PersistValidating | Validate | RecordValidated | PickStrategy
    | PersistStrategy | PersistTransferring | PersistStarted | RecordStarted
    | CommandSource | CommandDestination
    | PersistFailed | RecordFailed | CreateDone

  datatype CreateHandler = CreateHandler(
    req: Request, now: int, lookup: Lookup, pc: CreatePc,
    strategy: Option<Strategy>, failure: Option<Failure>, outcome: Outcome)

  function StartCreate(req: Request, now: int, lookup: Lookup): CreateHandler {
    CreateHandler(req, now, lookup, Insert, None, None, Running)
  }

  function NewCell(cfg: Config, req: Request, now: int): Cell {
    var retryMax := if req.retryMax.Some? then req.retryMax.value else cfg.retryMaxAttempts;
    Cell(Row(req.source, req.destination, req.allowOverwrite, Pending, None, Progress(0, 0, 0, 0), None,
             0, retryMax, req.createdBy, now, None, None),
         [], [Pending], [])
  }

  function CreateEnds(h: CreateHandler, outcome: Outcome): CreateHandler {
    h.(pc := CreateDone, outcome := outcome)
  }

  function CreateFails(h: CreateHandler, failure: Failure): CreateHandler {
    h.(pc := PersistFailed, failure := Some(failure))
  }

  /** `ok` says whether the call made at this point succeeds. */
  function CreateOn(cfg: Config, c: Cell, h: CreateHandler, ok: bool): (Cell, CreateHandler) {
    match h.pc
    case RecordCreated => (Log(c, LogCreated, ok), h.(pc := PersistValidating))
    case PersistValidating =>
      if ok then (Persist(c, Validating), h.(pc := Validate)) else (c, CreateEnds(h, Rejected))
    case Validate =>
      (match ValidateTransferRequest(h.req, h.lookup)
       case Some(why) => (c, CreateFails(h, Invalid(why)))
       case None => (c, h.(pc := RecordValidated)))
    case RecordValidated => (Log(c, LogValidated, ok), h.(pc := PickStrategy))
    case PickStrategy =>
      var s := SelectStrategy(h.req, cfg.s3Configured);
      if s.None? then (c, CreateFails(h, BadStrategy)) else (c, h.(pc := PersistStrategy, strategy := s))
    case PersistStrategy =>
      if ok then (c.(row := c.row.(strategy := h.strategy)), h.(pc := PersistTransferring))
      else (c, CreateEnds(h, Rejected))
    case PersistTransferring =>
      if ok then (Persist(c, Transferring), h.(pc := PersistStarted)) else (c, CreateEnds(h, Rejected))
    case PersistStarted =>
      if ok then (c.(row := c.row.(startedAt := Some(h.now))), h.(pc := RecordStarted))
      else (c, CreateEnds(h, Rejected))
    case RecordStarted =>
      (if h.strategy.Some? then Log(c, LogStarted(h.strategy.value), ok) else c, h.(pc := CommandSource))
    case CommandSource =>
      (Emit(c, [SendTransfer(h.req.source.cluster)]),
       if ok then h.(pc := CommandDestination) else CreateFails(h, SourceCommand))
    case CommandDestination =>
      (Emit(c, [SendTransfer(h.req.destination.cluster)]),
       if ok then CreateEnds(h, Succeeded) else CreateFails(h, DestinationCommand))
    case PersistFailed =>
      (if ok && h.failure.Some? then PersistFailure(c, h.failure.value, h.now) else c,
       if h.failure == Some(BadStrategy) then CreateEnds(h, Rejected) else h.(pc := RecordFailed))
    case RecordFailed =>
      (if h.failure.Some? then Log(c, LogFailed(h.failure.value), ok) else c, CreateEnds(h, Rejected))
    case _ => (c, h)
  }

  function CreateStep(cfg: Config, c: Option<Cell>, h: CreateHandler, ok: bool): (Option<Cell>, CreateHandler) {
    if h.pc == CreateDone then (c, h)
    else if h.pc == Insert then
      if ok then (Some(NewCell(cfg, h.req, h.now)), h.(pc := RecordCreated)) else (c, CreateEnds(h, Rejected))
    else if c.None? then (c, CreateEnds(h, Rejected))
    else
      var (c', h') := CreateOn(cfg, c.value, h, ok);
      (Some(c'), h')
  }

  function CreateRank(pc: CreatePc): nat {
    match pc
    case Insert => 14 case RecordCreated => 13 case PersistValidating => 12 case Validate => 11
    case RecordValidated => 10 case PickStrategy => 9 case PersistStrategy => 8 case PersistTransferring => 7
    case PersistStarted => 6 case RecordStarted => 5 case CommandSource => 4 case CommandDestination => 3
    case PersistFailed => 2 case RecordFailed => 1 case CreateDone => 0
  }

  /** The handler run to its end without interruption; `faults` are the points whose call fails. */
  function CreateAlone(cfg: Config, c: Option<Cell>, h: CreateHandler, faults: set<CreatePc>)
    : (Option<Cell>, CreateHandler)
    decreases CreateRank(h.pc)
  {
    if h.pc == CreateDone then (c, h)
    else
      var (c', h') := CreateStep(cfg, c, h, h.pc !in faults);
      CreateAlone(cfg, c', h', faults)
  }

  // ---------------------------------------------------------------------------
  // CancelTransfer

  datatype CancelPc =
    | LoadForCancel | PersistCancelled | PersistCancelledAt | RecordCancelled | CloseCancelled
    | CancelSource | CancelDestination | CleanupCancelled | CancelDone

  /** `row` is the handler's copy of the row it read. */
  datatype CancelHandler = CancelHandler(now: int, pc: CancelPc, row: Option<Row>, outcome: Outcome)

  function StartCancel(now: int): CancelHandler {
    CancelHandler(now, LoadForCancel, None, Running)
  }

  function CancelEnds(h: CancelHandler, outcome: Outcome): CancelHandler {
    h.(pc := CancelDone, outcome := outcome)
  }

  function CancelOn(cfg: Config, c: Cell, h: CancelHandler, ok: bool): (Cell, CancelHandler) {
    match h.pc
    case LoadForCancel =>
      if !ok || IsTerminal(c.row.state) || !Edge(c.row.state, Cancelled) then (c, CancelEnds(h, Rejected))
      else (c, h.(pc := PersistCancelled, row := Some(c.row.(state := Cancelled, completedAt := Some(h.now)))))
    case PersistCancelled =>
      if ok then (Persist(c, Cancelled), h.(pc := PersistCancelledAt)) else (c, CancelEnds(h, Rejected))
    case PersistCancelledAt =>
      if ok then (c.(row := c.row.(completedAt := Some(h.now))), h.(pc := RecordCancelled))
      else (c, CancelEnds(h, Rejected))
    case RecordCancelled => (Log(c, LogCancelled, ok), h.(pc := CloseCancelled))
    case CloseCancelled => (if cfg.hasHub then Emit(c, [CloseStream]) else c, h.(pc := CancelSource))
    case CancelSource =>
      (if h.row.Some? then Emit(c, [SendCancel(h.row.value.source.cluster)]) else c, h.(pc := CancelDestination))
    case CancelDestination =>
      (if h.row.Some? then Emit(c, [SendCancel(h.row.value.destination.cluster)]) else c, h.(pc := CleanupCancelled))
    case CleanupCancelled =>
      (if h.row.Some? then Emit(c, CleanupEffects(h.row.value)) else c, CancelEnds(h, Succeeded))
    case CancelDone => (c, h)
  }

  function CancelStep(cfg: Config, c: Option<Cell>, h: CancelHandler, ok: bool): (Option<Cell>, CancelHandler) {
    if h.pc == CancelDone then (c, h)
    else if c.None? then (c, CancelEnds(h, Rejected))
    else
      var (c', h') := CancelOn(cfg, c.value, h, ok);
      (Some(c'), h')
  }

  function CancelRank(pc: CancelPc): nat {
    match pc
    case LoadForCancel => 8 case PersistCancelled => 7 case PersistCancelledAt => 6 case RecordCancelled => 5
    case CloseCancelled => 4 case CancelSource => 3 case CancelDestination => 2 case CleanupCancelled => 1
    case CancelDone => 0
  }

  function CancelAlone(cfg: Config, c: Option<Cell>, h: CancelHandler, faults: set<CancelPc>)
    : (Option<Cell>, CancelHandler)
    decreases CancelRank(h.pc)
  {
    if h.pc == CancelDone then (c, h)
    else
      var (c', h') := CancelStep(cfg, c, h, h.pc !in faults);
      CancelAlone(cfg, c', h', faults)
  }

  // ---------------------------------------------------------------------------
  // HandleProgress

  datatype ReportPc =
    | LoadForReport | PersistProgress | RecordProgress | PublishProgress
    | PersistCompleted | PersistCompletedAt | RecordCompleted
    | IncrementRetries | RecordRetried
    | PersistExhausted | RecordExhausted
    | CloseReported | CleanupReported | ReportDone

  datatype ReportHandler = ReportHandler(report: Report, now: int, pc: ReportPc, row: Option<Row>, outcome: Outcome)

  function StartReport(report: Report, now: int): ReportHandler {
    ReportHandler(report, now, LoadForReport, None, Running)
  }

  function ReportEnds(h: ReportHandler, outcome: Outcome): ReportHandler {
    h.(pc := ReportDone, outcome := outcome)
  }

  /** Whether another attempt is allowed. */
  predicate MayRetry(row: Row) {
    row.retryCount < row.retryMax
  }

  /** What follows the bookkeeping, decided on the row as it was read. */
  function Decide(h: ReportHandler, row: Row): ReportHandler {
    if h.report.status == "completed" then
      if Edge(row.state, Completed) then h.(pc := PersistCompleted) else ReportEnds(h, Rejected)
    else if h.report.status == "failed" then
      if MayRetry(row) then h.(pc := IncrementRetries)
      else if Edge(row.state, Failed) then h.(pc := PersistExhausted)
      else ReportEnds(h, Rejected)
    else ReportEnds(h, Succeeded)
  }

  function ReportOn(cfg: Config, c: Cell, h: ReportHandler, ok: bool): (Cell, ReportHandler) {
    match h.pc
    case LoadForReport =>
      if ok then (c, h.(pc := PersistProgress, row := Some(c.row))) else (c, ReportEnds(h, Rejected))
    case PersistProgress =>
      if ok then (c.(row := c.row.(progress := h.report.progress)), h.(pc := RecordProgress))
      else (c, ReportEnds(h, Rejected))
    case RecordProgress => (Log(c, LogProgress(h.report), ok), h.(pc := PublishProgress))
    case PublishProgress =>
      (if cfg.hasHub then Emit(c, [Publish(h.report)]) else c,
       if h.row.Some? then Decide(h, h.row.value) else ReportEnds(h, Rejected))
    case PersistCompleted =>
      if ok then (Persist(c, Completed), h.(pc := PersistCompletedAt)) else (c, ReportEnds(h, Rejected))
    case PersistCompletedAt =>
      if ok then (c.(row := c.row.(completedAt := Some(h.now))), h.(pc := RecordCompleted))
      else (c, ReportEnds(h, Rejected))
    case RecordCompleted => (Log(c, LogCompleted, ok), h.(pc := CloseReported))
    case IncrementRetries =>
      if ok then (c.(row := c.row.(retryCount := c.row.retryCount + 1)), h.(pc := RecordRetried))
      else (c, ReportEnds(h, Rejected))
    case RecordRetried =>
      (if h.row.Some? then Log(c, LogRetried(h.row.value.retryCount + 1), ok) else c, ReportEnds(h, Succeeded))
    case PersistExhausted =>
      if ok then (PersistFailure(c, Exhausted(h.report.errorMessage), h.now), h.(pc := RecordExhausted))
      else (c, ReportEnds(h, Rejected))
    case RecordExhausted => (Log(c, LogFailed(Exhausted(h.report.errorMessage)), ok), h.(pc := CloseReported))
    case CloseReported => (if cfg.hasHub then Emit(c, [CloseStream]) else c, h.(pc := CleanupReported))
    case CleanupReported =>
      (if h.row.Some? then Emit(c, CleanupEffects(h.row.value)) else c, ReportEnds(h, Succeeded))
    case ReportDone => (c, h)
  }

  function ReportStep(cfg: Config, c: Option<Cell>, h: ReportHandler, ok: bool): (Option<Cell>, ReportHandler) {
    if h.pc == ReportDone then (c, h)
    else if c.None? then (c, ReportEnds(h, Rejected))
    else
      var (c', h') := ReportOn(cfg, c.value, h, ok);
      (Some(c'), h')
  }

  function ReportRank(pc: ReportPc): nat {
    match pc
    case LoadForReport => 10 case PersistProgress => 9 case RecordProgress => 8 case PublishProgress => 7
    case PersistCompleted => 6 case PersistCompletedAt => 5 case RecordCompleted => 4
    case IncrementRetries => 6 case RecordRetried => 5
    case PersistExhausted => 6 case RecordExhausted => 5
    case CloseReported => 3 case CleanupReported => 2 case ReportDone => 0
  }

  function ReportAlone(cfg: Config, c: Option<Cell>, h: ReportHandler, faults: set<ReportPc>)
    : (Option<Cell>, ReportHandler)
    decreases ReportRank(h.pc)
  {
    if h.pc == ReportDone then (c, h)
    else
      var (c', h') := ReportStep(cfg, c, h, h.pc !in faults);
      ReportAlone(cfg, c', h', faults)
  }
}
