/** What the caller of each operation is told, and what a creation stores, whatever calls fail. */
module Outcomes {
  import opened Wrappers
  import opened Transfers
  import opened Handlers
  import opened Lifecycle

  // ---------------------------------------------------------------------------
  // Creation

  predicate StrategyKnown(req: Request) {
    req.strategyOverride.Some? ==>
      || req.strategyOverride.value == "stream" || req.strategyOverride.value == "s3"
      || req.strategyOverride.value == "direct"
  }

  /** The calls without which a creation fails; events may get lost. */
  predicate CreateWorks(req: Request, lookup: Lookup, faults: set<CreatePc>) {
    && Safe(req, lookup) && StrategyKnown(req)
    && faults !! {Insert, PersistValidating, PersistStrategy, PersistTransferring, PersistStarted,
                  CommandSource, CommandDestination}
  }

  /** Whether the rest of a creation goes through. */
  predicate Promises(h: CreateHandler, faults: set<CreatePc>) {
    var checked, known := Safe(h.req, h.lookup), StrategyKnown(h.req);
    match h.pc
    case Insert => CreateWorks(h.req, h.lookup, faults)
    case RecordCreated | PersistValidating =>
      checked && known && PersistValidating !in faults && Moves(faults)
    case Validate => checked && known && Moves(faults)
    case RecordValidated | PickStrategy => known && Moves(faults)
    case PersistStrategy => Moves(faults)
    case PersistTransferring =>
      PersistTransferring !in faults && PersistStarted !in faults && Commands(faults)
    case PersistStarted => PersistStarted !in faults && Commands(faults)
    case RecordStarted | CommandSource => Commands(faults)
    case CommandDestination => CommandDestination !in faults
    case PersistFailed | RecordFailed => false
    case CreateDone => h.outcome == Succeeded
  }

  predicate Commands(faults: set<CreatePc>) {
    CommandSource !in faults && CommandDestination !in faults
  }

  predicate Moves(faults: set<CreatePc>) {
    PersistStrategy !in faults && PersistTransferring !in faults && PersistStarted !in faults && Commands(faults)
  }

  predicate Underway(c: Option<Cell>, h: CreateHandler) {
    if h.pc == CreateDone then h.outcome != Running else h.outcome == Running && (c.None? <==> h.pc == Insert)
  }

  lemma CreateStepPromises(cfg: Config, c: Option<Cell>, h: CreateHandler, faults: set<CreatePc>)
    requires Underway(c, h) && h.pc != CreateDone
    ensures var (c', h') := CreateStep(cfg, c, h, h.pc !in faults);
            Underway(c', h') && (Promises(h', faults) <==> Promises(h, faults))
  {
  }

  lemma {:induction false} CreateKeepsPromise(cfg: Config, c: Option<Cell>, h: CreateHandler, faults: set<CreatePc>)
    requires Underway(c, h)
    ensures CreateAlone(cfg, c, h, faults).1.outcome == if Promises(h, faults) then Succeeded else Rejected
    decreases CreateRank(h.pc)
  {
    if h.pc != CreateDone {
      CreateStepPromises(cfg, c, h, faults);
      var (c', h') := CreateStep(cfg, c, h, h.pc !in faults);
      CreateKeepsPromise(cfg, c', h', faults);
    }
  }

  /** A creation succeeds exactly if the request is in order and every call it needs goes through. */
  lemma CreateOutcome(cfg: Config, req: Request, now: int, lookup: Lookup, faults: set<CreatePc>)
    ensures CreateAlone(cfg, None, StartCreate(req, now, lookup), faults).1.outcome
            == if CreateWorks(req, lookup, faults) then Succeeded else Rejected
  {
    CreateKeepsPromise(cfg, None, StartCreate(req, now, lookup), faults);
  }

  /** What a creation stores of its request, for good. */
  predicate Stored(cfg: Config, req: Request, now: int, row: Row) {
    && row.source == req.source && row.destination == req.destination && row.allowOverwrite == req.allowOverwrite
    && row.createdBy == req.createdBy && row.createdAt == now
    && row.retryMax == (if req.retryMax.Some? then req.retryMax.value else cfg.retryMaxAttempts)
    && row.retryCount == 0 && row.progress == Progress(0, 0, 0, 0)
  }

  /** The agents are told in order, and only what the request says. */
  predicate Told(req: Request, effects: seq<Effect>) {
    effects <= [SendTransfer(req.source.cluster), SendTransfer(req.destination.cluster)]
  }

  predicate Creating(cfg: Config, req: Request, now: int, c: Cell, h: CreateHandler) {
    && Stored(cfg, req, now, c.row) && Told(req, c.effects) && h.req == req && h.now == now
    && (c.row.strategy.Some? ==> c.row.strategy == SelectStrategy(req, cfg.s3Configured))
    && match h.pc
       case RecordCreated | PersistValidating | Validate | RecordValidated | PickStrategy => c.effects == []
       case PersistStrategy =>
         c.effects == [] && h.strategy.Some? && h.strategy == SelectStrategy(req, cfg.s3Configured)
       case PersistTransferring | PersistStarted | RecordStarted | CommandSource =>
         c.effects == [] && c.row.strategy.Some?
       case CommandDestination => c.effects == [SendTransfer(req.source.cluster)] && c.row.strategy.Some?
       case CreateDone =>
         h.outcome == Succeeded ==>
           && c.effects == [SendTransfer(req.source.cluster), SendTransfer(req.destination.cluster)]
           && c.row.strategy.Some?
       case _ => true
  }

  lemma CreateStepStores(cfg: Config, req: Request, now: int, c: Cell, h: CreateHandler, ok: bool)
    requires Creating(cfg, req, now, c, h) && h.pc != Insert && h.outcome != Succeeded
    ensures var (c', h') := CreateOn(cfg, c, h, ok); Creating(cfg, req, now, c', h')
  {
    assert [] + [SendTransfer(req.source.cluster)] == [SendTransfer(req.source.cluster)];
  }

  lemma {:induction false} CreateAloneStores(
    cfg: Config, req: Request, now: int, c: Cell, h: CreateHandler, faults: set<CreatePc>)
    requires Creating(cfg, req, now, c, h) && h.pc != Insert && Underway(Some(c), h)
    ensures var (r, h') := CreateAlone(cfg, Some(c), h, faults);
            r.Some? && h'.pc == CreateDone && Creating(cfg, req, now, r.value, h')
    decreases CreateRank(h.pc)
  {
    if h.pc != CreateDone {
      CreateStepPromises(cfg, Some(c), h, faults);
      CreateStepStores(cfg, req, now, c, h, h.pc !in faults);
      var (c', h') := CreateOn(cfg, c, h, h.pc !in faults);
      CreateAloneStores(cfg, req, now, c', h', faults);
    }
  }

  /** What is known of a stored creation: the request in its row, its strategy, and the agents it has told. */
  predicate CreatedFrom(cfg: Config, req: Request, now: int, c: Cell) {
    && Stored(cfg, req, now, c.row) && Told(req, c.effects)
    && (c.row.strategy.Some? ==> c.row.strategy == SelectStrategy(req, cfg.s3Configured))
  }

  /** A row is stored exactly if the insertion goes through; a creation that succeeds has told both agents. */
  lemma CreateStores(cfg: Config, req: Request, now: int, lookup: Lookup, faults: set<CreatePc>)
    ensures var (r, h) := CreateAlone(cfg, None, StartCreate(req, now, lookup), faults);
            && (r.Some? <==> Insert !in faults)
            && (r.Some? ==> CreatedFrom(cfg, req, now, r.value))
            && (h.outcome == Succeeded ==>
                  && r.Some? && r.value.row.strategy == SelectStrategy(req, cfg.s3Configured)
                  && r.value.effects == [SendTransfer(req.source.cluster), SendTransfer(req.destination.cluster)])
  {
    var h := StartCreate(req, now, lookup);
    if Insert in faults {
      var ended := CreateEnds(h, Rejected);
      assert CreateAlone(cfg, None, ended, faults) == (None, ended);
    } else {
      var c, h1 := NewCell(cfg, req, now), h.(pc := RecordCreated);
      assert CreateAlone(cfg, None, h, faults) == CreateAlone(cfg, Some(c), h1, faults);
      CreateAloneStores(cfg, req, now, c, h1, faults);
    }
  }

  // ---------------------------------------------------------------------------
  // Cancellation

  predicate CancelGoesThrough(c: Option<Cell>, faults: set<CancelPc>) {
    && c.Some? && c.value.row.state != Completed && c.value.row.state != Failed && c.value.row.state != Cancelled
    && faults !! {LoadForCancel, PersistCancelled, PersistCancelledAt}
  }

  predicate CancelPromises(c: Option<Cell>, h: CancelHandler, faults: set<CancelPc>) {
    match h.pc
    case LoadForCancel => CancelGoesThrough(c, faults)
    case PersistCancelled => PersistCancelled !in faults && PersistCancelledAt !in faults
    case PersistCancelledAt => PersistCancelledAt !in faults
    case CancelDone => h.outcome == Succeeded
    case _ => true
  }

  predicate CancelUnderway(c: Option<Cell>, h: CancelHandler) {
    if h.pc == CancelDone then h.outcome != Running else h.outcome == Running && (h.pc != LoadForCancel ==> c.Some?)
  }

  lemma CancelStepPromises(cfg: Config, c: Option<Cell>, h: CancelHandler, faults: set<CancelPc>)
    requires CancelUnderway(c, h) && h.pc != CancelDone
    ensures var (c', h') := CancelStep(cfg, c, h, h.pc !in faults);
            CancelUnderway(c', h') && (CancelPromises(c', h', faults) <==> CancelPromises(c, h, faults))
  {
  }

  lemma {:induction false} CancelKeepsPromise(cfg: Config, c: Option<Cell>, h: CancelHandler, faults: set<CancelPc>)
    requires CancelUnderway(c, h)
    ensures CancelAlone(cfg, c, h, faults).1.outcome == if CancelPromises(c, h, faults) then Succeeded else Rejected
    decreases CancelRank(h.pc)
  {
    if h.pc != CancelDone {
      CancelStepPromises(cfg, c, h, faults);
      var (c', h') := CancelStep(cfg, c, h, h.pc !in faults);
      CancelKeepsPromise(cfg, c', h', faults);
    }
  }

  /** A cancellation succeeds exactly on a transfer that is there and not over, if it can be read and written. */
  lemma CancelOutcome(cfg: Config, c: Option<Cell>, now: int, faults: set<CancelPc>)
    ensures CancelAlone(cfg, c, StartCancel(now), faults).1.outcome
            == if CancelGoesThrough(c, faults) then Succeeded else Rejected
  {
    CancelKeepsPromise(cfg, c, StartCancel(now), faults);
  }

  // ---------------------------------------------------------------------------
  // Reports

  /** What a report asks for, on the row as it is read. */
  predicate Answerable(row: Row, report: Report, faults: set<ReportPc>) {
    if report.status == "completed" then
      row.state == Transferring && PersistCompleted !in faults && PersistCompletedAt !in faults
    else if report.status == "failed" then
      if row.retryCount < row.retryMax then IncrementRetries !in faults
      else (row.state == Validating || row.state == Transferring) && PersistExhausted !in faults
    else true
  }

  predicate ReportGoesThrough(c: Option<Cell>, report: Report, faults: set<ReportPc>) {
    && c.Some? && LoadForReport !in faults && PersistProgress !in faults
    && Answerable(c.value.row, report, faults)
  }

  predicate ReportPromises(c: Option<Cell>, h: ReportHandler, faults: set<ReportPc>) {
    match h.pc
    case LoadForReport => ReportGoesThrough(c, h.report, faults)
    case PersistProgress => PersistProgress !in faults && h.row.Some? && Answerable(h.row.value, h.report, faults)
    case RecordProgress | PublishProgress => h.row.Some? && Answerable(h.row.value, h.report, faults)
    case PersistCompleted => PersistCompleted !in faults && PersistCompletedAt !in faults
    case PersistCompletedAt => PersistCompletedAt !in faults
    case IncrementRetries => IncrementRetries !in faults
    case PersistExhausted => PersistExhausted !in faults
    case ReportDone => h.outcome == Succeeded
    case _ => true
  }

  predicate ReportUnderway(c: Option<Cell>, h: ReportHandler) {
    if h.pc == ReportDone then h.outcome != Running else h.outcome == Running && (h.pc != LoadForReport ==> c.Some?)
  }

  lemma ReportStepPromises(cfg: Config, c: Option<Cell>, h: ReportHandler, faults: set<ReportPc>)
    requires ReportUnderway(c, h) && h.pc != ReportDone
    ensures var (c', h') := ReportStep(cfg, c, h, h.pc !in faults);
            ReportUnderway(c', h') && (ReportPromises(c', h', faults) <==> ReportPromises(c, h, faults))
  {
  }

  lemma {:induction false} ReportKeepsPromise(cfg: Config, c: Option<Cell>, h: ReportHandler, faults: set<ReportPc>)
    requires ReportUnderway(c, h)
    ensures ReportAlone(cfg, c, h, faults).1.outcome == if ReportPromises(c, h, faults) then Succeeded else Rejected
    decreases ReportRank(h.pc)
  {
    if h.pc != ReportDone {
      ReportStepPromises(cfg, c, h, faults);
      var (c', h') := ReportStep(cfg, c, h, h.pc !in faults);
      ReportKeepsPromise(cfg, c', h', faults);
    }
  }

  /** A report is accepted exactly if the transfer is there and what it asks for is allowed and goes through. */
  lemma ReportOutcome(cfg: Config, c: Option<Cell>, report: Report, now: int, faults: set<ReportPc>)
    ensures ReportAlone(cfg, c, StartReport(report, now), faults).1.outcome
            == if ReportGoesThrough(c, report, faults) then Succeeded else Rejected
  {
    ReportKeepsPromise(cfg, c, StartReport(report, now), faults);
  }

  // ---------------------------------------------------------------------------
  // What no later operation changes

  /** The transfer is still the one that was asked for. */
  predicate SameTransfer(a: Row, b: Row) {
    && a.source == b.source && a.destination == b.destination && a.allowOverwrite == b.allowOverwrite
    && a.createdBy == b.createdBy && a.createdAt == b.createdAt && a.retryMax == b.retryMax
    && a.startedAt == b.startedAt && a.strategy == b.strategy
  }

  lemma {:induction false} CancelKeepsTransfer(cfg: Config, row: Row, c: Cell, h: CancelHandler, faults: set<CancelPc>)
    requires SameTransfer(row, c.row)
    ensures var r := CancelAlone(cfg, Some(c), h, faults).0; r.Some? && SameTransfer(row, r.value.row)
    decreases CancelRank(h.pc)
  {
    if h.pc != CancelDone {
      var (c', h') := CancelOn(cfg, c, h, h.pc !in faults);
      CancelKeepsTransfer(cfg, row, c', h', faults);
    }
  }

  lemma {:induction false} ReportKeepsTransfer(cfg: Config, row: Row, c: Cell, h: ReportHandler, faults: set<ReportPc>)
    requires SameTransfer(row, c.row)
    ensures var r := ReportAlone(cfg, Some(c), h, faults).0; r.Some? && SameTransfer(row, r.value.row)
    decreases ReportRank(h.pc)
  {
    if h.pc != ReportDone {
      var (c', h') := ReportOn(cfg, c, h, h.pc !in faults);
      ReportKeepsTransfer(cfg, row, c', h', faults);
    }
  }

  lemma StepKeepsTransfer(cfg: Config, c: Cell, op: Op)
    ensures var r := StepCell(cfg, Some(c), op); r.Some? && SameTransfer(c.row, r.value.row)
  {
    match op
    case Create(_, _, _, _, _) =>
    case Cancel(_, now, faults) => CancelKeepsTransfer(cfg, c.row, c, StartCancel(now), faults);
    case Report(_, report, now, faults) => ReportKeepsTransfer(cfg, c.row, c, StartReport(report, now), faults);
  }

  /** Over every run with any failures, a stored transfer keeps its ends, owner, limits and strategy. */
  lemma {:induction false} TransferKept(cfg: Config, w: World, ops: seq<Op>, id: TransferId)
    requires id in w
    ensures var w' := RunFrom(cfg, w, ops); id in w' && SameTransfer(w[id].row, w'[id].row)
    decreases |ops|
  {
    if ops != [] {
      if ops[0].id == id { StepKeepsTransfer(cfg, w[id], ops[0]); }
      TransferKept(cfg, Step(cfg, w, ops[0]), ops[1..], id);
    }
  }
}
