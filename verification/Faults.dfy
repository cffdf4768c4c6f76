/**
 What each operation leaves behind when calls fail, whichever they are. A write that fails stops the operation
 where it stands; a lost event, and a call to an agent or the hub that fails, stops nothing.
 */
module Faults {
  import opened Wrappers
  import opened Transfers
  import opened Handlers
  import opened Lifecycle

  /** An entry of the log, unless it is lost. */
  function Unless(lost: bool, e: Event): seq<Event> {
    if lost then [] else [e]
  }

  lemma LogUnless(c: Cell, e: Event, lost: bool)
    ensures Log(c, e, !lost) == c.(log := c.log + Unless(lost, e))
  {
    assert c.log + [] == c.log;
  }

  function Closing(cfg: Config): seq<Effect> {
    if cfg.hasHub then [CloseStream] else []
  }

  function Publishing(cfg: Config, report: Report): seq<Effect> {
    if cfg.hasHub then [Publish(report)] else []
  }

  // ---------------------------------------------------------------------------
  // Cancellation

  function CancelLeaves(cfg: Config, c: Cell, now: int, faults: set<CancelPc>): Cell {
    if IsTerminal(c.row.state) || LoadForCancel in faults || PersistCancelled in faults then c
    else if PersistCancelledAt in faults then c.(row := c.row.(state := Cancelled), path := c.path + [Cancelled])
    else
      Cell(c.row.(state := Cancelled, completedAt := Some(now)),
           c.log + Unless(RecordCancelled in faults, LogCancelled),
           c.path + [Cancelled],
           c.effects + Closing(cfg) + [SendCancel(c.row.source.cluster)] + [SendCancel(c.row.destination.cluster)]
           + CleanupEffects(c.row))
  }

  lemma {:induction false} CancelGoesOn(cfg: Config, c: Cell, h: CancelHandler, faults: set<CancelPc>)
    requires h.pc != CancelDone
    ensures var (c', h') := CancelOn(cfg, c, h, h.pc !in faults);
            CancelAlone(cfg, Some(c), h, faults) == CancelAlone(cfg, Some(c'), h', faults)
  {
  }

  /** The calls do not depend on what fails. */
  lemma CancelCallsAnyway(cfg: Config, c: Cell, h: CancelHandler, faults: set<CancelPc>)
    requires h.pc == CloseCancelled && h.row.Some?
    ensures var row := h.row.value;
            CancelAlone(cfg, Some(c), h, faults).0
            == Some(c.(effects := c.effects + Closing(cfg) + [SendCancel(row.source.cluster)]
                                  + [SendCancel(row.destination.cluster)] + CleanupEffects(row)))
  {
    var (c1, h1) := CancelOn(cfg, c, h, h.pc !in faults);
    var (c2, h2) := CancelOn(cfg, c1, h1, h1.pc !in faults);
    var (c3, h3) := CancelOn(cfg, c2, h2, h2.pc !in faults);
    CancelGoesOn(cfg, c, h, faults);
    CancelGoesOn(cfg, c1, h1, faults);
    CancelGoesOn(cfg, c2, h2, faults);
    CancelGoesOn(cfg, c3, h3, faults);
    assert c.effects + [] == c.effects;
  }

  lemma CancelEverywhere(cfg: Config, c: Cell, now: int, faults: set<CancelPc>)
    ensures CancelAlone(cfg, Some(c), StartCancel(now), faults).0 == Some(CancelLeaves(cfg, c, now, faults))
  {
    var h := StartCancel(now);
    CancelGoesOn(cfg, c, h, faults);
    if !IsTerminal(c.row.state) && LoadForCancel !in faults {
      var (_, h1) := CancelOn(cfg, c, h, true);
      CancelGoesOn(cfg, c, h1, faults);
      if PersistCancelled !in faults { CancelPersisted(cfg, c, h1.(pc := PersistCancelledAt), faults); }
    }
  }

  lemma CancelPersisted(cfg: Config, c: Cell, h: CancelHandler, faults: set<CancelPc>)
    requires h.pc == PersistCancelledAt && h.row == Some(c.row.(state := Cancelled, completedAt := Some(h.now)))
    requires !IsTerminal(c.row.state) && faults !! {LoadForCancel, PersistCancelled}
    ensures CancelAlone(cfg, Some(Persist(c, Cancelled)), h, faults).0 == Some(CancelLeaves(cfg, c, h.now, faults))
  {
    var p := Persist(c, Cancelled);
    CancelGoesOn(cfg, p, h, faults);
    if PersistCancelledAt !in faults {
      var t, h1 := p.(row := h.row.value), h.(pc := RecordCancelled);
      CancelGoesOn(cfg, t, h1, faults);
      LogUnless(t, LogCancelled, RecordCancelled in faults);
      CancelCallsAnyway(cfg, Log(t, LogCancelled, RecordCancelled !in faults), h1.(pc := CloseCancelled), faults);
    }
  }

  // ---------------------------------------------------------------------------
  // Reports

  /** The bookkeeping, once the progress is stored. */
  function Booked(cfg: Config, c: Cell, report: Report, faults: set<ReportPc>): Cell {
    Cell(c.row.(progress := report.progress), c.log + Unless(RecordProgress in faults, LogProgress(report)), c.path,
         c.effects + Publishing(cfg, report))
  }

  /** An ending: its row, its event, and then the stream is closed and the transfer cleaned up. */
  function Over(cfg: Config, c: Cell, row: Row, last: seq<Event>): Cell {
    Cell(row, c.log + last, c.path + [row.state], c.effects + Closing(cfg) + CleanupEffects(c.row))
  }

  function ReportLeaves(cfg: Config, c: Cell, report: Report, now: int, faults: set<ReportPc>): Cell {
    var n := Booked(cfg, c, report, faults);
    var failure := Exhausted(report.errorMessage);
    if LoadForReport in faults || PersistProgress in faults then c
    else if report.status == "completed" && c.row.state == Transferring then
      if PersistCompleted in faults then n
      else if PersistCompletedAt in faults then n.(row := n.row.(state := Completed), path := n.path + [Completed])
      else
        Over(cfg, n, n.row.(state := Completed, completedAt := Some(now)),
             Unless(RecordCompleted in faults, LogCompleted))
    else if report.status == "failed" && c.row.retryCount < c.row.retryMax then
      if IncrementRetries in faults then n
      else n.(row := n.row.(retryCount := c.row.retryCount + 1),
              log := n.log + Unless(RecordRetried in faults, LogRetried(c.row.retryCount + 1)))
    else if report.status == "failed" && (c.row.state == Validating || c.row.state == Transferring) then
      if PersistExhausted in faults then n
      else
        Over(cfg, n, n.row.(state := Failed, failure := Some(failure), completedAt := Some(now)),
             Unless(RecordExhausted in faults, LogFailed(failure)))
    else n
  }

  function Deciding(c: Cell, report: Report, now: int): ReportHandler {
    ReportHandler(report, now, PublishProgress, Some(c.row), Running)
  }

  lemma {:induction false} ReportGoesOn(cfg: Config, c: Cell, h: ReportHandler, faults: set<ReportPc>)
    requires h.pc != ReportDone
    ensures var (c', h') := ReportOn(cfg, c, h, h.pc !in faults);
            ReportAlone(cfg, Some(c), h, faults) == ReportAlone(cfg, Some(c'), h', faults)
  {
  }

  lemma ReportBooked(cfg: Config, c: Cell, report: Report, now: int, faults: set<ReportPc>)
    requires faults !! {LoadForReport, PersistProgress}
    ensures ReportAlone(cfg, Some(c), StartReport(report, now), faults)
            == ReportAlone(cfg, Some(Booked(cfg, c, report, faults)), Decide(Deciding(c, report, now), c.row), faults)
  {
    var h := StartReport(report, now);
    var (c1, h1) := ReportOn(cfg, c, h, true);
    var (c2, h2) := ReportOn(cfg, c1, h1, true);
    var (c3, h3) := ReportOn(cfg, c2, h2, RecordProgress !in faults);
    ReportGoesOn(cfg, c, h, faults);
    ReportGoesOn(cfg, c1, h1, faults);
    ReportGoesOn(cfg, c2, h2, faults);
    ReportGoesOn(cfg, c3, h3, faults);
    LogUnless(c2, LogProgress(report), RecordProgress in faults);
    assert h3 == Deciding(c, report, now);
    assert c.effects + [] == c.effects;
  }

  lemma ReportEndsAnyway(cfg: Config, c: Cell, h: ReportHandler, faults: set<ReportPc>)
    requires h.pc == CloseReported && h.row.Some?
    ensures ReportAlone(cfg, Some(c), h, faults).0
            == Some(c.(effects := c.effects + Closing(cfg) + CleanupEffects(h.row.value)))
  {
    var (c1, h1) := ReportOn(cfg, c, h, h.pc !in faults);
    var (c2, h2) := ReportOn(cfg, c1, h1, h1.pc !in faults);
    ReportGoesOn(cfg, c, h, faults);
    ReportGoesOn(cfg, c1, h1, faults);
    assert ReportAlone(cfg, Some(c2), h2, faults) == (Some(c2), h2);
    assert c.effects + [] == c.effects;
  }

  lemma ReportCompletes(cfg: Config, n: Cell, h: ReportHandler, faults: set<ReportPc>)
    requires h.pc == PersistCompleted && h.row.Some? && CleanupEffects(h.row.value) == CleanupEffects(n.row)
    ensures ReportAlone(cfg, Some(n), h, faults).0
            == Some(if PersistCompleted in faults then n
                    else if PersistCompletedAt in faults then Persist(n, Completed)
                    else Over(cfg, n, n.row.(state := Completed, completedAt := Some(h.now)),
                              Unless(RecordCompleted in faults, LogCompleted)))
  {
    ReportGoesOn(cfg, n, h, faults);
    if PersistCompleted !in faults {
      var p, h1 := Persist(n, Completed), h.(pc := PersistCompletedAt);
      ReportGoesOn(cfg, p, h1, faults);
      if PersistCompletedAt !in faults {
        var t, h2 := p.(row := p.row.(completedAt := Some(h.now))), h.(pc := RecordCompleted);
        ReportGoesOn(cfg, t, h2, faults);
        LogUnless(t, LogCompleted, RecordCompleted in faults);
        ReportEndsAnyway(cfg, Log(t, LogCompleted, RecordCompleted !in faults), h.(pc := CloseReported), faults);
      }
    }
  }

  lemma ReportExhausts(cfg: Config, n: Cell, h: ReportHandler, faults: set<ReportPc>)
    requires h.pc == PersistExhausted && h.row.Some? && CleanupEffects(h.row.value) == CleanupEffects(n.row)
    ensures var failure := Exhausted(h.report.errorMessage);
            ReportAlone(cfg, Some(n), h, faults).0
            == Some(if PersistExhausted in faults then n
                    else Over(cfg, n, n.row.(state := Failed, failure := Some(failure), completedAt := Some(h.now)),
                              Unless(RecordExhausted in faults, LogFailed(failure))))
  {
    var failure := Exhausted(h.report.errorMessage);
    ReportGoesOn(cfg, n, h, faults);
    if PersistExhausted !in faults {
      var p, h1 := PersistFailure(n, failure, h.now), h.(pc := RecordExhausted);
      ReportGoesOn(cfg, p, h1, faults);
      LogUnless(p, LogFailed(failure), RecordExhausted in faults);
      ReportEndsAnyway(cfg, Log(p, LogFailed(failure), RecordExhausted !in faults), h.(pc := CloseReported), faults);
    }
  }

  lemma ReportRetries(cfg: Config, n: Cell, h: ReportHandler, faults: set<ReportPc>)
    requires h.pc == IncrementRetries && h.row.Some? && h.row.value.retryCount == n.row.retryCount
    ensures ReportAlone(cfg, Some(n), h, faults).0
            == Some(if IncrementRetries in faults then n
                    else n.(row := n.row.(retryCount := n.row.retryCount + 1),
                            log := n.log + Unless(RecordRetried in faults, LogRetried(n.row.retryCount + 1))))
  {
    ReportGoesOn(cfg, n, h, faults);
    if IncrementRetries !in faults {
      var r, h1 := n.(row := n.row.(retryCount := n.row.retryCount + 1)), h.(pc := RecordRetried);
      ReportGoesOn(cfg, r, h1, faults);
      LogUnless(r, LogRetried(n.row.retryCount + 1), RecordRetried in faults);
    }
  }

  lemma ReportEverywhere(cfg: Config, c: Cell, report: Report, now: int, faults: set<ReportPc>)
    ensures ReportAlone(cfg, Some(c), StartReport(report, now), faults).0
            == Some(ReportLeaves(cfg, c, report, now, faults))
  {
    var h := StartReport(report, now);
    if LoadForReport in faults {
      ReportGoesOn(cfg, c, h, faults);
    } else if PersistProgress in faults {
      ReportGoesOn(cfg, c, h, faults);
      ReportGoesOn(cfg, c, h.(pc := PersistProgress, row := Some(c.row)), faults);
    } else {
      ReportBooked(cfg, c, report, now, faults);
      var n, d := Booked(cfg, c, report, faults), Decide(Deciding(c, report, now), c.row);
      match d.pc
      case PersistCompleted => ReportCompletes(cfg, n, d, faults);
      case IncrementRetries => ReportRetries(cfg, n, d, faults);
      case PersistExhausted => ReportExhausts(cfg, n, d, faults);
      case _ =>
    }
  }

  // ---------------------------------------------------------------------------
  // Creation

  /** The failure is stored and recorded, each unless it fails. */
  function FailsWith(c: Cell, failure: Failure, now: int, faults: set<CreatePc>): Cell {
    var p := if PersistFailed in faults then c
      else c.(row := c.row.(state := Failed, failure := Some(failure), completedAt := Some(now)),
              path := c.path + [Failed]);
    p.(log := p.log + Unless(RecordFailed in faults || failure == BadStrategy, LogFailed(failure)))
  }

  /** From the moment the strategy is known. */
  function TransferLeaves(req: Request, now: int, s: Strategy, v: Cell, faults: set<CreatePc>): Cell {
    var chosen := v.(row := v.row.(strategy := Some(s)));
    var moving := chosen.(row := chosen.row.(state := Transferring), path := v.path + [Transferring]);
    var begun := moving.(row := moving.row.(startedAt := Some(now)),
                         log := v.log + Unless(RecordStarted in faults, LogStarted(s)));
    var one := begun.(effects := begun.effects + [SendTransfer(req.source.cluster)]);
    var two := one.(effects := one.effects + [SendTransfer(req.destination.cluster)]);
    if PersistStrategy in faults then v
    else if PersistTransferring in faults then chosen
    else if PersistStarted in faults then moving
    else if CommandSource in faults then FailsWith(one, SourceCommand, now, faults)
    else if CommandDestination in faults then FailsWith(two, DestinationCommand, now, faults)
    else two
  }

  function CreateLeaves(cfg: Config, req: Request, now: int, lookup: Lookup, faults: set<CreatePc>): Option<Cell> {
    var n := NewCell(cfg, req, now).(log := Unless(RecordCreated in faults, LogCreated));
    var v := n.(row := n.row.(state := Validating), path := [Pending, Validating]);
    var w := v.(log := v.log + Unless(RecordValidated in faults, LogValidated));
    var rejection, strategy := ValidateTransferRequest(req, lookup), SelectStrategy(req, cfg.s3Configured);
    if Insert in faults then None
    else if PersistValidating in faults then Some(n)
    else if rejection.Some? then Some(FailsWith(v, Invalid(rejection.value), now, faults))
    else if strategy.None? then Some(FailsWith(w, BadStrategy, now, faults))
    else Some(TransferLeaves(req, now, strategy.value, w, faults))
  }

  lemma {:induction false} CreateGoesOn(cfg: Config, c: Cell, h: CreateHandler, faults: set<CreatePc>)
    requires h.pc != CreateDone && h.pc != Insert
    ensures var (c', h') := CreateOn(cfg, c, h, h.pc !in faults);
            CreateAlone(cfg, Some(c), h, faults) == CreateAlone(cfg, Some(c'), h', faults)
  {
  }

  lemma FailsAnyway(cfg: Config, c: Cell, h: CreateHandler, faults: set<CreatePc>)
    requires h.pc == PersistFailed && h.failure.Some?
    ensures CreateAlone(cfg, Some(c), h, faults).0 == Some(FailsWith(c, h.failure.value, h.now, faults))
  {
    var (c1, h1) := CreateOn(cfg, c, h, PersistFailed !in faults);
    CreateGoesOn(cfg, c, h, faults);
    assert c1.log + [] == c1.log;
    if h1.pc == RecordFailed {
      CreateGoesOn(cfg, c1, h1, faults);
      LogUnless(c1, LogFailed(h.failure.value), RecordFailed in faults);
    }
  }

  lemma CommandsAnyway(cfg: Config, c: Cell, h: CreateHandler, faults: set<CreatePc>)
    requires h.pc == CommandSource
    ensures var one := c.(effects := c.effects + [SendTransfer(h.req.source.cluster)]);
            var two := one.(effects := one.effects + [SendTransfer(h.req.destination.cluster)]);
            CreateAlone(cfg, Some(c), h, faults).0
            == Some(if CommandSource in faults then FailsWith(one, SourceCommand, h.now, faults)
                    else if CommandDestination in faults then FailsWith(two, DestinationCommand, h.now, faults)
                    else two)
  {
    var (c1, h1) := CreateOn(cfg, c, h, CommandSource !in faults);
    CreateGoesOn(cfg, c, h, faults);
    if CommandSource in faults {
      FailsAnyway(cfg, c1, h1, faults);
    } else {
      var (c2, h2) := CreateOn(cfg, c1, h1, CommandDestination !in faults);
      CreateGoesOn(cfg, c1, h1, faults);
      if CommandDestination in faults { FailsAnyway(cfg, c2, h2, faults); }
    }
  }

  lemma BegunAnyway(cfg: Config, c: Cell, h: CreateHandler, faults: set<CreatePc>, s: Strategy)
    requires h.pc == PersistStarted && h.strategy == Some(s) && PersistStarted !in faults
    ensures var begun := c.(row := c.row.(startedAt := Some(h.now)),
                            log := c.log + Unless(RecordStarted in faults, LogStarted(s)));
            CreateAlone(cfg, Some(c), h, faults) == CreateAlone(cfg, Some(begun), h.(pc := CommandSource), faults)
  {
    var (c1, h1) := CreateOn(cfg, c, h, true);
    CreateGoesOn(cfg, c, h, faults);
    CreateGoesOn(cfg, c1, h1, faults);
    LogUnless(c1, LogStarted(s), RecordStarted in faults);
  }

  lemma TransferAnyway(cfg: Config, v: Cell, h: CreateHandler, faults: set<CreatePc>, s: Strategy)
    requires h.pc == PersistStrategy && h.strategy == Some(s)
    ensures CreateAlone(cfg, Some(v), h, faults).0 == Some(TransferLeaves(h.req, h.now, s, v, faults))
  {
    CreateGoesOn(cfg, v, h, faults);
    if PersistStrategy !in faults {
      var chosen := v.(row := v.row.(strategy := Some(s)));
      CreateGoesOn(cfg, chosen, h.(pc := PersistTransferring), faults);
      if PersistTransferring !in faults {
        var moving := Persist(chosen, Transferring);
        if PersistStarted in faults {
          CreateGoesOn(cfg, moving, h.(pc := PersistStarted), faults);
        } else {
          BegunAnyway(cfg, moving, h.(pc := PersistStarted), faults, s);
          CommandsAnyway(cfg, moving.(row := moving.row.(startedAt := Some(h.now)),
                                      log := v.log + Unless(RecordStarted in faults, LogStarted(s))),
                         h.(pc := CommandSource), faults);
        }
      }
    }
  }

  lemma ValidatedAnyway(cfg: Config, v: Cell, h: CreateHandler, faults: set<CreatePc>)
    requires h.pc == Validate
    ensures var w := v.(log := v.log + Unless(RecordValidated in faults, LogValidated));
            var rejection := ValidateTransferRequest(h.req, h.lookup);
            var strategy := SelectStrategy(h.req, cfg.s3Configured);
            CreateAlone(cfg, Some(v), h, faults).0
            == Some(if rejection.Some? then FailsWith(v, Invalid(rejection.value), h.now, faults)
                    else if strategy.None? then FailsWith(w, BadStrategy, h.now, faults)
                    else TransferLeaves(h.req, h.now, strategy.value, w, faults))
  {
    var (_, h1) := CreateOn(cfg, v, h, true);
    CreateGoesOn(cfg, v, h, faults);
    if h1.pc == PersistFailed {
      FailsAnyway(cfg, v, h1, faults);
    } else {
      CreateGoesOn(cfg, v, h1, faults);
      LogUnless(v, LogValidated, RecordValidated in faults);
      PickedAnyway(cfg, Log(v, LogValidated, RecordValidated !in faults), h1.(pc := PickStrategy), faults);
    }
  }

  lemma PickedAnyway(cfg: Config, w: Cell, h: CreateHandler, faults: set<CreatePc>)
    requires h.pc == PickStrategy
    ensures var strategy := SelectStrategy(h.req, cfg.s3Configured);
            CreateAlone(cfg, Some(w), h, faults).0
            == Some(if strategy.None? then FailsWith(w, BadStrategy, h.now, faults)
                    else TransferLeaves(h.req, h.now, strategy.value, w, faults))
  {
    var (_, h1) := CreateOn(cfg, w, h, true);
    CreateGoesOn(cfg, w, h, faults);
    if h1.pc == PersistFailed {
      FailsAnyway(cfg, w, h1, faults);
    } else {
      TransferAnyway(cfg, w, h1, faults, h1.strategy.value);
    }
  }

  lemma CreateEverywhere(cfg: Config, req: Request, now: int, lookup: Lookup, faults: set<CreatePc>)
    ensures CreateAlone(cfg, None, StartCreate(req, now, lookup), faults).0
            == CreateLeaves(cfg, req, now, lookup, faults)
  {
    var h := StartCreate(req, now, lookup);
    if Insert in faults {
      assert CreateAlone(cfg, None, CreateEnds(h, Rejected), faults).0 == None;
    } else {
      var c, h1 := NewCell(cfg, req, now), h.(pc := RecordCreated);
      assert CreateAlone(cfg, None, h, faults) == CreateAlone(cfg, Some(c), h1, faults);
      CreateGoesOn(cfg, c, h1, faults);
      LogUnless(c, LogCreated, RecordCreated in faults);
      assert [] + Unless(RecordCreated in faults, LogCreated) == Unless(RecordCreated in faults, LogCreated);
      var n := Log(c, LogCreated, RecordCreated !in faults);
      CreateGoesOn(cfg, n, h.(pc := PersistValidating), faults);
      if PersistValidating !in faults {
        assert [Pending] + [Validating] == [Pending, Validating];
        ValidatedAnyway(cfg, Persist(n, Validating), h.(pc := Validate), faults);
      }
    }
  }

  // ---------------------------------------------------------------------------
  // All three

  /** What an operation leaves of its transfer, told without its steps. */
  function Leaves(cfg: Config, c: Option<Cell>, op: Op): Option<Cell> {
    match op
    case Create(_, req, now, lookup, faults) =>
      if c.Some? then c else CreateLeaves(cfg, req, now, lookup, faults)
    case Cancel(_, now, faults) =>
      if c.None? then None else Some(CancelLeaves(cfg, c.value, now, faults))
    case Report(_, report, now, faults) =>
      if c.None? then None else Some(ReportLeaves(cfg, c.value, report, now, faults))
  }

  lemma {:induction false} NothingToCancel(cfg: Config, h: CancelHandler, faults: set<CancelPc>)
    ensures CancelAlone(cfg, None, h, faults).0 == None
  {
    assert CancelAlone(cfg, None, CancelEnds(h, Rejected), faults).0 == None;
  }

  lemma {:induction false} NothingToReport(cfg: Config, h: ReportHandler, faults: set<ReportPc>)
    ensures ReportAlone(cfg, None, h, faults).0 == None
  {
    assert ReportAlone(cfg, None, ReportEnds(h, Rejected), faults).0 == None;
  }

  /** With any faults, an operation leaves exactly that. */
  lemma StepLeaves(cfg: Config, c: Option<Cell>, op: Op)
    ensures StepCell(cfg, c, op) == Leaves(cfg, c, op)
  {
    match op
    case Create(_, req, now, lookup, faults) => CreateEverywhere(cfg, req, now, lookup, faults);
    case Cancel(_, now, faults) =>
      if c.None? { NothingToCancel(cfg, StartCancel(now), faults); }
      else { CancelEverywhere(cfg, c.value, now, faults); }
    case Report(_, report, now, faults) =>
      if c.None? { NothingToReport(cfg, StartReport(report, now), faults); }
      else { ReportEverywhere(cfg, c.value, report, now, faults); }
  }
}
