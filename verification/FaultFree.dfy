/**
 Runs in which the repository never fails (agents and validation still may). Each operation then has a simple
 closed form, from which event-log replay, the retry bound and exactly-once cleanup follow.
 */
module FaultFree {
  import opened Wrappers
  import opened Transfers
  import opened Handlers
  import opened Lifecycle
  import opened Faults

  predicate NoRepositoryFault(op: Op) {
    match op
    case Create(_, _, _, _, faults) => faults <= {CommandSource, CommandDestination}
    case Cancel(_, _, faults) => faults == {}
    case Report(_, _, _, faults) => faults == {}
  }

  ghost predicate FaultFreeOps(ops: seq<Op>) {
    forall i :: 0 <= i < |ops| ==> NoRepositoryFault(ops[i])
  }

  // ---------------------------------------------------------------------------
  // Closed forms

  function Cancelling(c: Cell, cfg: Config, now: int): Cell {
    Cell(c.row.(state := Cancelled, completedAt := Some(now)),
         c.log + [LogCancelled],
         c.path + [Cancelled],
         c.effects + Closing(cfg) + [SendCancel(c.row.source.cluster)] + [SendCancel(c.row.destination.cluster)]
         + CleanupEffects(c.row))
  }

  function AfterCancel(c: Cell, cfg: Config, now: int): Cell {
    if IsTerminal(c.row.state) then c else Cancelling(c, cfg, now)
  }

  /** The bookkeeping every report gets. */
  function Noted(c: Cell, cfg: Config, report: Report): Cell {
    Cell(c.row.(progress := report.progress), c.log + [LogProgress(report)], c.path,
         c.effects + Publishing(cfg, report))
  }

  function Finished(c: Cell, cfg: Config, row: Row, last: Event): Cell {
    Cell(row, c.log + [last], c.path + [row.state], c.effects + Closing(cfg) + CleanupEffects(row))
  }

  function Retried(c: Cell): Cell {
    c.(row := c.row.(retryCount := c.row.retryCount + 1), log := c.log + [LogRetried(c.row.retryCount + 1)])
  }

  function AfterReport(c: Cell, cfg: Config, report: Report, now: int): Cell {
    var n := Noted(c, cfg, report);
    if report.status == "completed" && c.row.state == Transferring then
      Finished(n, cfg, n.row.(state := Completed, completedAt := Some(now)), LogCompleted)
    else if report.status == "failed" && MayRetry(c.row) then Retried(n)
    else if report.status == "failed" && Edge(c.row.state, Failed) then
      var failure := Exhausted(report.errorMessage);
      Finished(n, cfg, n.row.(state := Failed, failure := Some(failure), completedAt := Some(now)), LogFailed(failure))
    else n
  }

  lemma CancelClosedForm(cfg: Config, c: Cell, now: int)
    ensures CancelAlone(cfg, Some(c), StartCancel(now), {}).0 == Some(AfterCancel(c, cfg, now))
  {
    CancelEverywhere(cfg, c, now, {});
  }

  lemma ReportClosedForm(cfg: Config, c: Cell, report: Report, now: int)
    ensures ReportAlone(cfg, Some(c), StartReport(report, now), {}).0 == Some(AfterReport(c, cfg, report, now))
  {
    ReportEverywhere(cfg, c, report, now, {});
  }

  // ---------------------------------------------------------------------------
  // Creation

  /** A transfer that got as far as validation. */
  function Admitted(cfg: Config, req: Request, now: int): Cell {
    var c := NewCell(cfg, req, now);
    Cell(c.row.(state := Validating), [LogCreated], [Pending, Validating], [])
  }

  function Started(cfg: Config, req: Request, now: int, s: Strategy): Cell {
    var c := NewCell(cfg, req, now);
    Cell(c.row.(state := Transferring, strategy := Some(s), startedAt := Some(now)),
         [LogCreated, LogValidated, LogStarted(s)], [Pending, Validating, Transferring], [])
  }

  function AfterCreate(cfg: Config, req: Request, now: int, lookup: Lookup, faults: set<CreatePc>): Cell {
    var rejection, strategy := ValidateTransferRequest(req, lookup), SelectStrategy(req, cfg.s3Configured);
    if rejection.Some? then
      Log(PersistFailure(Admitted(cfg, req, now), Invalid(rejection.value), now),
          LogFailed(Invalid(rejection.value)), true)
    else if strategy.None? then
      PersistFailure(Log(Admitted(cfg, req, now), LogValidated, true), BadStrategy, now)
    else
      var toSource := Emit(Started(cfg, req, now, strategy.value), [SendTransfer(req.source.cluster)]);
      if CommandSource in faults then Log(PersistFailure(toSource, SourceCommand, now), LogFailed(SourceCommand), true)
      else
        var toBoth := Emit(toSource, [SendTransfer(req.destination.cluster)]);
        if CommandDestination in faults
        then Log(PersistFailure(toBoth, DestinationCommand, now), LogFailed(DestinationCommand), true)
        else toBoth
  }

  lemma FailsIs(c: Cell, failure: Failure, now: int, faults: set<CreatePc>)
    requires faults <= {CommandSource, CommandDestination}
    ensures FailsWith(c, failure, now, faults)
            == Log(PersistFailure(c, failure, now), LogFailed(failure), failure != BadStrategy)
  {
    assert c.log + [] == c.log;
  }

  lemma AdmittedIs(cfg: Config, req: Request, now: int, s: Strategy)
    ensures var v := Log(Admitted(cfg, req, now), LogValidated, true);
            v.(row := v.row.(strategy := Some(s), state := Transferring, startedAt := Some(now)),
               path := v.path + [Transferring], log := v.log + [LogStarted(s)])
            == Started(cfg, req, now, s)
  {
    var v := Log(Admitted(cfg, req, now), LogValidated, true);
    assert v.log + [LogStarted(s)] == [LogCreated, LogValidated, LogStarted(s)];
    assert v.path + [Transferring] == [Pending, Validating, Transferring];
  }

  lemma TransferIs(cfg: Config, req: Request, now: int, s: Strategy, faults: set<CreatePc>)
    requires faults <= {CommandSource, CommandDestination}
    ensures var toSource := Emit(Started(cfg, req, now, s), [SendTransfer(req.source.cluster)]);
            var toBoth := Emit(toSource, [SendTransfer(req.destination.cluster)]);
            TransferLeaves(req, now, s, Log(Admitted(cfg, req, now), LogValidated, true), faults)
            == if CommandSource in faults
               then Log(PersistFailure(toSource, SourceCommand, now), LogFailed(SourceCommand), true)
               else if CommandDestination in faults
               then Log(PersistFailure(toBoth, DestinationCommand, now), LogFailed(DestinationCommand), true)
               else toBoth
  {
    var toSource := Emit(Started(cfg, req, now, s), [SendTransfer(req.source.cluster)]);
    AdmittedIs(cfg, req, now, s);
    FailsIs(toSource, SourceCommand, now, faults);
    FailsIs(Emit(toSource, [SendTransfer(req.destination.cluster)]), DestinationCommand, now, faults);
  }

  lemma CreateClosedForm(cfg: Config, req: Request, now: int, lookup: Lookup, faults: set<CreatePc>)
    requires faults <= {CommandSource, CommandDestination}
    ensures CreateAlone(cfg, None, StartCreate(req, now, lookup), faults).0
            == Some(AfterCreate(cfg, req, now, lookup, faults))
  {
    CreateEverywhere(cfg, req, now, lookup, faults);
    var rejection, strategy := ValidateTransferRequest(req, lookup), SelectStrategy(req, cfg.s3Configured);
    var a := Admitted(cfg, req, now);
    if rejection.Some? {
      FailsIs(a, Invalid(rejection.value), now, faults);
    } else if strategy.None? {
      FailsIs(Log(a, LogValidated, true), BadStrategy, now, faults);
    } else {
      TransferIs(cfg, req, now, strategy.value, faults);
    }
  }
}
