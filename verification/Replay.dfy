/** Event-log replay, retry bounds and exactly-once cleanup in runs without repository faults. */
module Replay {
  import opened Wrappers
  import opened Transfers
  import opened Handlers
  import opened Lifecycle
  import opened FaultFree
  import opened Faults

  // ---------------------------------------------------------------------------
  // Reading the log

  /** The state an event leads to; progress and retries leave it as it is. */
  function Apply(s: Option<State>, e: Event): Option<State> {
    match e
    case LogCreated => Some(Pending)
    case LogValidated => Some(Validating)
    case LogStarted(_) => Some(Transferring)
    case LogCompleted => Some(Completed)
    case LogFailed(_) => Some(Failed)
    case LogCancelled => Some(State.Cancelled)
    case LogProgress(_) => s
    case LogRetried(_) => s
  }

  function Fold(log: seq<Event>): Option<State> {
    if log == [] then None else Apply(Fold(log[..|log| - 1]), log[|log| - 1])
  }

  function Retries(log: seq<Event>): nat {
    if log == [] then 0 else Retries(log[..|log| - 1]) + if log[|log| - 1].LogRetried? then 1 else 0
  }

  predicate Ending(e: Event) {
    e.LogCompleted? || e.LogFailed? || e.LogCancelled?
  }

  function Endings(log: seq<Event>): nat {
    if log == [] then 0 else Endings(log[..|log| - 1]) + if Ending(log[|log| - 1]) then 1 else 0
  }

  /** The retries carry the attempt numbers 1, 2, 3, ... */
  predicate Numbered(log: seq<Event>) {
    log != [] ==>
      var n := |log| - 1;
      Numbered(log[..n]) && (log[n].LogRetried? ==> log[n].attempt == Retries(log[..n]) + 1)
  }

  lemma Extend(log: seq<Event>, e: Event)
    ensures Fold(log + [e]) == Apply(Fold(log), e)
    ensures Retries(log + [e]) == Retries(log) + if e.LogRetried? then 1 else 0
    ensures Endings(log + [e]) == Endings(log) + if Ending(e) then 1 else 0
    ensures Numbered(log + [e]) <==> Numbered(log) && (e.LogRetried? ==> e.attempt == Retries(log) + 1)
  {
    assert (log + [e])[..|log|] == log;
  }

  /** The log tells the whole story of the row. */
  predicate Faithful(c: Cell) {
    && c.log != [] && c.log[0] == LogCreated
    && Fold(c.log) == Some(c.row.state)
    && Numbered(c.log) && Retries(c.log) == c.row.retryCount
    && Endings(c.log) == (if IsTerminal(c.row.state) then 1 else 0)
    && (c.row.completedAt.Some? <==> IsTerminal(c.row.state))
  }

  lemma CancelFaithful(cfg: Config, c: Cell, now: int)
    requires Faithful(c)
    ensures Faithful(AfterCancel(c, cfg, now))
  {
    Extend(c.log, LogCancelled);
  }

  lemma NotedFaithful(cfg: Config, c: Cell, report: Report)
    requires Faithful(c)
    ensures Faithful(Noted(c, cfg, report))
  {
    Extend(c.log, LogProgress(report));
  }

  lemma FinishedFaithful(cfg: Config, n: Cell, row: Row, last: Event)
    requires Faithful(n) && !IsTerminal(n.row.state) && Ending(last)
    requires Apply(None, last) == Some(row.state) && row.completedAt.Some? && row.retryCount == n.row.retryCount
    ensures Faithful(Finished(n, cfg, row, last))
  {
    Extend(n.log, last);
  }

  lemma RetriedFaithful(n: Cell)
    requires Faithful(n)
    ensures Faithful(Retried(n))
  {
    Extend(n.log, LogRetried(n.row.retryCount + 1));
  }

  lemma ReportFaithful(cfg: Config, c: Cell, report: Report, now: int)
    requires Faithful(c)
    ensures Faithful(AfterReport(c, cfg, report, now))
  {
    var n := Noted(c, cfg, report);
    NotedFaithful(cfg, c, report);
    if report.status == "completed" && c.row.state == Transferring {
      FinishedFaithful(cfg, n, n.row.(state := Completed, completedAt := Some(now)), LogCompleted);
    } else if report.status == "failed" && MayRetry(c.row) {
      RetriedFaithful(n);
    } else if report.status == "failed" && Edge(c.row.state, Failed) {
      var failure := Exhausted(report.errorMessage);
      FinishedFaithful(cfg, n, n.row.(state := Failed, failure := Some(failure), completedAt := Some(now)),
                       LogFailed(failure));
    }
  }

  lemma SmallLogs(s: Strategy, f: Failure)
    ensures var one, two, three := [LogCreated], [LogCreated, LogValidated], [LogCreated, LogValidated, LogStarted(s)];
            && Fold(one) == Some(Pending) && Fold(two) == Some(Validating) && Fold(three) == Some(Transferring)
            && Retries(one) == Retries(two) == Retries(three) == 0
            && Endings(one) == Endings(two) == Endings(three) == 0
            && Numbered(one) && Numbered(two) && Numbered(three)
  {
    Extend([], LogCreated);
    Extend([LogCreated], LogValidated);
    Extend([LogCreated, LogValidated], LogStarted(s));
    assert [] + [LogCreated] == [LogCreated] && [LogCreated] + [LogValidated] == [LogCreated, LogValidated];
    assert [LogCreated, LogValidated] + [LogStarted(s)] == [LogCreated, LogValidated, LogStarted(s)];
  }

  lemma LoggedFailure(c: Cell, failure: Failure, now: int)
    requires c.log != [] && c.log[0] == LogCreated && Numbered(c.log)
    requires Retries(c.log) == c.row.retryCount && Endings(c.log) == 0
    ensures Faithful(Log(PersistFailure(c, failure, now), LogFailed(failure), true))
  {
    Extend(c.log, LogFailed(failure));
  }

  /** Creation leaves a faithful log exactly unless a validated request names an unknown strategy. */
  lemma CreateFaithful(cfg: Config, req: Request, now: int, lookup: Lookup, faults: set<CreatePc>)
    ensures Faithful(AfterCreate(cfg, req, now, lookup, faults))
            <==> !(Safe(req, lookup) && req.strategyOverride.Some? && !KnownStrategy(req.strategyOverride.value))
  {
    var rejection, strategy := ValidateTransferRequest(req, lookup), SelectStrategy(req, cfg.s3Configured);
    if rejection.Some? {
      SmallLogs(Stream, BadStrategy);
      LoggedFailure(Admitted(cfg, req, now), Invalid(rejection.value), now);
    } else if strategy.Some? {
      StartedFaithful(cfg, req, now, lookup, faults, strategy.value);
    } else {
      SmallLogs(Stream, BadStrategy);
      assert [LogCreated] + [LogValidated] == [LogCreated, LogValidated];
    }
  }

  lemma StartedFaithful(cfg: Config, req: Request, now: int, lookup: Lookup, faults: set<CreatePc>, s: Strategy)
    requires Safe(req, lookup) && SelectStrategy(req, cfg.s3Configured) == Some(s)
    ensures Faithful(AfterCreate(cfg, req, now, lookup, faults))
  {
    var toSource := Emit(Started(cfg, req, now, s), [SendTransfer(req.source.cluster)]);
    var toBoth := Emit(toSource, [SendTransfer(req.destination.cluster)]);
    SmallLogs(s, BadStrategy);
    LoggedFailure(toSource, SourceCommand, now);
    LoggedFailure(toBoth, DestinationCommand, now);
  }

  ghost predicate AcceptedInputs(ops: seq<Op>) {
    forall i :: 0 <= i < |ops| && ops[i].Create? ==> AcceptableInput(ops[i].req)
  }

  ghost predicate AllFaithful(w: World) {
    forall id :: id in w ==> Faithful(w[id])
  }

  /** The closed form of an operation on its transfer. */
  lemma StepClosedForm(cfg: Config, c: Option<Cell>, op: Op)
    requires NoRepositoryFault(op)
    ensures StepCell(cfg, c, op)
            == match op
               case Create(_, req, now, lookup, faults) =>
                 if c.Some? then c else Some(AfterCreate(cfg, req, now, lookup, faults))
               case Cancel(_, now, _) => if c.Some? then Some(AfterCancel(c.value, cfg, now)) else None
               case Report(_, report, now, _) => if c.Some? then Some(AfterReport(c.value, cfg, report, now)) else None
  {
    match op
    case Create(_, req, now, lookup, faults) => CreateClosedForm(cfg, req, now, lookup, faults);
    case Cancel(_, now, faults) =>
      if c.Some? {
        CancelClosedForm(cfg, c.value, now);
      } else {
        var (c1, h1) := CancelStep(cfg, c, StartCancel(now), true);
        assert CancelAlone(cfg, c1, h1, faults) == (c, h1);
      }
    case Report(_, report, now, faults) =>
      if c.Some? {
        ReportClosedForm(cfg, c.value, report, now);
      } else {
        var (c1, h1) := ReportStep(cfg, c, StartReport(report, now), true);
        assert ReportAlone(cfg, c1, h1, faults) == (c, h1);
      }
  }

  /** A creation that takes effect, passes validation, and fails on its strategy without a word in the log. */
  predicate Silent(c: Option<Cell>, op: Op) {
    && op.Create? && c.None? && Safe(op.req, op.lookup)
    && op.req.strategyOverride.Some? && !KnownStrategy(op.req.strategyOverride.value)
  }

  /** Each operation starts from a faithful log and leaves one, unless it fails silently. */
  lemma StepFaithfulExactly(cfg: Config, c: Option<Cell>, op: Op)
    requires NoRepositoryFault(op) && (c.Some? ==> Faithful(c.value))
    ensures var r := StepCell(cfg, c, op);
            && (c.Some? || op.Create? ==> r.Some?)
            && (r.Some? ==> (Faithful(r.value) <==> !Silent(c, op)))
  {
    StepClosedForm(cfg, c, op);
    match op
    case Create(_, req, now, lookup, faults) => CreateFaithful(cfg, req, now, lookup, faults);
    case Cancel(_, now, _) => if c.Some? { CancelFaithful(cfg, c.value, now); }
    case Report(_, report, now, _) => if c.Some? { ReportFaithful(cfg, c.value, report, now); }
  }

  /** Over without an ending in the log. */
  predicate Mute(c: Cell) {
    IsTerminal(c.row.state) && Endings(c.log) == 0
  }

  lemma SilentIsMute(cfg: Config, op: Op)
    requires NoRepositoryFault(op) && Silent(None, op)
    ensures var r := StepCell(cfg, None, op); r.Some? && Mute(r.value)
  {
    StepClosedForm(cfg, None, op);
    SmallLogs(Stream, BadStrategy);
    assert [LogCreated] + [LogValidated] == [LogCreated, LogValidated];
  }

  /** Nothing mends it: no later operation writes an ending. */
  lemma MuteStays(cfg: Config, c: Cell, op: Op)
    requires NoRepositoryFault(op) && Mute(c)
    ensures var r := StepCell(cfg, Some(c), op); r.Some? && Mute(r.value)
  {
    StepClosedForm(cfg, Some(c), op);
    if op.Report? {
      var n := Noted(c, cfg, op.report);
      Extend(c.log, LogProgress(op.report));
      Extend(n.log, LogRetried(n.row.retryCount + 1));
    }
  }

  lemma {:induction false} RunStaysMute(cfg: Config, w: World, ops: seq<Op>, id: TransferId)
    requires FaultFreeOps(ops) && id in w && Mute(w[id])
    ensures id in RunFrom(cfg, w, ops) && Mute(RunFrom(cfg, w, ops)[id])
    decreases |ops|
  {
    if ops != [] {
      if ops[0].id == id { MuteStays(cfg, w[id], ops[0]); }
      RunStaysMute(cfg, Step(cfg, w, ops[0]), ops[1..], id);
    }
  }

  /** No creation of the run that takes effect fails silently. */
  ghost predicate NoneSilent(cfg: Config, w: World, ops: seq<Op>)
    decreases |ops|
  {
    ops == [] || (!Silent(CellOf(w, ops[0].id), ops[0]) && NoneSilent(cfg, Step(cfg, w, ops[0]), ops[1..]))
  }

  /** Event-log replay: over every run without repository faults, all logs are faithful iff no creation is silent. */
  lemma {:induction false} LogReplayExactly(cfg: Config, w: World, ops: seq<Op>)
    requires AllFaithful(w) && FaultFreeOps(ops)
    ensures AllFaithful(RunFrom(cfg, w, ops)) <==> NoneSilent(cfg, w, ops)
    decreases |ops|
  {
    if ops != [] {
      var op, w' := ops[0], Step(cfg, w, ops[0]);
      StepFaithfulExactly(cfg, CellOf(w, op.id), op);
      if Silent(CellOf(w, op.id), op) {
        SilentIsMute(cfg, op);
        RunStaysMute(cfg, w', ops[1..], op.id);
        assert !Faithful(RunFrom(cfg, w', ops[1..])[op.id]);
      } else {
        assert AllFaithful(w');
        LogReplayExactly(cfg, w', ops[1..]);
      }
    }
  }

  lemma {:induction false} AcceptedNotSilent(cfg: Config, w: World, ops: seq<Op>)
    requires AcceptedInputs(ops)
    ensures NoneSilent(cfg, w, ops)
    decreases |ops|
  {
    if ops != [] { AcceptedNotSilent(cfg, Step(cfg, w, ops[0]), ops[1..]); }
  }

  /** In particular over every run on accepted requests. */
  lemma LogReplay(cfg: Config, w: World, ops: seq<Op>)
    requires AllFaithful(w) && FaultFreeOps(ops) && AcceptedInputs(ops)
    ensures AllFaithful(RunFrom(cfg, w, ops))
  {
    LogReplayExactly(cfg, w, ops);
    AcceptedNotSilent(cfg, w, ops);
  }

  /** There is a completion time exactly in terminal states. */
  predicate Timed(c: Cell) {
    c.row.completedAt.Some? <==> IsTerminal(c.row.state)
  }

  lemma StepTimed(cfg: Config, c: Option<Cell>, op: Op)
    requires NoRepositoryFault(op) && (c.Some? ==> Timed(c.value))
    ensures var r := StepCell(cfg, c, op); r.Some? ==> Timed(r.value)
  {
    StepClosedForm(cfg, c, op);
  }

  /** Completion times, over every run without repository faults, whatever was requested. */
  lemma {:induction false} CompletionTimes(cfg: Config, w: World, ops: seq<Op>)
    requires (forall id :: id in w ==> Timed(w[id])) && FaultFreeOps(ops)
    ensures forall id :: id in RunFrom(cfg, w, ops) ==> Timed(RunFrom(cfg, w, ops)[id])
    decreases |ops|
  {
    if ops != [] {
      StepTimed(cfg, CellOf(w, ops[0].id), ops[0]);
      CompletionTimes(cfg, Step(cfg, w, ops[0]), ops[1..]);
    }
  }

  // ---------------------------------------------------------------------------
  // Retries run out

  predicate FailedReportOn(op: Op, id: TransferId) {
    op.Report? && op.id == id && op.report.status == "failed"
  }

  function FailedReports(ops: seq<Op>, id: TransferId): nat
    decreases |ops|
  {
    if ops == [] then 0 else (if FailedReportOn(ops[0], id) then 1 else 0) + FailedReports(ops[1..], id)
  }

  /** Failed reports the transfer can still take before it is over. */
  function Budget(row: Row): nat {
    if MayRetry(row) then row.retryMax - row.retryCount + 1 else 1
  }

  lemma StepSpendsBudget(cfg: Config, c: Cell, op: Op)
    requires NoRepositoryFault(op) && c.row.state == Transferring
    ensures var r := StepCell(cfg, Some(c), op);
            && r.Some?
            && (IsTerminal(r.value.row.state) ||
                (r.value.row.state == Transferring &&
                 Budget(r.value.row) == Budget(c.row) - if FailedReportOn(op, op.id) then 1 else 0))
  {
    StepClosedForm(cfg, Some(c), op);
  }

  lemma StepKeepsTerminal(cfg: Config, c: Cell, op: Op)
    requires NoRepositoryFault(op) && IsTerminal(c.row.state)
    ensures var r := StepCell(cfg, Some(c), op); r.Some? && r.value.row.state == c.row.state
  {
    StepClosedForm(cfg, Some(c), op);
  }

  /** A transferring transfer is over once it has had as many failed reports as it has retries left, and one more. */
  lemma {:induction false} RetriesRunOut(cfg: Config, w: World, ops: seq<Op>, id: TransferId)
    requires FaultFreeOps(ops) && id in w
    requires IsTerminal(w[id].row.state) ||
             (w[id].row.state == Transferring && FailedReports(ops, id) >= Budget(w[id].row))
    ensures var w' := RunFrom(cfg, w, ops); id in w' && IsTerminal(w'[id].row.state)
    decreases |ops|
  {
    if ops != [] {
      var op := ops[0];
      if op.id == id {
        if IsTerminal(w[id].row.state) {
          StepKeepsTerminal(cfg, w[id], op);
        } else {
          StepSpendsBudget(cfg, w[id], op);
        }
      }
      RetriesRunOut(cfg, Step(cfg, w, op), ops[1..], id);
    }
  }

  // ---------------------------------------------------------------------------
  // Cleanup

  function Count(effects: seq<Effect>, e: Effect): nat {
    if effects == [] then 0 else Count(effects[..|effects| - 1], e) + if effects[|effects| - 1] == e then 1 else 0
  }

  /** Operations that ended the transfer from outside its own creation. */
  function EndedBy(cfg: Config, w: World, ops: seq<Op>, id: TransferId): nat
    decreases |ops|
  {
    if ops == [] then 0
    else
      var w' := Step(cfg, w, ops[0]);
      (if id in w && !IsTerminal(w[id].row.state) && id in w' && IsTerminal(w'[id].row.state) then 1 else 0)
      + EndedBy(cfg, w', ops[1..], id)
  }

  lemma {:induction false} CountConcat(a: seq<Effect>, b: seq<Effect>, e: Effect)
    ensures Count(a + b, e) == Count(a, e) + Count(b, e)
    decreases |b|
  {
    if b == [] {
      assert a + b == a;
    } else {
      CountConcat(a, b[..|b| - 1], e);
      assert (a + b)[..|a + b| - 1] == a + b[..|b| - 1];
    }
  }

  lemma CountOne(x: Effect, e: Effect)
    ensures Count([x], e) == if x == e then 1 else 0
  {
    assert [x][..0] == [];
  }

  lemma CleanupCounts(cfg: Config, row: Row)
    ensures Count(CleanupEffects(row), RevokeCredentials) == 1
    ensures Count(CleanupEffects(row), DeleteObjects) == if row.strategy == Some(S3) then 1 else 0
    ensures Count(Closing(cfg), RevokeCredentials) == Count(Closing(cfg), DeleteObjects) == 0
  {
    var a, b, c := [RevokeCredentials], [SendCancel(row.source.cluster)], [SendCancel(row.destination.cluster)];
    var d := if row.strategy == Some(S3) then [DeleteObjects] else [];
    assert CleanupEffects(row) == a + b + c + d;
    forall e
      ensures Count(CleanupEffects(row), e) == Count(a, e) + Count(b, e) + Count(c, e) + Count(d, e)
    {
      CountConcat(a, b, e);
      CountConcat(a + b, c, e);
      CountConcat(a + b + c, d, e);
    }
    forall x: Effect, e: Effect
      ensures Count([x], e) == if x == e then 1 else 0
    {
      CountOne(x, e);
    }
  }

  /** `after` has `ended` more cleanups than `before`, with the objects deleted if the strategy is S3. */
  predicate CleanedUp(before: Cell, after: Cell, ended: nat) {
    && Count(after.effects, RevokeCredentials) == Count(before.effects, RevokeCredentials) + ended
    && Count(after.effects, DeleteObjects)
       == Count(before.effects, DeleteObjects) + if before.row.strategy == Some(S3) then ended else 0
  }

  lemma CancelCleansUp(cfg: Config, c: Cell, now: int)
    requires !IsTerminal(c.row.state)
    ensures CleanedUp(c, AfterCancel(c, cfg, now), 1)
  {
    var source, destination := [SendCancel(c.row.source.cluster)], [SendCancel(c.row.destination.cluster)];
    var e1 := c.effects + Closing(cfg);
    CleanupCounts(cfg, c.row);
    forall e | e == RevokeCredentials || e == DeleteObjects
      ensures Count(AfterCancel(c, cfg, now).effects, e) == Count(c.effects, e) + Count(CleanupEffects(c.row), e)
    {
      CountConcat(c.effects, Closing(cfg), e);
      CountConcat(e1, source, e);
      CountConcat(e1 + source, destination, e);
      CountConcat(e1 + source + destination, CleanupEffects(c.row), e);
    }
  }

  lemma FinishedCleansUp(cfg: Config, n: Cell, row: Row, last: Event)
    requires row.strategy == n.row.strategy
    ensures CleanedUp(n, Finished(n, cfg, row, last), 1)
  {
    CleanupCounts(cfg, row);
    forall e | e == RevokeCredentials || e == DeleteObjects
      ensures Count(Finished(n, cfg, row, last).effects, e) == Count(n.effects, e) + Count(CleanupEffects(row), e)
    {
      CountConcat(n.effects, Closing(cfg), e);
      CountConcat(n.effects + Closing(cfg), CleanupEffects(row), e);
    }
  }

  lemma NotedCleansNothing(cfg: Config, c: Cell, report: Report)
    ensures CleanedUp(c, Noted(c, cfg, report), 0)
  {
    CountConcat(c.effects, Publishing(cfg, report), RevokeCredentials);
    CountConcat(c.effects, Publishing(cfg, report), DeleteObjects);
  }

  lemma ReportCleansUp(cfg: Config, c: Cell, report: Report, now: int)
    ensures var r := AfterReport(c, cfg, report, now);
            CleanedUp(c, r, if !IsTerminal(c.row.state) && IsTerminal(r.row.state) then 1 else 0)
  {
    var n, r := Noted(c, cfg, report), AfterReport(c, cfg, report, now);
    NotedCleansNothing(cfg, c, report);
    if report.status == "completed" && c.row.state == Transferring {
      FinishedCleansUp(cfg, n, n.row.(state := Completed, completedAt := Some(now)), LogCompleted);
    } else if report.status == "failed" && !MayRetry(c.row) && Edge(c.row.state, Failed) {
      var failure := Exhausted(report.errorMessage);
      FinishedCleansUp(cfg, n, n.row.(state := Failed, failure := Some(failure), completedAt := Some(now)),
                       LogFailed(failure));
    } else {
      assert r.effects == n.effects && r.row.state == c.row.state;
    }
  }

  lemma StepCleansUp(cfg: Config, c: Cell, op: Op)
    requires NoRepositoryFault(op)
    ensures var r := StepCell(cfg, Some(c), op);
            && r.Some? && r.value.row.strategy == c.row.strategy
            && (IsTerminal(c.row.state) ==> IsTerminal(r.value.row.state))
            && CleanedUp(c, r.value, if !IsTerminal(c.row.state) && IsTerminal(r.value.row.state) then 1 else 0)
  {
    StepClosedForm(cfg, Some(c), op);
    match op
    case Create(_, _, _, _, _) =>
    case Cancel(_, now, _) => if !IsTerminal(c.row.state) { CancelCleansUp(cfg, c, now); }
    case Report(_, report, now, _) => ReportCleansUp(cfg, c, report, now);
  }

  lemma CommandsCleanNothing(source: string, destination: string, e: Effect)
    requires e == RevokeCredentials || e == DeleteObjects
    ensures Count([], e) == Count([] + [SendTransfer(source)], e) == 0
    ensures Count([] + [SendTransfer(source)] + [SendTransfer(destination)], e) == 0
  {
    CountOne(SendTransfer(source), e);
    CountOne(SendTransfer(destination), e);
    CountConcat([], [SendTransfer(source)], e);
    CountConcat([] + [SendTransfer(source)], [SendTransfer(destination)], e);
  }

  /** All that a creation makes of the outside world: no command, the first one, or both. */
  ghost predicate OnlyCommands(req: Request, effects: seq<Effect>) {
    || effects == []
    || effects == [] + [SendTransfer(req.source.cluster)]
    || effects == [] + [SendTransfer(req.source.cluster)] + [SendTransfer(req.destination.cluster)]
  }

  lemma CreateOnlyCommands(cfg: Config, req: Request, now: int, lookup: Lookup, faults: set<CreatePc>)
    ensures var c := AfterCreate(cfg, req, now, lookup, faults);
            OnlyCommands(req, c.effects) && (IsTerminal(c.row.state) ==> c.row.state == Failed)
  {
  }

  lemma CreateCleansNothing(cfg: Config, req: Request, now: int, lookup: Lookup, faults: set<CreatePc>)
    ensures var c := AfterCreate(cfg, req, now, lookup, faults);
            && Count(c.effects, RevokeCredentials) == 0 && Count(c.effects, DeleteObjects) == 0
            && (IsTerminal(c.row.state) ==> c.row.state == Failed)
  {
    CreateOnlyCommands(cfg, req, now, lookup, faults);
    OnlyCommandsClean(req, AfterCreate(cfg, req, now, lookup, faults).effects, RevokeCredentials);
    OnlyCommandsClean(req, AfterCreate(cfg, req, now, lookup, faults).effects, DeleteObjects);
  }

  lemma OnlyCommandsClean(req: Request, effects: seq<Effect>, e: Effect)
    requires OnlyCommands(req, effects) && (e == RevokeCredentials || e == DeleteObjects)
    ensures Count(effects, e) == 0
  {
    CommandsCleanNothing(req.source.cluster, req.destination.cluster, e);
  }

  /** From a given transfer on, cleanups are added exactly when it ends, at most once. */
  lemma {:induction false} CleanupFrom(cfg: Config, w: World, ops: seq<Op>, id: TransferId)
    requires FaultFreeOps(ops) && id in w
    ensures var w' := RunFrom(cfg, w, ops);
            && id in w' && w'[id].row.strategy == w[id].row.strategy
            && CleanedUp(w[id], w'[id], EndedBy(cfg, w, ops, id))
            && EndedBy(cfg, w, ops, id) ==
               (if !IsTerminal(w[id].row.state) && IsTerminal(w'[id].row.state) then 1 else 0)
            && (IsTerminal(w[id].row.state) ==> IsTerminal(w'[id].row.state))
    decreases |ops|
  {
    if ops != [] {
      var op := ops[0];
      if op.id == id { StepCleansUp(cfg, w[id], op); }
      CleanupFrom(cfg, Step(cfg, w, op), ops[1..], id);
    }
  }

  /**
   Cleanup runs exactly once for each transfer that a cancellation or a report ends, never otherwise, and deletes
   the S3 objects exactly if the strategy is S3. A terminal transfer without a cleanup failed in its own creation.
   */
  lemma {:induction false} CleanupExactlyOnce(cfg: Config, w: World, ops: seq<Op>, id: TransferId)
    requires FaultFreeOps(ops) && id !in w
    ensures var w' := RunFrom(cfg, w, ops);
            id in w' ==>
              var c, ended := w'[id], EndedBy(cfg, w, ops, id);
              && ended <= 1
              && Count(c.effects, RevokeCredentials) == ended
              && Count(c.effects, DeleteObjects) == (if c.row.strategy == Some(S3) then ended else 0)
              && (ended == 1 ==> IsTerminal(c.row.state))
              && (ended == 0 && IsTerminal(c.row.state) ==> c.row.state == Failed)
    decreases |ops|
  {
    if ops != [] {
      var op := ops[0];
      var w1 := Step(cfg, w, op);
      StepClosedForm(cfg, CellOf(w, op.id), op);
      if id in w1 {
        assert op.Create? && op.id == id;
        CreateCleansNothing(cfg, op.req, op.now, op.lookup, op.createFaults);
        CleanupFrom(cfg, w1, ops[1..], id);
        FailedStays(cfg, w1, ops[1..], id);
      } else {
        CleanupExactlyOnce(cfg, w1, ops[1..], id);
      }
    }
  }

  lemma {:induction false} FailedStays(cfg: Config, w: World, ops: seq<Op>, id: TransferId)
    requires FaultFreeOps(ops) && id in w
    ensures var w' := RunFrom(cfg, w, ops);
            id in w' && (IsTerminal(w[id].row.state) ==> w'[id].row.state == w[id].row.state)
    decreases |ops|
  {
    if ops != [] {
      var op := ops[0];
      StepClosedForm(cfg, CellOf(w, op.id), op);
      if op.id == id && IsTerminal(w[id].row.state) { StepKeepsTerminal(cfg, w[id], op); }
      FailedStays(cfg, Step(cfg, w, op), ops[1..], id);
    }
  }
}
