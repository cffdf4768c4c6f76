/** What racing handlers do to cleanups and completion times: exactly one of each per handler that ends the transfer. */
module Races {
  import opened Wrappers
  import opened Transfers
  import opened Handlers
  import opened Lifecycle
  import opened Interleaving
  import opened Finality
  import opened Replay

  function Cleanups(c: Cell): nat {
    Count(c.effects, RevokeCredentials)
  }

  function CleanupsOf(c: Option<Cell>): nat {
    if c.Some? then Cleanups(c.value) else 0
  }

  // ---------------------------------------------------------------------------
  // Handlers that end a transfer

  predicate CancelEnded(h: CancelHandler) {
    h.pc == CancelDone && h.outcome == Succeeded
  }

  /** The completion time has been written. */
  predicate CancelTimed(h: CancelHandler) {
    || h.pc == RecordCancelled || h.pc == CloseCancelled || h.pc == CancelSource || h.pc == CancelDestination
    || h.pc == CleanupCancelled || CancelEnded(h)
  }

  predicate CancelOk(h: CancelHandler) {
    && (h.outcome == Succeeded ==> h.pc == CancelDone)
    && (h.pc != LoadForCancel && h.pc != CancelDone ==> h.row.Some?)
  }

  /** The report was to end the transfer, on the row as it was read. */
  predicate Ends(h: ReportHandler) {
    h.row.Some? && (Decide(h, h.row.value).pc == PersistCompleted || Decide(h, h.row.value).pc == PersistExhausted)
  }

  predicate ReportEnded(h: ReportHandler) {
    h.pc == ReportDone && h.outcome == Succeeded && Ends(h)
  }

  predicate ReportTimed(h: ReportHandler) {
    || h.pc == RecordCompleted || h.pc == RecordExhausted || h.pc == CloseReported || h.pc == CleanupReported
    || ReportEnded(h)
  }

  predicate ReportHeads(h: ReportHandler) {
    && (h.outcome == Succeeded ==> h.pc == ReportDone)
    && match h.pc
       case PersistCompleted | PersistCompletedAt | RecordCompleted | PersistExhausted | RecordExhausted
            | CloseReported | CleanupReported => Ends(h)
       case IncrementRetries | RecordRetried => h.row.Some? && !Ends(h)
       case _ => true
  }

  // ---------------------------------------------------------------------------
  // One step of a handler

  lemma EmitCleanups(c: Cell, more: seq<Effect>)
    ensures Cleanups(Emit(c, more)) == Cleanups(c) + Count(more, RevokeCredentials)
  {
    CountConcat(c.effects, more, RevokeCredentials);
  }

  lemma EmitOther(c: Cell, e: Effect)
    requires e != RevokeCredentials
    ensures Cleanups(Emit(c, [e])) == Cleanups(c)
  {
    EmitCleanups(c, [e]);
    CountOne(e, RevokeCredentials);
  }

  lemma EmitCleanup(cfg: Config, c: Cell, row: Row)
    ensures Cleanups(Emit(c, CleanupEffects(row))) == Cleanups(c) + 1
  {
    EmitCleanups(c, CleanupEffects(row));
    CleanupCounts(cfg, row);
  }

  lemma CreateCleansUpNothing(cfg: Config, c: Cell, h: CreateHandler, ok: bool)
    ensures Cleanups(CreateOn(cfg, c, h, ok).0) == Cleanups(c)
  {
    if h.pc == CommandSource { EmitOther(c, SendTransfer(h.req.source.cluster)); }
    if h.pc == CommandDestination { EmitOther(c, SendTransfer(h.req.destination.cluster)); }
  }

  lemma CancelCleansUp(cfg: Config, c: Cell, h: CancelHandler, ok: bool)
    requires CancelOk(h)
    ensures var (c', h') := CancelOn(cfg, c, h, ok);
            && CancelOk(h') && (CancelEnded(h) ==> CancelEnded(h'))
            && Cleanups(c') == Cleanups(c) + if CancelEnded(h') && !CancelEnded(h) then 1 else 0
  {
    if h.row.Some? {
      EmitOther(c, SendCancel(h.row.value.source.cluster));
      EmitOther(c, SendCancel(h.row.value.destination.cluster));
      EmitCleanup(cfg, c, h.row.value);
    }
    EmitOther(c, CloseStream);
  }

  lemma ReportStaysHeaded(cfg: Config, c: Cell, h: ReportHandler, ok: bool)
    requires ReportHeads(h)
    ensures var h' := ReportOn(cfg, c, h, ok).1;
            && ReportHeads(h') && (ReportEnded(h) ==> ReportEnded(h'))
            && (ReportEnded(h') && !ReportEnded(h) <==> h.pc == CleanupReported)
  {
  }

  lemma ReportCleanupCount(cfg: Config, c: Cell, h: ReportHandler, ok: bool)
    requires h.pc == CleanupReported ==> h.row.Some?
    ensures Cleanups(ReportOn(cfg, c, h, ok).0) == Cleanups(c) + if h.pc == CleanupReported then 1 else 0
  {
    match h.pc
    case CleanupReported => EmitCleanup(cfg, c, h.row.value);
    case PublishProgress => EmitOther(c, Publish(h.report));
    case CloseReported => EmitOther(c, CloseStream);
    case _ => assert ReportOn(cfg, c, h, ok).0.effects == c.effects;
  }

  lemma ReportCleansUp(cfg: Config, c: Cell, h: ReportHandler, ok: bool)
    requires ReportHeads(h)
    ensures var (c', h') := ReportOn(cfg, c, h, ok);
            && ReportHeads(h') && (ReportEnded(h) ==> ReportEnded(h'))
            && Cleanups(c') == Cleanups(c) + if ReportEnded(h') && !ReportEnded(h) then 1 else 0
  {
    ReportStaysHeaded(cfg, c, h, ok);
    ReportCleanupCount(cfg, c, h, ok);
  }

  /** There is a completion time iff the transfer was marked failed, or `timed`. */
  predicate TimeOk(c: Cell, timed: bool) {
    c.row.completedAt.Some? <==> c.row.failure.Some? || timed
  }

  lemma CreateTimes(cfg: Config, c: Cell, h: CreateHandler, ok: bool, timed: bool)
    requires TimeOk(c, timed)
    ensures TimeOk(CreateOn(cfg, c, h, ok).0, timed)
  {
  }

  lemma CancelTimes(cfg: Config, c: Cell, h: CancelHandler, ok: bool, timed: bool)
    requires TimeOk(c, timed) && (CancelTimed(h) ==> timed) && CancelOk(h)
    ensures var (c', h') := CancelOn(cfg, c, h, ok);
            TimeOk(c', timed || CancelTimed(h')) && (CancelTimed(h) ==> CancelTimed(h'))
  {
  }

  lemma ReportTimes(cfg: Config, c: Cell, h: ReportHandler, ok: bool, timed: bool)
    requires TimeOk(c, timed) && (ReportTimed(h) ==> timed) && ReportHeads(h)
    ensures var (c', h') := ReportOn(cfg, c, h, ok);
            TimeOk(c', timed || ReportTimed(h')) && (ReportTimed(h) ==> ReportTimed(h'))
  {
  }

  // ---------------------------------------------------------------------------
  // Sets of handlers

  function Those<X>(handlers: map<nat, X>, p: X -> bool): set<nat> {
    set k | k in handlers && p(handlers[k])
  }

  /** A handler that steps may come to satisfy `p`, and does not cease to. */
  lemma ThoseUpdate<X>(handlers: map<nat, X>, k: nat, x: X, p: X -> bool)
    requires k in handlers && p(handlers[k]) ==> p(x)
    ensures var more := p(x) && !(k in handlers && p(handlers[k]));
            && |Those(handlers[k := x], p)| == |Those(handlers, p)| + (if more then 1 else 0)
            && (Those(handlers[k := x], p) != {} <==> Those(handlers, p) != {} || p(x))
  {
    var was, now := Those(handlers, p), Those(handlers[k := x], p);
    if p(x) && !(k in handlers && p(handlers[k])) {
      assert k !in was && now == was + {k};
    } else {
      assert p(x) ==> k in was;
      assert now == was;
    }
  }

  function CancelsEnding(id: TransferId): Cancelling -> bool {
    (x: Cancelling) => x.id == id && CancelEnded(x.h)
  }

  function ReportsEnding(id: TransferId): Reporting -> bool {
    (x: Reporting) => x.id == id && ReportEnded(x.h)
  }

  function CancelsTiming(id: TransferId): Cancelling -> bool {
    (x: Cancelling) => x.id == id && CancelTimed(x.h)
  }

  function ReportsTiming(id: TransferId): Reporting -> bool {
    (x: Reporting) => x.id == id && ReportTimed(x.h)
  }

  // ---------------------------------------------------------------------------
  // The machine

  /** The cancellations and reports that have ended the transfer. */
  function Enders(m: Machine, id: TransferId): nat {
    |Those(m.cancels, CancelsEnding(id))| + |Those(m.reports, ReportsEnding(id))|
  }

  /** Some cancellation or report of the transfer has got past writing a completion time. */
  predicate SomeTimed(m: Machine, id: TransferId) {
    Those(m.cancels, CancelsTiming(id)) != {} || Those(m.reports, ReportsTiming(id)) != {}
  }

  ghost predicate HandlersOk(m: Machine) {
    && (forall k :: k in m.cancels ==> CancelOk(m.cancels[k].h))
    && (forall k :: k in m.reports ==> ReportHeads(m.reports[k].h))
    && (forall id :: id in m.world ==> id in m.creates && m.creates[id].pc != Insert)
  }

  /** One cleanup per handler that ended the transfer, and none for a transfer that is not there. */
  predicate CleanupsOk(m: Machine, id: TransferId) {
    Enders(m, id) == CleanupsOf(CellOf(m.world, id))
  }

  predicate TimesOk(m: Machine, id: TransferId) {
    if id in m.world then TimeOk(m.world[id], SomeTimed(m, id)) else !SomeTimed(m, id)
  }

  lemma CancelStaysOk(cfg: Config, m: Machine, k: nat, ok: bool)
    requires HandlersOk(m) && k in m.cancels
    ensures CancelOk(Next(cfg, m, AdvanceCancel(k, ok)).cancels[k].h)
  {
    var x := m.cancels[k];
    if x.id in m.world { CancelCleansUp(cfg, m.world[x.id], x.h, ok); }
  }

  lemma ReportStaysOk(cfg: Config, m: Machine, k: nat, ok: bool)
    requires HandlersOk(m) && k in m.reports
    ensures ReportHeads(Next(cfg, m, AdvanceReport(k, ok)).reports[k].h)
  {
    var x := m.reports[k];
    if x.id in m.world { ReportCleansUp(cfg, m.world[x.id], x.h, ok); }
  }

  lemma CreateNotInsert(cfg: Config, c: Option<Cell>, h: CreateHandler, ok: bool)
    ensures var (c', h') := CreateStep(cfg, c, h, ok);
            (c.Some? ==> h.pc != Insert) ==> (c'.Some? ==> h'.pc != Insert)
  {
  }

  lemma NextHandlersOk(cfg: Config, m: Machine, move: Move)
    requires HandlersOk(m)
    ensures HandlersOk(Next(cfg, m, move))
  {
    match move
    case AdvanceCreate(id, ok) =>
      if id in m.creates { CreateNotInsert(cfg, CellOf(m.world, id), m.creates[id], ok); }
    case AdvanceCancel(k, ok) => if k in m.cancels { CancelStaysOk(cfg, m, k, ok); }
    case AdvanceReport(k, ok) => if k in m.reports { ReportStaysOk(cfg, m, k, ok); }
    case _ =>
  }

  lemma InThose<X>(handlers: map<nat, X>, k: nat, p: X -> bool)
    requires k in handlers
    ensures p(handlers[k]) ==> k in Those(handlers, p) && |Those(handlers, p)| > 0
  {
    if p(handlers[k]) { assert k in Those(handlers, p); }
  }

  /** One step of a handler, seen from the transfer: it may end it, and may come to have written a completion time. */
  lemma CancelStepEnds(cfg: Config, c: Option<Cell>, h: CancelHandler, ok: bool, timed: bool)
    requires CancelOk(h) && (c.None? ==> !CancelTimed(h))
    requires c.Some? ==> TimeOk(c.value, timed) && (CancelTimed(h) ==> timed)
    ensures var (c', h') := CancelStep(cfg, c, h, ok);
            && c'.Some? == c.Some? && (CancelEnded(h) ==> CancelEnded(h')) && (CancelTimed(h) ==> CancelTimed(h'))
            && CleanupsOf(c') == CleanupsOf(c) + (if CancelEnded(h') && !CancelEnded(h) then 1 else 0)
            && (c.None? ==> !CancelTimed(h'))
            && (c.Some? ==> TimeOk(c'.value, timed || CancelTimed(h')))
  {
    if c.Some? {
      CancelCleansUp(cfg, c.value, h, ok);
      CancelTimes(cfg, c.value, h, ok, timed);
    }
  }

  lemma CancelEnders(m: Machine, m': Machine, k: nat, x: Cancelling, id: TransferId)
    requires k in m.cancels && x.id == m.cancels[k].id && (CancelEnded(m.cancels[k].h) ==> CancelEnded(x.h))
    requires m'.cancels == m.cancels[k := x] && m'.reports == m.reports
    ensures Enders(m', id)
            == Enders(m, id) + if x.id == id && CancelEnded(x.h) && !CancelEnded(m.cancels[k].h) then 1 else 0
  {
    ThoseUpdate(m.cancels, k, x, CancelsEnding(id));
  }

  lemma CancelTimers(m: Machine, m': Machine, k: nat, x: Cancelling, id: TransferId)
    requires k in m.cancels && x.id == m.cancels[k].id && (CancelTimed(m.cancels[k].h) ==> CancelTimed(x.h))
    requires m'.cancels == m.cancels[k := x] && m'.reports == m.reports
    ensures SomeTimed(m', id) <==> SomeTimed(m, id) || (x.id == id && CancelTimed(x.h))
    ensures m.cancels[k].id == id && CancelTimed(m.cancels[k].h) ==> SomeTimed(m, id)
  {
    ThoseUpdate(m.cancels, k, x, CancelsTiming(id));
    InThose(m.cancels, k, CancelsTiming(id));
  }

  lemma CancelMove(cfg: Config, m: Machine, k: nat, ok: bool, id: TransferId)
    requires HandlersOk(m) && CleanupsOk(m, id) && TimesOk(m, id) && k in m.cancels
    ensures var m' := Next(cfg, m, AdvanceCancel(k, ok)); CleanupsOk(m', id) && TimesOk(m', id)
  {
    var m', x := Next(cfg, m, AdvanceCancel(k, ok)), m.cancels[k];
    var x' := m'.cancels[k];
    if x.id == id {
      CancelTimers(m, m.(cancels := m.cancels[k := x]), k, x, id);
      CancelStepEnds(cfg, CellOf(m.world, id), x.h, ok, SomeTimed(m, id));
      CancelEnders(m, m', k, x', id);
      CancelTimers(m, m', k, x', id);
    } else {
      CancelElsewhere(m, m', k, x', id);
    }
  }

  lemma CancelElsewhere(m: Machine, m': Machine, k: nat, x: Cancelling, id: TransferId)
    requires k in m.cancels && x.id == m.cancels[k].id != id
    requires m'.cancels == m.cancels[k := x] && m'.reports == m.reports
    ensures Enders(m', id) == Enders(m, id) && SomeTimed(m', id) == SomeTimed(m, id)
  {
    ThoseUpdate(m.cancels, k, x, CancelsEnding(id));
    ThoseUpdate(m.cancels, k, x, CancelsTiming(id));
  }

  /** One step of a handler, seen from the transfer: it may end it, and may come to have written a completion time. */
  lemma ReportStepEnds(cfg: Config, c: Option<Cell>, h: ReportHandler, ok: bool, timed: bool)
    requires ReportHeads(h) && (c.None? ==> !ReportTimed(h))
    requires c.Some? ==> TimeOk(c.value, timed) && (ReportTimed(h) ==> timed)
    ensures var (c', h') := ReportStep(cfg, c, h, ok);
            && c'.Some? == c.Some? && (ReportEnded(h) ==> ReportEnded(h')) && (ReportTimed(h) ==> ReportTimed(h'))
            && CleanupsOf(c') == CleanupsOf(c) + (if ReportEnded(h') && !ReportEnded(h) then 1 else 0)
            && (c.None? ==> !ReportTimed(h'))
            && (c.Some? ==> TimeOk(c'.value, timed || ReportTimed(h')))
  {
    if c.Some? {
      ReportCleansUp(cfg, c.value, h, ok);
      ReportTimes(cfg, c.value, h, ok, timed);
    }
  }

  lemma ReportEnders(m: Machine, m': Machine, k: nat, x: Reporting, id: TransferId)
    requires k in m.reports && x.id == m.reports[k].id && (ReportEnded(m.reports[k].h) ==> ReportEnded(x.h))
    requires m'.reports == m.reports[k := x] && m'.cancels == m.cancels
    ensures Enders(m', id)
            == Enders(m, id) + if x.id == id && ReportEnded(x.h) && !ReportEnded(m.reports[k].h) then 1 else 0
  {
    ThoseUpdate(m.reports, k, x, ReportsEnding(id));
  }

  lemma ReportTimers(m: Machine, m': Machine, k: nat, x: Reporting, id: TransferId)
    requires k in m.reports && x.id == m.reports[k].id && (ReportTimed(m.reports[k].h) ==> ReportTimed(x.h))
    requires m'.reports == m.reports[k := x] && m'.cancels == m.cancels
    ensures SomeTimed(m', id) <==> SomeTimed(m, id) || (x.id == id && ReportTimed(x.h))
    ensures m.reports[k].id == id && ReportTimed(m.reports[k].h) ==> SomeTimed(m, id)
  {
    ThoseUpdate(m.reports, k, x, ReportsTiming(id));
    InThose(m.reports, k, ReportsTiming(id));
  }

  lemma ReportMove(cfg: Config, m: Machine, k: nat, ok: bool, id: TransferId)
    requires HandlersOk(m) && CleanupsOk(m, id) && TimesOk(m, id) && k in m.reports
    ensures var m' := Next(cfg, m, AdvanceReport(k, ok)); CleanupsOk(m', id) && TimesOk(m', id)
  {
    var m', x := Next(cfg, m, AdvanceReport(k, ok)), m.reports[k];
    var x' := m'.reports[k];
    if x.id == id {
      ReportTimers(m, m.(reports := m.reports[k := x]), k, x, id);
      ReportStepEnds(cfg, CellOf(m.world, id), x.h, ok, SomeTimed(m, id));
      ReportEnders(m, m', k, x', id);
      ReportTimers(m, m', k, x', id);
    } else {
      ReportElsewhere(m, m', k, x', id);
    }
  }

  lemma ReportElsewhere(m: Machine, m': Machine, k: nat, x: Reporting, id: TransferId)
    requires k in m.reports && x.id == m.reports[k].id != id
    requires m'.reports == m.reports[k := x] && m'.cancels == m.cancels
    ensures Enders(m', id) == Enders(m, id) && SomeTimed(m', id) == SomeTimed(m, id)
  {
    ThoseUpdate(m.reports, k, x, ReportsEnding(id));
    ThoseUpdate(m.reports, k, x, ReportsTiming(id));
  }

  lemma CreateMove(cfg: Config, m: Machine, i: TransferId, ok: bool, id: TransferId)
    requires HandlersOk(m) && CleanupsOk(m, id) && TimesOk(m, id)
    ensures var m' := Next(cfg, m, AdvanceCreate(i, ok)); CleanupsOk(m', id) && TimesOk(m', id)
  {
    if i == id && id in m.world && id in m.creates {
      CreateCleansUpNothing(cfg, m.world[id], m.creates[id], ok);
      CreateTimes(cfg, m.world[id], m.creates[id], ok, SomeTimed(m, id));
    }
  }

  lemma BeginCancelMove(cfg: Config, m: Machine, k: nat, i: TransferId, now: int, id: TransferId)
    requires CleanupsOk(m, id) && TimesOk(m, id)
    ensures var m' := Next(cfg, m, BeginCancel(k, i, now)); CleanupsOk(m', id) && TimesOk(m', id)
  {
    if k !in m.cancels {
      ThoseUpdate(m.cancels, k, Cancelling(i, StartCancel(now)), CancelsEnding(id));
      ThoseUpdate(m.cancels, k, Cancelling(i, StartCancel(now)), CancelsTiming(id));
    }
  }

  lemma BeginReportMove(cfg: Config, m: Machine, k: nat, i: TransferId, report: Report, now: int, id: TransferId)
    requires CleanupsOk(m, id) && TimesOk(m, id)
    ensures var m' := Next(cfg, m, BeginReport(k, i, report, now)); CleanupsOk(m', id) && TimesOk(m', id)
  {
    if k !in m.reports {
      ThoseUpdate(m.reports, k, Reporting(i, StartReport(report, now)), ReportsEnding(id));
      ThoseUpdate(m.reports, k, Reporting(i, StartReport(report, now)), ReportsTiming(id));
    }
  }

  lemma NextRaces(cfg: Config, m: Machine, move: Move, id: TransferId)
    requires HandlersOk(m) && CleanupsOk(m, id) && TimesOk(m, id)
    ensures CleanupsOk(Next(cfg, m, move), id) && TimesOk(Next(cfg, m, move), id)
  {
    match move
    case AdvanceCreate(i, ok) => CreateMove(cfg, m, i, ok, id);
    case AdvanceCancel(k, ok) => if k in m.cancels { CancelMove(cfg, m, k, ok, id); }
    case AdvanceReport(k, ok) => if k in m.reports { ReportMove(cfg, m, k, ok, id); }
    case BeginCancel(k, i, now) => BeginCancelMove(cfg, m, k, i, now, id);
    case BeginReport(k, i, report, now) => BeginReportMove(cfg, m, k, i, report, now, id);
    case BeginCreate(_, _, _, _) =>
  }

  lemma {:induction false} RacesOk(cfg: Config, moves: seq<Move>, id: TransferId)
    ensures var m := Run(cfg, moves); HandlersOk(m) && CleanupsOk(m, id) && TimesOk(m, id)
    decreases |moves|
  {
    if moves != [] {
      var m, move := Run(cfg, moves[..|moves| - 1]), moves[|moves| - 1];
      RacesOk(cfg, moves[..|moves| - 1], id);
      NextHandlersOk(cfg, m, move);
      NextRaces(cfg, m, move, id);
    }
  }

  /**
   Cleanups, however handlers interleave and whatever fails: as many as there are cancellations and reports that
   carried the ending of the transfer through, so that a transfer ended by two handlers is cleaned up twice.
   */
  lemma CleanupsCounted(cfg: Config, moves: seq<Move>, id: TransferId)
    requires id in Run(cfg, moves).world
    ensures Cleanups(Run(cfg, moves).world[id]) == Enders(Run(cfg, moves), id)
  {
    RacesOk(cfg, moves, id);
  }

  /**
   Completion times, however handlers interleave and whatever fails: a transfer has one exactly if it was marked failed,
   or a cancellation or report has got past writing one; its state does not matter.
   */
  lemma CompletedExactly(cfg: Config, moves: seq<Move>, id: TransferId)
    requires id in Run(cfg, moves).world
    ensures var m := Run(cfg, moves);
            m.world[id].row.completedAt.Some? <==> m.world[id].row.failure.Some? || SomeTimed(m, id)
  {
    RacesOk(cfg, moves, id);
  }

  predicate HasTime(m: Machine, id: TransferId) {
    id in m.world && m.world[id].row.completedAt.Some? && id in m.creates && m.creates[id].pc != Insert
  }

  /** Nothing takes a completion time away. */
  lemma NextStaysTimed(cfg: Config, m: Machine, move: Move, id: TransferId)
    requires HasTime(m, id)
    ensures HasTime(Next(cfg, m, move), id)
  {
  }

  lemma {:induction false} RunStaysTimed(cfg: Config, m: Machine, later: seq<Move>, id: TransferId)
    requires HasTime(m, id)
    ensures HasTime(RunOn(cfg, m, later), id)
    decreases |later|
  {
    if later != [] {
      NextStaysTimed(cfg, m, later[0], id);
      RunStaysTimed(cfg, Next(cfg, m, later[0]), later[1..], id);
    }
  }

  predicate CompletedAndOver(cfg: Config, moves: seq<Move>, id: TransferId) {
    TerminalAfter(cfg, moves, id) && Run(cfg, moves).world[id].row.completedAt.Some?
  }

  /** A completion time goes on meaning a terminal state, whatever happens next, iff the creation cannot reopen. */
  lemma CompletedMeansOverExactly(cfg: Config, moves: seq<Move>, id: TransferId)
    requires CompletedAndOver(cfg, moves, id)
    ensures id in Run(cfg, moves).creates
    ensures (forall later: seq<Move> :: CompletedAndOver(cfg, moves + later, id))
            <==> !MayReopen(cfg, Run(cfg, moves).creates[id])
  {
    FinalExactly(cfg, moves, id);
    RunOk(cfg, moves);
    assert TransferOk(Run(cfg, moves), id);
    forall later: seq<Move>
      ensures CompletedAndOver(cfg, moves + later, id) <==> TerminalAfter(cfg, moves + later, id)
    {
      RunInTwo(cfg, moves, later);
      RunStaysTimed(cfg, Run(cfg, moves), later, id);
    }
  }
}
