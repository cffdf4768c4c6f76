/** Handlers of any number of operations, interleaved step by step, with any failures. */
module Interleaving {
  import opened Wrappers
  import opened Transfers
  import opened Handlers
  import opened Lifecycle

  datatype Cancelling = Cancelling(id: TransferId, h: CancelHandler)

  datatype Reporting = Reporting(id: TransferId, h: ReportHandler)

  /** The stored transfers and every handler ever started; a creation is known by the identifier it drew. */
  datatype Machine = Machine(
    world: World,
    creates: map<TransferId, CreateHandler>,
    cancels: map<nat, Cancelling>,
    reports: map<nat, Reporting>)

  /** A new handler starts, or one that is under way takes a step whose call succeeds or fails. */
  datatype Move =
    | BeginCreate(id: TransferId, req: Request, now: int, lookup: Lookup)
    | AdvanceCreate(id: TransferId, ok: bool)
    | BeginCancel(k: nat, id: TransferId, now: int)
    | AdvanceCancel(k: nat, ok: bool)
    | BeginReport(k: nat, id: TransferId, report: Report, now: int)
    | AdvanceReport(k: nat, ok: bool)

  function Next(cfg: Config, m: Machine, move: Move): Machine {
    match move
    case BeginCreate(id, req, now, lookup) =>
      if id in m.creates then m else m.(creates := m.creates[id := StartCreate(req, now, lookup)])
    case AdvanceCreate(id, ok) =>
      if id !in m.creates then m
      else
        var (c, h) := CreateStep(cfg, CellOf(m.world, id), m.creates[id], ok);
        m.(world := WithCell(m.world, id, c), creates := m.creates[id := h])
    case BeginCancel(k, id, now) =>
      if k in m.cancels then m else m.(cancels := m.cancels[k := Cancelling(id, StartCancel(now))])
    case AdvanceCancel(k, ok) =>
      if k !in m.cancels then m
      else
        var x := m.cancels[k];
        var (c, h) := CancelStep(cfg, CellOf(m.world, x.id), x.h, ok);
        m.(world := WithCell(m.world, x.id, c), cancels := m.cancels[k := x.(h := h)])
    case BeginReport(k, id, report, now) =>
      if k in m.reports then m else m.(reports := m.reports[k := Reporting(id, StartReport(report, now))])
    case AdvanceReport(k, ok) =>
      if k !in m.reports then m
      else
        var x := m.reports[k];
        var (c, h) := ReportStep(cfg, CellOf(m.world, x.id), x.h, ok);
        m.(world := WithCell(m.world, x.id, c), reports := m.reports[k := x.(h := h)])
  }

  function Run(cfg: Config, moves: seq<Move>): Machine
    decreases |moves|
  {
    if moves == [] then Machine(map[], map[], map[], map[])
    else Next(cfg, Run(cfg, moves[..|moves| - 1]), moves[|moves| - 1])
  }

  lemma RunSnoc(cfg: Config, moves: seq<Move>, move: Move)
    ensures Run(cfg, moves + [move]) == Next(cfg, Run(cfg, moves), move)
  {
    assert (moves + [move])[..|moves|] == moves;
  }

  // ---------------------------------------------------------------------------
  // Command safety

  /** The clusters told to move data, in order. */
  function Commands(effects: seq<Effect>): seq<string> {
    if effects == [] then []
    else
      var n := |effects| - 1;
      Commands(effects[..n]) + if effects[n].SendTransfer? then [effects[n].cluster] else []
  }

  lemma {:induction false} CommandsConcat(a: seq<Effect>, b: seq<Effect>)
    ensures Commands(a + b) == Commands(a) + Commands(b)
    decreases |b|
  {
    if b == [] {
      assert a + b == a;
    } else {
      CommandsConcat(a, b[..|b| - 1]);
      assert (a + b)[..|a + b| - 1] == a + b[..|b| - 1];
    }
  }

  lemma {:induction false} NoCommands(b: seq<Effect>)
    requires forall i :: 0 <= i < |b| ==> !b[i].SendTransfer?
    ensures Commands(b) == []
    decreases |b|
  {
    if b != [] {
      NoCommands(b[..|b| - 1]);
    }
  }

  lemma EmitNoCommand(c: Cell, more: seq<Effect>)
    requires forall i :: 0 <= i < |more| ==> !more[i].SendTransfer?
    ensures Commands(Emit(c, more).effects) == Commands(c.effects)
  {
    CommandsConcat(c.effects, more);
    NoCommands(more);
  }

  lemma EmitCommand(c: Cell, cluster: string)
    ensures Commands(Emit(c, [SendTransfer(cluster)]).effects) == Commands(c.effects) + [cluster]
  {
    var e := c.effects + [SendTransfer(cluster)];
    assert e[..|c.effects|] == c.effects;
  }

  lemma CancelSendsNoCommand(cfg: Config, c: Cell, h: CancelHandler, ok: bool)
    ensures Commands(CancelOn(cfg, c, h, ok).0.effects) == Commands(c.effects)
  {
    match h.pc
    case CloseCancelled => EmitNoCommand(c, [CloseStream]);
    case CancelSource => if h.row.Some? { EmitNoCommand(c, [SendCancel(h.row.value.source.cluster)]); }
    case CancelDestination => if h.row.Some? { EmitNoCommand(c, [SendCancel(h.row.value.destination.cluster)]); }
    case CleanupCancelled => if h.row.Some? { EmitNoCommand(c, CleanupEffects(h.row.value)); }
    case _ => assert CancelOn(cfg, c, h, ok).0.effects == c.effects;
  }

  lemma ReportSendsNoCommand(cfg: Config, c: Cell, h: ReportHandler, ok: bool)
    ensures Commands(ReportOn(cfg, c, h, ok).0.effects) == Commands(c.effects)
  {
    match h.pc
    case PublishProgress => EmitNoCommand(c, [Publish(h.report)]);
    case CloseReported => EmitNoCommand(c, [CloseStream]);
    case CleanupReported => if h.row.Some? { EmitNoCommand(c, CleanupEffects(h.row.value)); }
    case _ => assert ReportOn(cfg, c, h, ok).0.effects == c.effects;
  }

  /** The commands a creation may have sent by the time it reaches a point. */
  predicate CommandsAt(h: CreateHandler, sent: seq<string>) {
    var source, destination := h.req.source.cluster, h.req.destination.cluster;
    && sent <= [source, destination]
    && (sent != [] ==> Safe(h.req, h.lookup))
    && match h.pc
       case Insert | RecordCreated | PersistValidating | Validate => sent == []
       case RecordValidated | PickStrategy | PersistStrategy | PersistTransferring
            | PersistStarted | RecordStarted | CommandSource => sent == [] && Safe(h.req, h.lookup)
       case CommandDestination => sent == [source] && Safe(h.req, h.lookup)
       case _ => true
  }

  predicate TransferOk(m: Machine, id: TransferId)
    requires id in m.world
  {
    && id in m.creates && m.creates[id].pc != Insert
    && CommandsAt(m.creates[id], Commands(m.world[id].effects))
  }

  ghost predicate AllOk(m: Machine) {
    forall id :: id in m.world ==> TransferOk(m, id)
  }

  lemma CreateStepOk(cfg: Config, c: Cell, h: CreateHandler, ok: bool)
    requires h.pc != Insert && CommandsAt(h, Commands(c.effects))
    ensures var (c', h') := CreateOn(cfg, c, h, ok);
            h'.pc != Insert && CommandsAt(h', Commands(c'.effects))
  {
    if h.pc == CommandSource { EmitCommand(c, h.req.source.cluster); }
    if h.pc == CommandDestination { EmitCommand(c, h.req.destination.cluster); }
  }

  lemma AdvanceCreateOk(cfg: Config, m: Machine, id: TransferId, ok: bool)
    requires AllOk(m)
    ensures AllOk(Next(cfg, m, AdvanceCreate(id, ok)))
  {
    var m' := Next(cfg, m, AdvanceCreate(id, ok));
    forall i | i in m'.world
      ensures TransferOk(m', i)
    {
      if i in m.world {
        assert TransferOk(m, i);
        if i == id { CreateStepOk(cfg, m.world[id], m.creates[id], ok); }
      }
    }
  }

  lemma AdvanceCancelOk(cfg: Config, m: Machine, k: nat, ok: bool)
    requires AllOk(m)
    ensures AllOk(Next(cfg, m, AdvanceCancel(k, ok)))
  {
    var m' := Next(cfg, m, AdvanceCancel(k, ok));
    forall i | i in m'.world
      ensures TransferOk(m', i)
    {
      assert TransferOk(m, i);
      if k in m.cancels { CancelSendsNoCommand(cfg, m.world[i], m.cancels[k].h, ok); }
    }
  }

  lemma AdvanceReportOk(cfg: Config, m: Machine, k: nat, ok: bool)
    requires AllOk(m)
    ensures AllOk(Next(cfg, m, AdvanceReport(k, ok)))
  {
    var m' := Next(cfg, m, AdvanceReport(k, ok));
    forall i | i in m'.world
      ensures TransferOk(m', i)
    {
      assert TransferOk(m, i);
      if k in m.reports { ReportSendsNoCommand(cfg, m.world[i], m.reports[k].h, ok); }
    }
  }

  lemma NextOk(cfg: Config, m: Machine, move: Move)
    requires AllOk(m)
    ensures AllOk(Next(cfg, m, move))
  {
    match move
    case AdvanceCreate(id, ok) => AdvanceCreateOk(cfg, m, id, ok);
    case AdvanceCancel(k, ok) => AdvanceCancelOk(cfg, m, k, ok);
    case AdvanceReport(k, ok) => AdvanceReportOk(cfg, m, k, ok);
    case _ =>
      var m' := Next(cfg, m, move);
      forall id | id in m'.world
        ensures TransferOk(m', id)
      {
        assert TransferOk(m, id);
      }
  }

  lemma {:induction false} RunOk(cfg: Config, moves: seq<Move>)
    ensures AllOk(Run(cfg, moves))
    decreases |moves|
  {
    if moves != [] {
      RunOk(cfg, moves[..|moves| - 1]);
      NextOk(cfg, Run(cfg, moves[..|moves| - 1]), moves[|moves| - 1]);
    }
  }

  /**
   Command safety: in every interleaving, with any failures, a transfer gets at most two transfer commands, to its
   source and then to its destination, and none unless the request differs in its ends, both volumes were found,
   and the destination was reported empty or may be overwritten.
   */
  lemma CommandSafety(cfg: Config, moves: seq<Move>, id: TransferId)
    requires id in Run(cfg, moves).world
    ensures var m := Run(cfg, moves);
            var sent := Commands(m.world[id].effects);
            && id in m.creates
            && var req := m.creates[id].req;
               && |sent| <= 2 && sent <= [req.source.cluster, req.destination.cluster]
               && (sent != [] ==> Safe(req, m.creates[id].lookup))
  {
    RunOk(cfg, moves);
    assert TransferOk(Run(cfg, moves), id);
  }

  // ---------------------------------------------------------------------------
  // The retry counter

  /** The handler has read a row that allows another attempt and has not yet counted it. */
  predicate Contends(x: Reporting, id: TransferId) {
    && x.id == id && x.h.report.status == "failed" && x.h.row.Some? && MayRetry(x.h.row.value)
    && (|| x.h.pc == PersistProgress || x.h.pc == RecordProgress
        || x.h.pc == PublishProgress || x.h.pc == IncrementRetries)
  }

  function Contenders(m: Machine, id: TransferId): set<nat> {
    set k | k in m.reports && Contends(m.reports[k], id)
  }

  /** A handler that contends read no more retries than there are now, under the same limit. */
  predicate ReadEarlier(x: Reporting, row: Row) {
    && x.h.row.Some?
    && x.h.row.value.retryMax == row.retryMax && 0 <= x.h.row.value.retryCount <= row.retryCount
  }

  predicate RetryOk(m: Machine, id: TransferId, n: nat) {
    if id !in m.world then Contenders(m, id) == {}
    else
      var row := m.world[id].row;
      && 0 <= row.retryCount
      && (forall k :: k in Contenders(m, id) ==> ReadEarlier(m.reports[k], row))
      && (row.retryMax <= 0 ==> row.retryCount == 0)
      && (row.retryCount >= row.retryMax >= 1 ==> row.retryCount + |Contenders(m, id)| <= row.retryMax + n - 1)
  }

  lemma SubsetSize<T>(a: set<T>, b: set<T>)
    requires a <= b
    ensures |a| <= |b|
  {
    assert |b| == |a| + |b - a|;
  }

  /** Steps that leave the counter and the limit alone and add no contender keep the bound. */
  lemma QuietKeeps(m: Machine, m': Machine, id: TransferId, n: nat)
    requires RetryOk(m, id, n)
    requires id in m.world <==> id in m'.world
    requires id in m.world ==> m'.world[id].row.retryCount == m.world[id].row.retryCount
    requires id in m.world ==> m'.world[id].row.retryMax == m.world[id].row.retryMax
    requires forall k :: k in Contenders(m', id) ==>
               k in Contenders(m, id) && m'.reports[k].h.row == m.reports[k].h.row
    ensures RetryOk(m', id, n)
  {
    SubsetSize(Contenders(m', id), Contenders(m, id));
  }

  lemma CreateKeepsRetries(cfg: Config, c: Cell, h: CreateHandler, ok: bool)
    ensures var c' := CreateOn(cfg, c, h, ok).0;
            c'.row.retryCount == c.row.retryCount && c'.row.retryMax == c.row.retryMax
  {
  }

  lemma CancelKeepsRetries(cfg: Config, c: Cell, h: CancelHandler, ok: bool)
    ensures var c' := CancelOn(cfg, c, h, ok).0;
            c'.row.retryCount == c.row.retryCount && c'.row.retryMax == c.row.retryMax
  {
  }

  lemma AdvanceCreateRetries(cfg: Config, m: Machine, i: TransferId, ok: bool, id: TransferId, n: nat)
    requires AllOk(m) && RetryOk(m, id, n)
    ensures RetryOk(Next(cfg, m, AdvanceCreate(i, ok)), id, n)
  {
    var m' := Next(cfg, m, AdvanceCreate(i, ok));
    assert Contenders(m', id) == Contenders(m, id);
    if id in m.world {
      assert TransferOk(m, id);
      if i in m.creates && i == id { CreateKeepsRetries(cfg, m.world[id], m.creates[id], ok); }
      QuietKeeps(m, m', id, n);
    }
  }

  lemma AdvanceCancelRetries(cfg: Config, m: Machine, k: nat, ok: bool, id: TransferId, n: nat)
    requires RetryOk(m, id, n)
    ensures RetryOk(Next(cfg, m, AdvanceCancel(k, ok)), id, n)
  {
    var m' := Next(cfg, m, AdvanceCancel(k, ok));
    assert Contenders(m', id) == Contenders(m, id);
    if id in m.world && k in m.cancels { CancelKeepsRetries(cfg, m.world[id], m.cancels[k].h, ok); }
    QuietKeeps(m, m', id, n);
  }

  /** The step that counts: one contender less, one retry more. */
  lemma IncrementKeeps(cfg: Config, m: Machine, k: nat, id: TransferId, n: nat)
    requires RetryOk(m, id, n) && |Contenders(m, id)| <= n
    requires k in Contenders(m, id) && m.reports[k].h.pc == IncrementRetries && id in m.world
    ensures RetryOk(Next(cfg, m, AdvanceReport(k, true)), id, n)
  {
    var m' := Next(cfg, m, AdvanceReport(k, true));
    assert ReadEarlier(m.reports[k], m.world[id].row);
    assert Contenders(m', id) == Contenders(m, id) - {k};
    forall j | j in Contenders(m', id)
      ensures ReadEarlier(m'.reports[j], m'.world[id].row)
    {
      assert ReadEarlier(m.reports[j], m.world[id].row);
    }
  }

  /** Reading the row makes a contender only while there are retries left. */
  lemma LoadKeeps(cfg: Config, m: Machine, k: nat, id: TransferId, n: nat)
    requires RetryOk(m, id, n) && id in m.world
    requires k in m.reports && m.reports[k].id == id && m.reports[k].h.pc == LoadForReport
    ensures RetryOk(Next(cfg, m, AdvanceReport(k, true)), id, n)
  {
    var m' := Next(cfg, m, AdvanceReport(k, true));
    var row := m.world[id].row;
    assert Contenders(m', id) <= Contenders(m, id) + {k};
    forall j | j in Contenders(m', id)
      ensures ReadEarlier(m'.reports[j], row)
    {
      if j != k { assert ReadEarlier(m.reports[j], row); }
    }
    if row.retryCount >= row.retryMax {
      assert k !in Contenders(m', id);
      SubsetSize(Contenders(m', id), Contenders(m, id));
    }
  }

  /** Any other step of a report handler counts nothing, and makes no contender. */
  lemma QuietReport(cfg: Config, c: Cell, x: Reporting, ok: bool, id: TransferId)
    requires ReportOk(x) && !(ok && (x.h.pc == IncrementRetries || x.h.pc == LoadForReport))
    ensures var (c', h') := ReportOn(cfg, c, x.h, ok);
            && c'.row.retryCount == c.row.retryCount && c'.row.retryMax == c.row.retryMax
            && (Contends(x.(h := h'), id) ==> Contends(x, id) && h'.row == x.h.row)
  {
  }

  lemma QuietReportStep(cfg: Config, m: Machine, k: nat, ok: bool, id: TransferId, n: nat)
    requires RetryOk(m, id, n) && k in m.reports && ReportOk(m.reports[k])
    requires m.reports[k].id == id && id in m.world ==>
               !(ok && (m.reports[k].h.pc == IncrementRetries || m.reports[k].h.pc == LoadForReport))
    ensures RetryOk(Next(cfg, m, AdvanceReport(k, ok)), id, n)
  {
    var x, m' := m.reports[k], Next(cfg, m, AdvanceReport(k, ok));
    if x.id == id && id in m.world { QuietReport(cfg, m.world[id], x, ok, id); }
    forall j | j in Contenders(m', id)
      ensures j in Contenders(m, id) && m'.reports[j].h.row == m.reports[j].h.row
    {
      assert j != k ==> m'.reports[j] == m.reports[j];
    }
    QuietKeeps(m, m', id, n);
  }

  lemma AdvanceReportRetries(cfg: Config, m: Machine, k: nat, ok: bool, id: TransferId, n: nat)
    requires RetryOk(m, id, n) && |Contenders(m, id)| <= n && AllReportsOk(m)
    ensures RetryOk(Next(cfg, m, AdvanceReport(k, ok)), id, n)
  {
    if k in m.reports {
      var x := m.reports[k];
      assert ReportOk(x);
      if x.id == id && id in m.world && ok && x.h.pc == IncrementRetries {
        IncrementKeeps(cfg, m, k, id, n);
      } else if x.id == id && id in m.world && ok && x.h.pc == LoadForReport {
        LoadKeeps(cfg, m, k, id, n);
      } else {
        QuietReportStep(cfg, m, k, ok, id, n);
      }
    }
  }

  /** Only a handler for a failed report that read a row with retries left gets to the increment. */
  predicate ReportOk(x: Reporting) {
    x.h.pc == IncrementRetries ==> x.h.report.status == "failed" && x.h.row.Some? && MayRetry(x.h.row.value)
  }

  ghost predicate AllReportsOk(m: Machine) {
    forall k :: k in m.reports ==> ReportOk(m.reports[k])
  }

  lemma ReportStepOk(cfg: Config, c: Option<Cell>, x: Reporting, ok: bool)
    requires ReportOk(x)
    ensures ReportOk(x.(h := ReportStep(cfg, c, x.h, ok).1))
  {
  }

  lemma NextReportsOk(cfg: Config, m: Machine, move: Move)
    requires AllReportsOk(m)
    ensures AllReportsOk(Next(cfg, m, move))
  {
    if move.AdvanceReport? && move.k in m.reports {
      var x := m.reports[move.k];
      ReportStepOk(cfg, CellOf(m.world, x.id), x, move.ok);
    }
  }

  /** At no point of the run do more than `n` handlers contend for the transfer's retries. */
  ghost predicate AtMost(cfg: Config, moves: seq<Move>, id: TransferId, n: nat)
    decreases |moves|
  {
    moves == [] ||
    (AtMost(cfg, moves[..|moves| - 1], id, n) && |Contenders(Run(cfg, moves[..|moves| - 1]), id)| <= n)
  }

  lemma {:induction false} RetriesKept(cfg: Config, moves: seq<Move>, id: TransferId, n: nat)
    requires AtMost(cfg, moves, id, n)
    ensures RetryOk(Run(cfg, moves), id, n) && AllReportsOk(Run(cfg, moves))
    decreases |moves|
  {
    if moves == [] {
      assert Contenders(Run(cfg, moves), id) == {};
    } else {
      var prefix, move := moves[..|moves| - 1], moves[|moves| - 1];
      var m := Run(cfg, prefix);
      RetriesKept(cfg, prefix, id, n);
      RunOk(cfg, prefix);
      NextReportsOk(cfg, m, move);
      match move
      case AdvanceCreate(i, ok) => AdvanceCreateRetries(cfg, m, i, ok, id, n);
      case AdvanceCancel(k, ok) => AdvanceCancelRetries(cfg, m, k, ok, id, n);
      case AdvanceReport(k, ok) => AdvanceReportRetries(cfg, m, k, ok, id, n);
      case _ => QuietKeeps(m, Next(cfg, m, move), id, n);
    }
  }

  /**
   Retry bound: with at most `n` handlers between reading a row with retries left and counting the retry, the
   counter never passes RetryMax + n - 1; without any retries allowed it stays at zero.
   */
  lemma RetryBound(cfg: Config, moves: seq<Move>, id: TransferId, n: nat)
    requires n >= 1 && AtMost(cfg, moves, id, n) && id in Run(cfg, moves).world
    ensures var row := Run(cfg, moves).world[id].row;
            0 <= row.retryCount <= if row.retryMax >= 1 then row.retryMax + n - 1 else 0
  {
    RetriesKept(cfg, moves, id, n);
  }
}
