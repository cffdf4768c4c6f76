/**
 When a terminal state is final although handlers interleave: it stays terminal exactly if the transfer's creation has
 no other state left to write, and stays the same exactly if no handler has a different terminal state left to write.
 */
module Finality {
  import opened Wrappers
  import opened Transfers
  import opened Handlers
  import opened Lifecycle
  import opened Interleaving

  // ---------------------------------------------------------------------------
  // What comes after a machine

  function RunOn(cfg: Config, m: Machine, later: seq<Move>): Machine
    decreases |later|
  {
    if later == [] then m else RunOn(cfg, Next(cfg, m, later[0]), later[1..])
  }

  lemma {:induction false} RunInTwo(cfg: Config, moves: seq<Move>, later: seq<Move>)
    ensures Run(cfg, moves + later) == RunOn(cfg, Run(cfg, moves), later)
    decreases |later|
  {
    if later == [] {
      assert moves + later == moves;
    } else {
      RunSnoc(cfg, moves, later[0]);
      RunInTwo(cfg, moves + [later[0]], later[1..]);
      assert moves + [later[0]] + later[1..] == moves + later;
    }
  }

  lemma RunOnFirst(cfg: Config, m: Machine, move: Move, later: seq<Move>)
    ensures RunOn(cfg, m, [move] + later) == RunOn(cfg, Next(cfg, m, move), later)
  {
    assert ([move] + later)[1..] == later;
  }

  // ---------------------------------------------------------------------------
  // Staying terminal

  /** Unless a call fails, the creation will persist a state that is not terminal. */
  predicate MayReopen(cfg: Config, h: CreateHandler) {
    match h.pc
    case Insert | RecordCreated | PersistValidating | PersistStrategy | PersistTransferring => true
    case Validate => Safe(h.req, h.lookup) && SelectStrategy(h.req, cfg.s3Configured).Some?
    case RecordValidated | PickStrategy => SelectStrategy(h.req, cfg.s3Configured).Some?
    case _ => false
  }

  /** The transfer is over, and its creation cannot reopen it. */
  predicate Over(cfg: Config, m: Machine, id: TransferId) {
    && id in m.world && IsTerminal(m.world[id].row.state)
    && id in m.creates && !MayReopen(cfg, m.creates[id])
  }

  lemma CreateStaysOver(cfg: Config, c: Cell, h: CreateHandler, ok: bool)
    requires IsTerminal(c.row.state) && !MayReopen(cfg, h)
    ensures var (c', h') := CreateOn(cfg, c, h, ok); IsTerminal(c'.row.state) && !MayReopen(cfg, h')
  {
  }

  lemma CancelStaysOver(cfg: Config, c: Cell, h: CancelHandler, ok: bool)
    requires IsTerminal(c.row.state)
    ensures IsTerminal(CancelOn(cfg, c, h, ok).0.row.state)
  {
  }

  lemma ReportStaysOver(cfg: Config, c: Cell, h: ReportHandler, ok: bool)
    requires IsTerminal(c.row.state)
    ensures IsTerminal(ReportOn(cfg, c, h, ok).0.row.state)
  {
  }

  lemma NextStaysOver(cfg: Config, m: Machine, move: Move, id: TransferId)
    requires Over(cfg, m, id)
    ensures Over(cfg, Next(cfg, m, move), id)
  {
    match move
    case AdvanceCreate(i, ok) => if i == id { CreateStaysOver(cfg, m.world[id], m.creates[id], ok); }
    case AdvanceCancel(k, ok) => if k in m.cancels { CancelStaysOver(cfg, m.world[id], m.cancels[k].h, ok); }
    case AdvanceReport(k, ok) => if k in m.reports { ReportStaysOver(cfg, m.world[id], m.reports[k].h, ok); }
    case _ =>
  }

  lemma {:induction false} RunStaysOver(cfg: Config, m: Machine, later: seq<Move>, id: TransferId)
    requires Over(cfg, m, id)
    ensures Over(cfg, RunOn(cfg, m, later), id)
    decreases |later|
  {
    if later != [] {
      NextStaysOver(cfg, m, later[0], id);
      RunStaysOver(cfg, Next(cfg, m, later[0]), later[1..], id);
    }
  }

  lemma ReopeningStep(cfg: Config, c: Cell, h: CreateHandler)
    requires h.pc != Insert && MayReopen(cfg, h)
    ensures var (c', h') := CreateOn(cfg, c, h, true);
            !IsTerminal(c'.row.state) || (h'.pc != Insert && MayReopen(cfg, h') && CreateRank(h'.pc) < CreateRank(h.pc))
  {
  }

  /** Letting the creation go on without failures reopens the transfer. */
  lemma {:induction false} Reopens(cfg: Config, m: Machine, id: TransferId) returns (later: seq<Move>)
    requires id in m.world && id in m.creates && m.creates[id].pc != Insert && MayReopen(cfg, m.creates[id])
    ensures var m' := RunOn(cfg, m, later); id in m'.world && !IsTerminal(m'.world[id].row.state)
    decreases CreateRank(m.creates[id].pc)
  {
    if !IsTerminal(m.world[id].row.state) {
      later := [];
    } else {
      var m' := Next(cfg, m, AdvanceCreate(id, true));
      ReopeningStep(cfg, m.world[id], m.creates[id]);
      if !IsTerminal(m'.world[id].row.state) {
        later := [];
      } else {
        later := Reopens(cfg, m', id);
      }
      RunOnFirst(cfg, m, AdvanceCreate(id, true), later);
      later := [AdvanceCreate(id, true)] + later;
    }
  }

  predicate TerminalAfter(cfg: Config, moves: seq<Move>, id: TransferId) {
    id in Run(cfg, moves).world && IsTerminal(Run(cfg, moves).world[id].row.state)
  }

  /**
   Terminal for good: in every interleaving with any failures, a terminal transfer stays terminal whatever happens
   next if and only if its creation has no other state left to write.
   */
  lemma FinalExactly(cfg: Config, moves: seq<Move>, id: TransferId)
    requires TerminalAfter(cfg, moves, id)
    ensures id in Run(cfg, moves).creates
    ensures (forall later: seq<Move> :: TerminalAfter(cfg, moves + later, id))
            <==> !MayReopen(cfg, Run(cfg, moves).creates[id])
  {
    var m := Run(cfg, moves);
    RunOk(cfg, moves);
    assert TransferOk(m, id);
    if MayReopen(cfg, m.creates[id]) {
      var later := Reopens(cfg, m, id);
      RunInTwo(cfg, moves, later);
      assert !TerminalAfter(cfg, moves + later, id);
    } else {
      forall later: seq<Move>
        ensures TerminalAfter(cfg, moves + later, id)
      {
        RunInTwo(cfg, moves, later);
        RunStaysOver(cfg, m, later, id);
      }
    }
  }

  /** In particular nothing reopens a transfer that ends after its creation has returned. */
  lemma FinalOnceCreated(cfg: Config, moves: seq<Move>, id: TransferId, later: seq<Move>)
    requires TerminalAfter(cfg, moves, id)
    requires id in Run(cfg, moves).creates && Run(cfg, moves).creates[id].pc == CreateDone
    ensures TerminalAfter(cfg, moves + later, id)
  {
    FinalExactly(cfg, moves, id);
  }

  // ---------------------------------------------------------------------------
  // Staying the same

  /** The creation leaves the terminal state `s` alone: it is done writing, or can only write failed over failed. */
  predicate CreatePinned(cfg: Config, h: CreateHandler, s: State) {
    h.pc == CreateDone || h.pc == RecordFailed || (s == Failed && !MayReopen(cfg, h))
  }

  predicate CancelPinned(h: CancelHandler, s: State) {
    h.pc == PersistCancelled ==> s == Cancelled
  }

  /** Where a report handler that has read its row will go; before that it is still open. */
  function Heading(h: ReportHandler): ReportPc {
    match h.pc
    case PersistProgress | RecordProgress | PublishProgress =>
      if h.row.Some? then Decide(h, h.row.value).pc else ReportDone
    case _ => h.pc
  }

  predicate ReportPinned(h: ReportHandler, s: State) {
    (Heading(h) == PersistCompleted ==> s == Completed) && (Heading(h) == PersistExhausted ==> s == Failed)
  }

  /** No handler under way can write a state other than the one stored. */
  ghost predicate Pinned(cfg: Config, m: Machine, id: TransferId)
    requires id in m.world && id in m.creates
  {
    var s := m.world[id].row.state;
    && CreatePinned(cfg, m.creates[id], s)
    && (forall k :: k in m.cancels && m.cancels[k].id == id ==> CancelPinned(m.cancels[k].h, s))
    && (forall k :: k in m.reports && m.reports[k].id == id ==> ReportPinned(m.reports[k].h, s))
  }

  ghost predicate PinnedAt(cfg: Config, m: Machine, id: TransferId, s: State) {
    && id in m.world && id in m.creates && m.world[id].row.state == s && IsTerminal(s) && Pinned(cfg, m, id)
  }

  lemma CreateStaysPinned(cfg: Config, c: Cell, h: CreateHandler, ok: bool)
    requires IsTerminal(c.row.state) && CreatePinned(cfg, h, c.row.state)
    ensures var (c', h') := CreateOn(cfg, c, h, ok);
            c'.row.state == c.row.state && CreatePinned(cfg, h', c.row.state)
  {
  }

  lemma CancelStaysPinned(cfg: Config, c: Cell, h: CancelHandler, ok: bool)
    requires IsTerminal(c.row.state) && CancelPinned(h, c.row.state)
    ensures var (c', h') := CancelOn(cfg, c, h, ok);
            c'.row.state == c.row.state && CancelPinned(h', c.row.state)
  {
  }

  /** A report that reads a terminal row never heads for a state. */
  lemma ReportStaysPinned(cfg: Config, c: Cell, h: ReportHandler, ok: bool)
    requires IsTerminal(c.row.state) && ReportPinned(h, c.row.state)
    ensures var (c', h') := ReportOn(cfg, c, h, ok);
            c'.row.state == c.row.state && ReportPinned(h', c.row.state)
  {
  }

  lemma NextStaysPinned(cfg: Config, m: Machine, move: Move, id: TransferId, s: State)
    requires PinnedAt(cfg, m, id, s)
    ensures PinnedAt(cfg, Next(cfg, m, move), id, s)
  {
    match move
    case AdvanceCreate(i, ok) => if i == id { CreateStaysPinned(cfg, m.world[id], m.creates[id], ok); }
    case AdvanceCancel(k, ok) =>
      if k in m.cancels && m.cancels[k].id == id { CancelStaysPinned(cfg, m.world[id], m.cancels[k].h, ok); }
    case AdvanceReport(k, ok) =>
      if k in m.reports && m.reports[k].id == id { ReportStaysPinned(cfg, m.world[id], m.reports[k].h, ok); }
    case _ =>
  }

  lemma {:induction false} RunStaysPinned(cfg: Config, m: Machine, later: seq<Move>, id: TransferId, s: State)
    requires PinnedAt(cfg, m, id, s)
    ensures PinnedAt(cfg, RunOn(cfg, m, later), id, s)
    decreases |later|
  {
    if later != [] {
      NextStaysPinned(cfg, m, later[0], id, s);
      RunStaysPinned(cfg, Next(cfg, m, later[0]), later[1..], id, s);
    }
  }

  /** The call that makes a creation fail: a command if there is one left, otherwise whatever fails by itself. */
  predicate Succeeds(pc: CreatePc) {
    pc != CommandSource && pc != CommandDestination
  }

  predicate FailureKnown(h: CreateHandler) {
    h.pc != Insert && (h.pc == PersistFailed ==> h.failure.Some?)
  }

  lemma FailingStep(cfg: Config, c: Cell, h: CreateHandler)
    requires FailureKnown(h) && !MayReopen(cfg, h) && h.pc != CreateDone && h.pc != RecordFailed
    ensures var (c', h') := CreateOn(cfg, c, h, Succeeds(h.pc));
            if h.pc == PersistFailed then c'.row.state == Failed
            else
              && c'.row.state == c.row.state && CreateRank(h'.pc) < CreateRank(h.pc)
              && FailureKnown(h') && !MayReopen(cfg, h') && h'.pc != CreateDone && h'.pc != RecordFailed
  {
  }

  lemma {:induction false} CreateOverwrites(cfg: Config, m: Machine, id: TransferId) returns (later: seq<Move>)
    requires id in m.world && id in m.creates && FailureKnown(m.creates[id]) && m.world[id].row.state != Failed
    requires var h := m.creates[id]; !MayReopen(cfg, h) && h.pc != CreateDone && h.pc != RecordFailed
    ensures var m' := RunOn(cfg, m, later); id in m'.world && m'.world[id].row.state == Failed
    decreases CreateRank(m.creates[id].pc)
  {
    var h := m.creates[id];
    var move := AdvanceCreate(id, Succeeds(h.pc));
    var m' := Next(cfg, m, move);
    FailingStep(cfg, m.world[id], h);
    if h.pc == PersistFailed {
      later := [];
    } else {
      later := CreateOverwrites(cfg, m', id);
    }
    RunOnFirst(cfg, m, move, later);
    later := [move] + later;
  }

  lemma CancelOverwrites(cfg: Config, m: Machine, id: TransferId, k: nat) returns (later: seq<Move>)
    requires id in m.world && k in m.cancels && m.cancels[k].id == id && m.cancels[k].h.pc == PersistCancelled
    ensures var m' := RunOn(cfg, m, later); id in m'.world && m'.world[id].row.state == Cancelled
  {
    later := [AdvanceCancel(k, true)];
    RunOnFirst(cfg, m, AdvanceCancel(k, true), []);
    assert [AdvanceCancel(k, true)] + [] == later;
  }

  function Target(pc: ReportPc): State {
    if pc == PersistCompleted then Completed else Failed
  }

  lemma HeadingStep(cfg: Config, c: Cell, h: ReportHandler)
    requires Heading(h) == PersistCompleted || Heading(h) == PersistExhausted
    ensures var (c', h') := ReportOn(cfg, c, h, true);
            if h.pc == PersistCompleted || h.pc == PersistExhausted then c'.row.state == Target(Heading(h))
            else Heading(h') == Heading(h) && ReportRank(h'.pc) < ReportRank(h.pc)
  {
  }

  lemma {:induction false} ReportOverwrites(cfg: Config, m: Machine, id: TransferId, k: nat) returns (later: seq<Move>)
    requires id in m.world && k in m.reports && m.reports[k].id == id
    requires var pc := Heading(m.reports[k].h); pc == PersistCompleted || pc == PersistExhausted
    ensures var m' := RunOn(cfg, m, later);
            id in m'.world && m'.world[id].row.state == Target(Heading(m.reports[k].h))
    decreases ReportRank(m.reports[k].h.pc)
  {
    var h, move := m.reports[k].h, AdvanceReport(k, true);
    HeadingStep(cfg, m.world[id], h);
    if h.pc == PersistCompleted || h.pc == PersistExhausted {
      later := [];
    } else {
      later := ReportOverwrites(cfg, Next(cfg, m, move), id, k);
    }
    RunOnFirst(cfg, m, move, later);
    later := [move] + later;
  }

  /** A state that is not pinned can be lost. */
  lemma Overwritten(cfg: Config, m: Machine, id: TransferId) returns (later: seq<Move>)
    requires id in m.world && id in m.creates && FailureKnown(m.creates[id])
    requires IsTerminal(m.world[id].row.state) && !Pinned(cfg, m, id)
    ensures var m' := RunOn(cfg, m, later); id in m'.world && m'.world[id].row.state != m.world[id].row.state
  {
    var s := m.world[id].row.state;
    if !CreatePinned(cfg, m.creates[id], s) {
      if MayReopen(cfg, m.creates[id]) {
        later := Reopens(cfg, m, id);
      } else {
        later := CreateOverwrites(cfg, m, id);
      }
    } else if k :| k in m.cancels && m.cancels[k].id == id && !CancelPinned(m.cancels[k].h, s) {
      later := CancelOverwrites(cfg, m, id, k);
    } else {
      var k :| k in m.reports && m.reports[k].id == id && !ReportPinned(m.reports[k].h, s);
      later := ReportOverwrites(cfg, m, id, k);
    }
  }

  ghost predicate FailuresKnown(m: Machine) {
    forall id :: id in m.creates ==> m.creates[id].pc == PersistFailed ==> m.creates[id].failure.Some?
  }

  lemma NextFailuresKnown(cfg: Config, m: Machine, move: Move)
    requires FailuresKnown(m)
    ensures FailuresKnown(Next(cfg, m, move))
  {
  }

  lemma {:induction false} RunFailuresKnown(cfg: Config, moves: seq<Move>)
    ensures FailuresKnown(Run(cfg, moves))
    decreases |moves|
  {
    if moves != [] {
      RunFailuresKnown(cfg, moves[..|moves| - 1]);
      NextFailuresKnown(cfg, Run(cfg, moves[..|moves| - 1]), moves[|moves| - 1]);
    }
  }

  predicate StateAfter(cfg: Config, moves: seq<Move>, id: TransferId, s: State) {
    id in Run(cfg, moves).world && Run(cfg, moves).world[id].row.state == s
  }

  /**
   The same state for good: in every interleaving with any failures, a terminal transfer keeps its very state whatever
   happens next if and only if no handler under way has another state left to write. A handler that starts later
   never matters, since it reads a terminal row.
   */
  lemma SameStateExactly(cfg: Config, moves: seq<Move>, id: TransferId, s: State)
    requires StateAfter(cfg, moves, id, s) && IsTerminal(s)
    ensures id in Run(cfg, moves).creates
    ensures (forall later: seq<Move> :: StateAfter(cfg, moves + later, id, s)) <==> Pinned(cfg, Run(cfg, moves), id)
  {
    var m := Run(cfg, moves);
    RunOk(cfg, moves);
    RunFailuresKnown(cfg, moves);
    assert TransferOk(m, id);
    if Pinned(cfg, m, id) {
      forall later: seq<Move>
        ensures StateAfter(cfg, moves + later, id, s)
      {
        RunInTwo(cfg, moves, later);
        RunStaysPinned(cfg, m, later, id, s);
      }
    } else {
      var later := Overwritten(cfg, m, id);
      RunInTwo(cfg, moves, later);
      assert !StateAfter(cfg, moves + later, id, s);
    }
  }

  // ---------------------------------------------------------------------------
  // An interleaving that loses a cancellation

  /** `n` successful steps of a creation that is alone in the machine. */
  function CreateMoves(id: TransferId, req: Request, now: int, lookup: Lookup, n: nat): seq<Move> {
    if n == 0 then [BeginCreate(id, req, now, lookup)]
    else CreateMoves(id, req, now, lookup, n - 1) + [AdvanceCreate(id, true)]
  }

  /** The points a creation passes on its way, and the state persisted by then. */
  const WAY :=
    [Insert, RecordCreated, PersistValidating, Validate, RecordValidated, PickStrategy, PersistStrategy,
     PersistTransferring]

  predicate CreateAt(m: Machine, id: TransferId, req: Request, now: int, lookup: Lookup, pc: CreatePc) {
    && id in m.creates && m.cancels == map[]
    && var h := m.creates[id];
       && h.req == req && h.now == now && h.lookup == lookup && h.pc == pc
       && (pc != Insert ==> id in m.world)
       && (pc == RecordCreated || pc == PersistValidating ==> m.world[id].row.state == Pending)
       && (pc != Insert && pc != RecordCreated && pc != PersistValidating ==> m.world[id].row.state == Validating)
  }

  lemma CreateMoveReaches(cfg: Config, m: Machine, id: TransferId, req: Request, now: int, lookup: Lookup, i: nat)
    requires Safe(req, lookup) && SelectStrategy(req, cfg.s3Configured).Some?
    requires i < 7 && CreateAt(m, id, req, now, lookup, WAY[i])
    ensures CreateAt(Next(cfg, m, AdvanceCreate(id, true)), id, req, now, lookup, WAY[i + 1])
  {
  }

  /** A creation whose request is in order gets to the point of persisting the transferring state. */
  lemma {:induction false} CreateGetsTo(cfg: Config, id: TransferId, req: Request, now: int, lookup: Lookup, i: nat)
    requires Safe(req, lookup) && SelectStrategy(req, cfg.s3Configured).Some? && i <= 7
    ensures CreateAt(Run(cfg, CreateMoves(id, req, now, lookup, i)), id, req, now, lookup, WAY[i])
  {
    if i == 0 {
      RunSnoc(cfg, [], BeginCreate(id, req, now, lookup));
      assert [] + [BeginCreate(id, req, now, lookup)] == CreateMoves(id, req, now, lookup, 0);
    } else {
      CreateGetsTo(cfg, id, req, now, lookup, i - 1);
      RunSnoc(cfg, CreateMoves(id, req, now, lookup, i - 1), AdvanceCreate(id, true));
      CreateMoveReaches(cfg, Run(cfg, CreateMoves(id, req, now, lookup, i - 1)), id, req, now, lookup, i - 1);
    }
  }

  /** A whole cancellation up to its persisted state and completion time. */
  function Interrupted(cfg: Config, m: Machine, id: TransferId, now: int): Machine {
    var step := AdvanceCancel(0, true);
    Next(cfg, Next(cfg, Next(cfg, Next(cfg, m, BeginCancel(0, id, now)), step), step), step)
  }

  lemma Interrupt(cfg: Config, m: Machine, id: TransferId, now: int)
    requires id in m.world && m.world[id].row.state == Validating && 0 !in m.cancels
    ensures var m' := Interrupted(cfg, m, id, now);
            && id in m'.world && m'.world[id].row.state == Cancelled && m'.world[id].row.completedAt.Some?
            && m'.creates == m.creates
  {
  }

  lemma Overwrite(cfg: Config, m: Machine, id: TransferId)
    requires id in m.world && id in m.creates && m.creates[id].pc == PersistTransferring
    ensures var m' := Next(cfg, m, AdvanceCreate(id, true));
            && id in m'.world && m'.world[id].row.state == Transferring
            && m'.world[id].row.completedAt == m.world[id].row.completedAt
  {
  }

  /**
   A state is really lost: a cancellation that falls between the strategy and the transferring state of a creation
   is persisted and then overwritten, and its completion time stays on the transferring row.
   */
  lemma CancelOverwritten(cfg: Config, id: TransferId, req: Request, now: int, lookup: Lookup)
    requires Safe(req, lookup) && SelectStrategy(req, cfg.s3Configured).Some?
    ensures var step := AdvanceCancel(0, true);
            var moves := CreateMoves(id, req, now, lookup, 7) + [BeginCancel(0, id, now)] + [step] + [step] + [step];
            && StateAfter(cfg, moves, id, Cancelled)
            && StateAfter(cfg, moves + [AdvanceCreate(id, true)], id, Transferring)
            && Run(cfg, moves + [AdvanceCreate(id, true)]).world[id].row.completedAt.Some?
  {
    CreateGetsTo(cfg, id, req, now, lookup, 7);
    var start, step := CreateMoves(id, req, now, lookup, 7), AdvanceCancel(0, true);
    Interrupt(cfg, Run(cfg, start), id, now);
    Overwrite(cfg, Interrupted(cfg, Run(cfg, start), id, now), id);
    var m1 := start + [BeginCancel(0, id, now)];
    RunSnoc(cfg, start, BeginCancel(0, id, now));
    RunSnoc(cfg, m1, step);
    RunSnoc(cfg, m1 + [step], step);
    RunSnoc(cfg, m1 + [step] + [step], step);
    RunSnoc(cfg, m1 + [step] + [step] + [step], AdvanceCreate(id, true));
  }
}
