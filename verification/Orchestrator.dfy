/** The orchestrator over a mutable repository. Each operation is one step of the model in `Lifecycle`. */
module Orchestrator {
  import opened Wrappers
  import opened Transfers
  import opened Handlers
  import opened Lifecycle
  import opened Outcomes
  import opened Faults

  lemma MoreCalls(c: Cell, calls: seq<Effect>, more: seq<Effect>)
    ensures Emit(Emit(c, calls), more) == Emit(c, calls + more)
  {
    assert c.effects + calls + more == c.effects + (calls + more);
  }

  /** A creation up to its stored row. */
  lemma {:induction false} CreateFirst(cfg: Config, h: CreateHandler, faults: set<CreatePc>)
    requires h.pc == Insert
    ensures CreateAlone(cfg, None, h, faults) ==
              if Insert in faults then (None, CreateEnds(h, Rejected))
              else CreateAlone(cfg, Some(NewCell(cfg, h.req, h.now)), h.(pc := RecordCreated), faults)
  {
    var ended := CreateEnds(h, Rejected);
    assert CreateAlone(cfg, None, ended, faults) == (None, ended);
  }

  /** A stored transfer is still there, and if it was terminal its state, completion time and path are as they were. */
  predicate Kept(before: Option<Cell>, after: Option<Cell>) {
    before.Some? ==> after.Some? && (IsTerminal(before.value.row.state) ==> Frozen(before.value, after.value))
  }

  /**
   Transfer rows and event logs, updated in place. `ok` tells whether a call goes through; one that does not
   changes nothing and reports an error. The ghost fields record the states persisted for each transfer and the
   calls made to agents, hub, credentials and S3 on its behalf.
   */
  class TransferRepo {
    var rows: map<TransferId, Row>
    var events: map<TransferId, seq<Event>>
    ghost var paths: map<TransferId, seq<State>>
    ghost var effects: map<TransferId, seq<Effect>>

    constructor ()
      ensures Valid() && forall id :: CellAt(id) == None
    {
      rows, events, paths, effects := map[], map[], map[], map[];
    }

    /** Nothing is recorded for a transfer that is not there. */
    ghost predicate Valid()
      reads this
    {
      events.Keys <= rows.Keys && paths.Keys <= rows.Keys && effects.Keys <= rows.Keys
    }

    /** All there is of a transfer. */
    ghost function CellAt(id: TransferId): Option<Cell>
      reads this
    {
      if id in rows then
        Some(Cell(rows[id], if id in events then events[id] else [], if id in paths then paths[id] else [],
                  if id in effects then effects[id] else []))
      else None
    }

    ghost function LogAt(id: TransferId): seq<Event>
      reads this
    {
      if id in events then events[id] else []
    }

    /** A row already stored under the identifier is replaced; its log stays. */
    method CreateTransfer(id: TransferId, row: Row, ok: bool) returns (err: bool)
      requires Valid()
      modifies this
      ensures Valid() && err == !ok && events == old(events)
      ensures !ok ==> CellAt(id) == old(CellAt(id))
      ensures ok && old(CellAt(id)).None? ==> CellAt(id) == Some(Cell(row, [], [row.state], []))
      ensures ok && old(CellAt(id)).Some? ==>
                CellAt(id) == Some(old(CellAt(id)).value.(row := row, path := [row.state]))
      ensures forall j :: j != id ==> CellAt(j) == old(CellAt(j))
    {
      err := !ok;
      if ok {
        rows, paths := rows[id := row], paths[id := [row.state]];
      }
    }

    method GetTransferByID(id: TransferId, ok: bool) returns (err: bool, row: Option<Row>)
      ensures err == !ok
      ensures row == if ok && CellAt(id).Some? then Some(CellAt(id).value.row) else None
    {
      err, row := !ok, if ok && id in rows then Some(rows[id]) else None;
    }

    method UpdateTransferState(id: TransferId, state: State, ok: bool) returns (err: bool)
      requires Valid()
      modifies this
      ensures Valid() && err == !(ok && old(CellAt(id)).Some?)
      ensures CellAt(id) == if err then old(CellAt(id)) else Some(Persist(old(CellAt(id)).value, state))
      ensures forall j :: j != id ==> CellAt(j) == old(CellAt(j))
    {
      err := !(ok && id in rows);
      if !err {
        rows := rows[id := rows[id].(state := state)];
        paths := paths[id := (if id in paths then paths[id] else []) + [state]];
      }
    }

    method UpdateTransferStrategy(id: TransferId, strategy: Strategy, ok: bool) returns (err: bool)
      requires Valid()
      modifies this
      ensures Valid() && err == !(ok && old(CellAt(id)).Some?)
      ensures CellAt(id) ==
        if err then old(CellAt(id))
        else Some(old(CellAt(id)).value.(
          row := old(CellAt(id)).value.row.(strategy := Some(strategy))))
      ensures forall j :: j != id ==> CellAt(j) == old(CellAt(j))
    {
      err := !(ok && id in rows);
      if !err {
        rows := rows[id := rows[id].(strategy := Some(strategy))];
      }
    }

    method UpdateTransferProgress(id: TransferId, progress: Progress, ok: bool) returns (err: bool)
      requires Valid()
      modifies this
      ensures Valid() && err == !(ok && old(CellAt(id)).Some?)
      ensures CellAt(id) ==
        if err then old(CellAt(id))
        else Some(old(CellAt(id)).value.(
          row := old(CellAt(id)).value.row.(progress := progress)))
      ensures forall j :: j != id ==> CellAt(j) == old(CellAt(j))
    {
      err := !(ok && id in rows);
      if !err {
        rows := rows[id := rows[id].(progress := progress)];
      }
    }

    method UpdateTransferStarted(id: TransferId, now: int, ok: bool) returns (err: bool)
      requires Valid()
      modifies this
      ensures Valid() && err == !(ok && old(CellAt(id)).Some?)
      ensures CellAt(id) ==
        if err then old(CellAt(id))
        else Some(old(CellAt(id)).value.(
          row := old(CellAt(id)).value.row.(startedAt := Some(now))))
      ensures forall j :: j != id ==> CellAt(j) == old(CellAt(j))
    {
      err := !(ok && id in rows);
      if !err {
        rows := rows[id := rows[id].(startedAt := Some(now))];
      }
    }

    method UpdateTransferCompleted(id: TransferId, now: int, ok: bool) returns (err: bool)
      requires Valid()
      modifies this
      ensures Valid() && err == !(ok && old(CellAt(id)).Some?)
      ensures CellAt(id) ==
        if err then old(CellAt(id))
        else Some(old(CellAt(id)).value.(
          row := old(CellAt(id)).value.row.(completedAt := Some(now))))
      ensures forall j :: j != id ==> CellAt(j) == old(CellAt(j))
    {
      err := !(ok && id in rows);
      if !err {
        rows := rows[id := rows[id].(completedAt := Some(now))];
      }
    }

    method UpdateTransferFailed(id: TransferId, failure: Failure, now: int, ok: bool) returns (err: bool)
      requires Valid()
      modifies this
      ensures Valid() && err == !(ok && old(CellAt(id)).Some?)
      ensures CellAt(id) == if err then old(CellAt(id)) else Some(PersistFailure(old(CellAt(id)).value, failure, now))
      ensures forall j :: j != id ==> CellAt(j) == old(CellAt(j))
    {
      err := !(ok && id in rows);
      if !err {
        rows := rows[id := rows[id].(state := Failed, failure := Some(failure), completedAt := Some(now))];
        paths := paths[id := (if id in paths then paths[id] else []) + [Failed]];
      }
    }

    method IncrementRetryCount(id: TransferId, ok: bool) returns (err: bool)
      requires Valid()
      modifies this
      ensures Valid() && err == !(ok && old(CellAt(id)).Some?)
      ensures CellAt(id) ==
        if err then old(CellAt(id))
        else Some(old(CellAt(id)).value.(
          row := old(CellAt(id)).value.row.(retryCount := old(CellAt(id)).value.row.retryCount + 1)))
      ensures forall j :: j != id ==> CellAt(j) == old(CellAt(j))
    {
      err := !(ok && id in rows);
      if !err {
        rows := rows[id := rows[id].(retryCount := rows[id].retryCount + 1)];
      }
    }

    /** Appends, whether or not there is such a transfer. */
    method CreateTransferEvent(id: TransferId, event: Event, ok: bool) returns (err: bool)
      modifies this`events
      ensures err == !ok && LogAt(id) == old(LogAt(id)) + if ok then [event] else []
      ensures old(CellAt(id)).Some? ==> CellAt(id) == Some(Log(old(CellAt(id)).value, event, ok))
      ensures old(CellAt(id)).None? ==> CellAt(id).None?
      ensures old(Valid()) && old(CellAt(id)).Some? ==> Valid()
      ensures forall j :: j != id ==> CellAt(j) == old(CellAt(j)) && LogAt(j) == old(LogAt(j))
    {
      err := !ok;
      if ok {
        var log := if id in events then events[id] else [];
        events := events[id := log + [event]];
      }
    }

    /** Every stored transfer has lived by the transition table. */
    ghost predicate Lives()
      reads this
    {
      forall id :: CellAt(id).Some? ==> Life(CellAt(id).value)
    }

    /** Records a call made for the transfer. */
    ghost method Called(id: TransferId, more: seq<Effect>)
      requires Valid() && CellAt(id).Some?
      modifies this`effects
      ensures Valid() && CellAt(id) == Some(Emit(old(CellAt(id)).value, more))
      ensures forall j :: j != id ==> CellAt(j) == old(CellAt(j))
    {
      effects := effects[id := (if id in effects then effects[id] else []) + more];
    }
  }

  class Orchestrator {
    const cfg: Config
    const repo: TransferRepo

    constructor (cfg: Config, repo: TransferRepo)
      ensures this.cfg == cfg && this.repo == repo
    {
      this.cfg, this.repo := cfg, repo;
    }

    /** `createEvent`: a failure to store the event is only logged. */
    method CreateEvent(id: TransferId, event: Event, ok: bool)
      requires repo.Valid() && repo.CellAt(id).Some?
      modifies repo
      ensures repo.Valid() && repo.CellAt(id) == Some(Log(old(repo.CellAt(id)).value, event, ok))
      ensures forall j :: j != id ==> repo.CellAt(j) == old(repo.CellAt(j))
    {
      var _ := repo.CreateTransferEvent(id, event, ok);
    }

    /** `ExecuteCleanup`: every call is attempted; failures are only logged. */
    method ExecuteCleanup(id: TransferId, row: Row)
      requires repo.Valid() && repo.CellAt(id).Some?
      modifies repo
      ensures repo.Valid() && repo.CellAt(id) == Some(Emit(old(repo.CellAt(id)).value, CleanupEffects(row)))
      ensures CleanupEffects(row) ==
                [RevokeCredentials, SendCancel(row.source.cluster), SendCancel(row.destination.cluster)] +
                if row.strategy == Some(S3) then [DeleteObjects] else []
      ensures forall j :: j != id ==> repo.CellAt(j) == old(repo.CellAt(j))
    {
      ghost var c := repo.CellAt(id).value;
      ghost var calls := [RevokeCredentials];
      repo.Called(id, [RevokeCredentials]);
      MoreCalls(c, calls, [SendCancel(row.source.cluster)]);
      repo.Called(id, [SendCancel(row.source.cluster)]);
      calls := calls + [SendCancel(row.source.cluster)];
      MoreCalls(c, calls, [SendCancel(row.destination.cluster)]);
      repo.Called(id, [SendCancel(row.destination.cluster)]);
      calls := calls + [SendCancel(row.destination.cluster)];
      if row.strategy == Some(S3) {
        MoreCalls(c, calls, [DeleteObjects]);
        repo.Called(id, [DeleteObjects]);
        calls := calls + [DeleteObjects];
      }
      assert calls == CleanupEffects(row);
    }

    /** What the lifecycle says of one operation. */
    lemma LivesOn(op: Op)
      ensures var c := repo.CellAt(op.id);
              repo.Lives() ==>
                var c' := StepCell(cfg, c, op); (c'.Some? ==> Life(c'.value)) && Kept(c, c')
    {
      if repo.Lives() { StepCellLife(cfg, repo.CellAt(op.id), op); }
    }

    // -------------------------------------------------------------------------
    // CancelTransfer

    method CancelTransfer(id: TransferId, now: int, faults: set<CancelPc>) returns (outcome: Outcome)
      requires repo.Valid()
      modifies repo
      ensures repo.Valid() && repo.CellAt(id) == StepCell(cfg, old(repo.CellAt(id)), Cancel(id, now, faults))
      ensures repo.CellAt(id) == Leaves(cfg, old(repo.CellAt(id)), Cancel(id, now, faults))
      ensures forall j :: j != id ==> repo.CellAt(j) == old(repo.CellAt(j))
      ensures outcome == if CancelGoesThrough(old(repo.CellAt(id)), faults) then Succeeded else Rejected
      ensures old(repo.Lives()) ==> repo.Lives() && forall j :: Kept(old(repo.CellAt(j)), repo.CellAt(j))
    {
      LivesOn(Cancel(id, now, faults));
      StepLeaves(cfg, repo.CellAt(id), Cancel(id, now, faults));
      CancelOutcome(cfg, repo.CellAt(id), now, faults);
      ghost var c0, h := repo.CellAt(id), StartCancel(now);
      ghost var end := CancelAlone(cfg, c0, h, faults);
      var err, loaded := repo.GetTransferByID(id, LoadForCancel !in faults);
      if err || loaded.None? || IsTerminal(loaded.value.state) || !Edge(loaded.value.state, Cancelled) {
        assert CancelAlone(cfg, c0, CancelEnds(h, Rejected), faults) == end;
        return Rejected;
      }
      var transfer := loaded.value.(state := Cancelled, completedAt := Some(now));
      h := h.(pc := PersistCancelled, row := Some(transfer));
      assert CancelAlone(cfg, c0, h, faults) == end;
      outcome := PersistCancellation(id, now, faults, transfer, h);
    }

    method PersistCancellation(id: TransferId, now: int, faults: set<CancelPc>, transfer: Row, ghost h0: CancelHandler)
      returns (outcome: Outcome)
      requires h0 == CancelHandler(now, PersistCancelled, Some(transfer), Running)
      requires repo.Valid() && repo.CellAt(id).Some?
      modifies repo
      ensures repo.Valid()
      ensures var (c, h) := CancelAlone(cfg, old(repo.CellAt(id)), h0, faults);
              repo.CellAt(id) == c && outcome == h.outcome
      ensures forall j :: j != id ==> repo.CellAt(j) == old(repo.CellAt(j))
    {
      ghost var c, h := repo.CellAt(id).value, h0;
      ghost var end := CancelAlone(cfg, Some(c), h, faults);
      var err := repo.UpdateTransferState(id, Cancelled, PersistCancelled !in faults);
      if err {
        assert CancelAlone(cfg, Some(c), CancelEnds(h, Rejected), faults) == end;
        return Rejected;
      }
      c, h := Persist(c, Cancelled), h.(pc := PersistCancelledAt);
      assert repo.CellAt(id) == Some(c) && CancelAlone(cfg, Some(c), h, faults) == end;
      err := repo.UpdateTransferCompleted(id, now, PersistCancelledAt !in faults);
      if err {
        assert CancelAlone(cfg, Some(c), CancelEnds(h, Rejected), faults) == end;
        return Rejected;
      }
      c, h := c.(row := c.row.(completedAt := Some(now))), h.(pc := RecordCancelled);
      assert repo.CellAt(id) == Some(c) && CancelAlone(cfg, Some(c), h, faults) == end;
      CreateEvent(id, LogCancelled, RecordCancelled !in faults);
      c, h := Log(c, LogCancelled, RecordCancelled !in faults), h.(pc := CloseCancelled);
      assert repo.CellAt(id) == Some(c) && CancelAlone(cfg, Some(c), h, faults) == end;
      AnnounceCancellation(id, faults, transfer, h);
      outcome := Succeeded;
    }

    method AnnounceCancellation(id: TransferId, ghost faults: set<CancelPc>, transfer: Row, ghost h0: CancelHandler)
      requires h0.pc == CloseCancelled && h0.row == Some(transfer)
      requires repo.Valid() && repo.CellAt(id).Some?
      modifies repo
      ensures repo.Valid()
      ensures var (c, h) := CancelAlone(cfg, old(repo.CellAt(id)), h0, faults);
              repo.CellAt(id) == c && h.outcome == Succeeded
      ensures forall j :: j != id ==> repo.CellAt(j) == old(repo.CellAt(j))
    {
      ghost var c, h := repo.CellAt(id).value, h0;
      ghost var end := CancelAlone(cfg, Some(c), h, faults);
      if cfg.hasHub {
        repo.Called(id, [CloseStream]);
        c := Emit(c, [CloseStream]);
      }
      h := h.(pc := CancelSource);
      assert repo.CellAt(id) == Some(c) && CancelAlone(cfg, Some(c), h, faults) == end;
      repo.Called(id, [SendCancel(transfer.source.cluster)]);
      c, h := Emit(c, [SendCancel(transfer.source.cluster)]), h.(pc := CancelDestination);
      assert repo.CellAt(id) == Some(c) && CancelAlone(cfg, Some(c), h, faults) == end;
      repo.Called(id, [SendCancel(transfer.destination.cluster)]);
      c, h := Emit(c, [SendCancel(transfer.destination.cluster)]), h.(pc := CleanupCancelled);
      assert repo.CellAt(id) == Some(c) && CancelAlone(cfg, Some(c), h, faults) == end;
      ExecuteCleanup(id, transfer);
      c, h := Emit(c, CleanupEffects(transfer)), CancelEnds(h, Succeeded);
      assert repo.CellAt(id) == Some(c) && CancelAlone(cfg, Some(c), h, faults) == end;
    }

    // -------------------------------------------------------------------------
    // CreateTransfer

    /** The identifier is new. */
    method CreateTransfer(id: TransferId, req: Request, now: int, lookup: Lookup, faults: set<CreatePc>)
      returns (outcome: Outcome)
      requires repo.Valid() && repo.CellAt(id).None?
      modifies repo
      ensures repo.Valid()
      ensures repo.CellAt(id) == StepCell(cfg, old(repo.CellAt(id)), Create(id, req, now, lookup, faults))
      ensures repo.CellAt(id) == Leaves(cfg, old(repo.CellAt(id)), Create(id, req, now, lookup, faults))
      ensures forall j :: j != id ==> repo.CellAt(j) == old(repo.CellAt(j))
      ensures outcome == if CreateWorks(req, lookup, faults) then Succeeded else Rejected
      ensures repo.CellAt(id).Some? <==> Insert !in faults
      ensures repo.CellAt(id).Some? ==> CreatedFrom(cfg, req, now, repo.CellAt(id).value)
      ensures old(repo.Lives()) ==> repo.Lives() && forall j :: Kept(old(repo.CellAt(j)), repo.CellAt(j))
    {
      LivesOn(Create(id, req, now, lookup, faults));
      StepLeaves(cfg, repo.CellAt(id), Create(id, req, now, lookup, faults));
      CreateOutcome(cfg, req, now, lookup, faults);
      CreateStores(cfg, req, now, lookup, faults);
      ghost var c0, h := repo.CellAt(id), StartCreate(req, now, lookup);
      ghost var end := CreateAlone(cfg, None, h, faults);
      CreateFirst(cfg, h, faults);
      var retryMax := if req.retryMax.Some? then req.retryMax.value else cfg.retryMaxAttempts;
      var transfer := Row(req.source, req.destination, req.allowOverwrite, Pending, None, Progress(0, 0, 0, 0), None,
                          0, retryMax, req.createdBy, now, None, None);
      var err := repo.CreateTransfer(id, transfer, Insert !in faults);
      if err { return Rejected; }
      h := h.(pc := RecordCreated);
      assert repo.CellAt(id) == Some(NewCell(cfg, req, now));
      assert CreateAlone(cfg, repo.CellAt(id), h, faults) == end;
      outcome := AdmitTransfer(id, req, now, lookup, faults, h);
    }

    method AdmitTransfer(
        id: TransferId, req: Request, now: int, lookup: Lookup, faults: set<CreatePc>, ghost h0: CreateHandler)
      returns (outcome: Outcome)
      requires h0.pc == RecordCreated && h0.req == req && h0.now == now && h0.lookup == lookup
      requires repo.Valid() && repo.CellAt(id).Some?
      modifies repo
      ensures repo.Valid()
      ensures var (c, h) := CreateAlone(cfg, old(repo.CellAt(id)), h0, faults);
              repo.CellAt(id) == c && outcome == h.outcome
      ensures forall j :: j != id ==> repo.CellAt(j) == old(repo.CellAt(j))
    {
      ghost var c, h := repo.CellAt(id).value, h0;
      ghost var end := CreateAlone(cfg, Some(c), h, faults);
      CreateEvent(id, LogCreated, RecordCreated !in faults);
      c, h := Log(c, LogCreated, RecordCreated !in faults), h.(pc := PersistValidating);
      assert repo.CellAt(id) == Some(c) && CreateAlone(cfg, Some(c), h, faults) == end;
      var err := repo.UpdateTransferState(id, Validating, PersistValidating !in faults);
      if err {
        assert CreateAlone(cfg, Some(c), CreateEnds(h, Rejected), faults) == end;
        return Rejected;
      }
      c, h := Persist(c, Validating), h.(pc := Validate);
      assert repo.CellAt(id) == Some(c) && CreateAlone(cfg, Some(c), h, faults) == end;
      var rejection := ValidateTransferRequest(req, lookup);
      if rejection.Some? {
        h := CreateFails(h, Invalid(rejection.value));
        assert CreateAlone(cfg, Some(c), h, faults) == end;
        FailTransfer(id, now, Invalid(rejection.value), faults, h);
        return Rejected;
      }
      h := h.(pc := RecordValidated);
      assert repo.CellAt(id) == Some(c) && CreateAlone(cfg, Some(c), h, faults) == end;
      outcome := StartTransfer(id, req, now, faults, h);
    }

    /** Marks the transfer failed, and says so in the log unless the strategy was to blame. */
    method FailTransfer(id: TransferId, now: int, failure: Failure, faults: set<CreatePc>, ghost h0: CreateHandler)
      requires h0.pc == PersistFailed && h0.failure == Some(failure) && h0.now == now
      requires repo.Valid() && repo.CellAt(id).Some?
      modifies repo
      ensures repo.Valid()
      ensures var (c, h) := CreateAlone(cfg, old(repo.CellAt(id)), h0, faults);
              repo.CellAt(id) == c && h.outcome == Rejected
      ensures forall j :: j != id ==> repo.CellAt(j) == old(repo.CellAt(j))
    {
      ghost var c, h := repo.CellAt(id).value, h0;
      ghost var end := CreateAlone(cfg, Some(c), h, faults);
      var err := repo.UpdateTransferFailed(id, failure, now, PersistFailed !in faults);
      if !err {
        c := PersistFailure(c, failure, now);
      }
      if failure == BadStrategy {
        assert CreateAlone(cfg, Some(c), CreateEnds(h, Rejected), faults) == end;
        return;
      }
      h := h.(pc := RecordFailed);
      assert repo.CellAt(id) == Some(c) && CreateAlone(cfg, Some(c), h, faults) == end;
      CreateEvent(id, LogFailed(failure), RecordFailed !in faults);
      c, h := Log(c, LogFailed(failure), RecordFailed !in faults), CreateEnds(h, Rejected);
      assert repo.CellAt(id) == Some(c) && CreateAlone(cfg, Some(c), h, faults) == end;
    }

    /** From a validated request to the commands. */
    method StartTransfer(id: TransferId, req: Request, now: int, faults: set<CreatePc>, ghost h0: CreateHandler)
      returns (outcome: Outcome)
      requires h0.pc == RecordValidated && h0.req == req && h0.now == now
      requires repo.Valid() && repo.CellAt(id).Some?
      modifies repo
      ensures repo.Valid()
      ensures var (c, h) := CreateAlone(cfg, old(repo.CellAt(id)), h0, faults);
              repo.CellAt(id) == c && outcome == h.outcome
      ensures forall j :: j != id ==> repo.CellAt(j) == old(repo.CellAt(j))
    {
      ghost var c, h := repo.CellAt(id).value, h0;
      ghost var end := CreateAlone(cfg, Some(c), h, faults);
      CreateEvent(id, LogValidated, RecordValidated !in faults);
      c, h := Log(c, LogValidated, RecordValidated !in faults), h.(pc := PickStrategy);
      assert repo.CellAt(id) == Some(c) && CreateAlone(cfg, Some(c), h, faults) == end;
      var strategy := SelectStrategy(req, cfg.s3Configured);
      if strategy.None? {
        h := CreateFails(h, BadStrategy);
        assert CreateAlone(cfg, Some(c), h, faults) == end;
        FailTransfer(id, now, BadStrategy, faults, h);
        return Rejected;
      }
      h := h.(pc := PersistStrategy, strategy := strategy);
      assert repo.CellAt(id) == Some(c) && CreateAlone(cfg, Some(c), h, faults) == end;
      outcome := BeginTransferring(id, req, now, faults, strategy.value, h);
    }

    method BeginTransferring(
        id: TransferId, req: Request, now: int, faults: set<CreatePc>, strategy: Strategy, ghost h0: CreateHandler)
      returns (outcome: Outcome)
      requires h0.pc == PersistStrategy && h0.req == req && h0.now == now && h0.strategy == Some(strategy)
      requires repo.Valid() && repo.CellAt(id).Some?
      modifies repo
      ensures repo.Valid()
      ensures var (c, h) := CreateAlone(cfg, old(repo.CellAt(id)), h0, faults);
              repo.CellAt(id) == c && outcome == h.outcome
      ensures forall j :: j != id ==> repo.CellAt(j) == old(repo.CellAt(j))
    {
      ghost var c, h := repo.CellAt(id).value, h0;
      ghost var end := CreateAlone(cfg, Some(c), h, faults);
      var err := repo.UpdateTransferStrategy(id, strategy, PersistStrategy !in faults);
      if err {
        assert CreateAlone(cfg, Some(c), CreateEnds(h, Rejected), faults) == end;
        return Rejected;
      }
      c, h := c.(row := c.row.(strategy := Some(strategy))), h.(pc := PersistTransferring);
      assert repo.CellAt(id) == Some(c) && CreateAlone(cfg, Some(c), h, faults) == end;
      err := repo.UpdateTransferState(id, Transferring, PersistTransferring !in faults);
      if err {
        assert CreateAlone(cfg, Some(c), CreateEnds(h, Rejected), faults) == end;
        return Rejected;
      }
      c, h := Persist(c, Transferring), h.(pc := PersistStarted);
      assert repo.CellAt(id) == Some(c) && CreateAlone(cfg, Some(c), h, faults) == end;
      outcome := MarkStarted(id, req, now, faults, strategy, h);
    }

    method MarkStarted(
        id: TransferId, req: Request, now: int, faults: set<CreatePc>, strategy: Strategy, ghost h0: CreateHandler)
      returns (outcome: Outcome)
      requires h0.pc == PersistStarted && h0.req == req && h0.now == now && h0.strategy == Some(strategy)
      requires repo.Valid() && repo.CellAt(id).Some?
      modifies repo
      ensures repo.Valid()
      ensures var (c, h) := CreateAlone(cfg, old(repo.CellAt(id)), h0, faults);
              repo.CellAt(id) == c && outcome == h.outcome
      ensures forall j :: j != id ==> repo.CellAt(j) == old(repo.CellAt(j))
    {
      ghost var c, h := repo.CellAt(id).value, h0;
      ghost var end := CreateAlone(cfg, Some(c), h, faults);
      var err := repo.UpdateTransferStarted(id, now, PersistStarted !in faults);
      if err {
        assert CreateAlone(cfg, Some(c), CreateEnds(h, Rejected), faults) == end;
        return Rejected;
      }
      c, h := c.(row := c.row.(startedAt := Some(now))), h.(pc := RecordStarted);
      assert repo.CellAt(id) == Some(c) && CreateAlone(cfg, Some(c), h, faults) == end;
      CreateEvent(id, LogStarted(strategy), RecordStarted !in faults);
      c, h := Log(c, LogStarted(strategy), RecordStarted !in faults), h.(pc := CommandSource);
      assert repo.CellAt(id) == Some(c) && CreateAlone(cfg, Some(c), h, faults) == end;
      outcome := CommandAgents(id, req, now, faults, h);
    }

    method CommandAgents(id: TransferId, req: Request, now: int, faults: set<CreatePc>, ghost h0: CreateHandler)
      returns (outcome: Outcome)
      requires h0.pc == CommandSource && h0.req == req && h0.now == now
      requires repo.Valid() && repo.CellAt(id).Some?
      modifies repo
      ensures repo.Valid()
      ensures var (c, h) := CreateAlone(cfg, old(repo.CellAt(id)), h0, faults);
              repo.CellAt(id) == c && outcome == h.outcome
      ensures forall j :: j != id ==> repo.CellAt(j) == old(repo.CellAt(j))
    {
      ghost var c, h := repo.CellAt(id).value, h0;
      ghost var end := CreateAlone(cfg, Some(c), h, faults);
      repo.Called(id, [SendTransfer(req.source.cluster)]);
      c := Emit(c, [SendTransfer(req.source.cluster)]);
      if CommandSource in faults {
        h := CreateFails(h, SourceCommand);
        assert CreateAlone(cfg, Some(c), h, faults) == end;
        FailTransfer(id, now, SourceCommand, faults, h);
        return Rejected;
      }
      h := h.(pc := CommandDestination);
      assert repo.CellAt(id) == Some(c) && CreateAlone(cfg, Some(c), h, faults) == end;
      repo.Called(id, [SendTransfer(req.destination.cluster)]);
      c := Emit(c, [SendTransfer(req.destination.cluster)]);
      if CommandDestination in faults {
        h := CreateFails(h, DestinationCommand);
        assert CreateAlone(cfg, Some(c), h, faults) == end;
        FailTransfer(id, now, DestinationCommand, faults, h);
        return Rejected;
      }
      h := CreateEnds(h, Succeeded);
      assert repo.CellAt(id) == Some(c) && CreateAlone(cfg, Some(c), h, faults) == end;
      outcome := Succeeded;
    }

    // -------------------------------------------------------------------------
    // HandleProgress

    method HandleProgress(id: TransferId, report: Report, now: int, faults: set<ReportPc>) returns (outcome: Outcome)
      requires repo.Valid()
      modifies repo
      ensures repo.Valid() && repo.CellAt(id) == StepCell(cfg, old(repo.CellAt(id)), Op.Report(id, report, now, faults))
      ensures repo.CellAt(id) == Leaves(cfg, old(repo.CellAt(id)), Op.Report(id, report, now, faults))
      ensures forall j :: j != id ==> repo.CellAt(j) == old(repo.CellAt(j))
      ensures outcome == if ReportGoesThrough(old(repo.CellAt(id)), report, faults) then Succeeded else Rejected
      ensures old(repo.Lives()) ==> repo.Lives() && forall j :: Kept(old(repo.CellAt(j)), repo.CellAt(j))
    {
      LivesOn(Op.Report(id, report, now, faults));
      StepLeaves(cfg, repo.CellAt(id), Op.Report(id, report, now, faults));
      ReportOutcome(cfg, repo.CellAt(id), report, now, faults);
      ghost var c0, h := repo.CellAt(id), StartReport(report, now);
      ghost var end := ReportAlone(cfg, c0, h, faults);
      var err, loaded := repo.GetTransferByID(id, LoadForReport !in faults);
      if err || loaded.None? {
        assert ReportAlone(cfg, c0, ReportEnds(h, Rejected), faults) == end;
        return Rejected;
      }
      h := h.(pc := PersistProgress, row := loaded);
      assert ReportAlone(cfg, c0, h, faults) == end;
      outcome := NoteProgress(id, report, now, loaded.value, faults, h);
    }

    method NoteProgress(
        id: TransferId, report: Report, now: int, transfer: Row, faults: set<ReportPc>, ghost h0: ReportHandler)
      returns (outcome: Outcome)
      requires h0 == ReportHandler(report, now, PersistProgress, Some(transfer), Running)
      requires repo.Valid() && repo.CellAt(id).Some?
      modifies repo
      ensures repo.Valid()
      ensures var (c, h) := ReportAlone(cfg, old(repo.CellAt(id)), h0, faults);
              repo.CellAt(id) == c && outcome == h.outcome
      ensures forall j :: j != id ==> repo.CellAt(j) == old(repo.CellAt(j))
    {
      ghost var c, h := repo.CellAt(id).value, h0;
      ghost var end := ReportAlone(cfg, Some(c), h, faults);
      var err := repo.UpdateTransferProgress(id, report.progress, PersistProgress !in faults);
      if err {
        assert ReportAlone(cfg, Some(c), ReportEnds(h, Rejected), faults) == end;
        return Rejected;
      }
      c, h := c.(row := c.row.(progress := report.progress)), h.(pc := RecordProgress);
      assert repo.CellAt(id) == Some(c) && ReportAlone(cfg, Some(c), h, faults) == end;
      CreateEvent(id, LogProgress(report), RecordProgress !in faults);
      c, h := Log(c, LogProgress(report), RecordProgress !in faults), h.(pc := PublishProgress);
      assert repo.CellAt(id) == Some(c) && ReportAlone(cfg, Some(c), h, faults) == end;
      if cfg.hasHub {
        repo.Called(id, [Publish(report)]);
        c := Emit(c, [Publish(report)]);
      }
      h := Decide(h, transfer);
      assert repo.CellAt(id) == Some(c) && ReportAlone(cfg, Some(c), h, faults) == end;
      outcome := ActOnStatus(id, report, now, transfer, faults, h);
    }

    method ActOnStatus(
        id: TransferId, report: Report, now: int, transfer: Row, faults: set<ReportPc>, ghost h0: ReportHandler)
      returns (outcome: Outcome)
      requires h0 == Decide(ReportHandler(report, now, PublishProgress, Some(transfer), Running), transfer)
      requires repo.Valid() && repo.CellAt(id).Some?
      modifies repo
      ensures repo.Valid()
      ensures var (c, h) := ReportAlone(cfg, old(repo.CellAt(id)), h0, faults);
              repo.CellAt(id) == c && outcome == h.outcome
      ensures forall j :: j != id ==> repo.CellAt(j) == old(repo.CellAt(j))
    {
      if report.status == "completed" {
        if !Edge(transfer.state, Completed) {
          return Rejected;
        }
        outcome := CompleteTransfer(id, now, transfer, faults, h0);
      } else if report.status == "failed" {
        if MayRetry(transfer) {
          outcome := RetryTransfer(id, transfer, faults, h0);
        } else if !Edge(transfer.state, Failed) {
          outcome := Rejected;
        } else {
          outcome := ExhaustTransfer(id, report, now, transfer, faults, h0);
        }
      } else {
        outcome := Succeeded;
      }
    }

    method RetryTransfer(id: TransferId, transfer: Row, faults: set<ReportPc>, ghost h0: ReportHandler)
      returns (outcome: Outcome)
      requires h0.pc == IncrementRetries && h0.row == Some(transfer)
      requires repo.Valid() && repo.CellAt(id).Some?
      modifies repo
      ensures repo.Valid()
      ensures var (c, h) := ReportAlone(cfg, old(repo.CellAt(id)), h0, faults);
              repo.CellAt(id) == c && outcome == h.outcome
      ensures forall j :: j != id ==> repo.CellAt(j) == old(repo.CellAt(j))
    {
      ghost var c, h := repo.CellAt(id).value, h0;
      ghost var end := ReportAlone(cfg, Some(c), h, faults);
      var err := repo.IncrementRetryCount(id, IncrementRetries !in faults);
      if err {
        assert ReportAlone(cfg, Some(c), ReportEnds(h, Rejected), faults) == end;
        return Rejected;
      }
      c, h := c.(row := c.row.(retryCount := c.row.retryCount + 1)), h.(pc := RecordRetried);
      assert repo.CellAt(id) == Some(c) && ReportAlone(cfg, Some(c), h, faults) == end;
      CreateEvent(id, LogRetried(transfer.retryCount + 1), RecordRetried !in faults);
      c, h := Log(c, LogRetried(transfer.retryCount + 1), RecordRetried !in faults), ReportEnds(h, Succeeded);
      assert repo.CellAt(id) == Some(c) && ReportAlone(cfg, Some(c), h, faults) == end;
      outcome := Succeeded;
    }

    method CompleteTransfer(id: TransferId, now: int, transfer: Row, faults: set<ReportPc>, ghost h0: ReportHandler)
      returns (outcome: Outcome)
      requires h0.pc == PersistCompleted && h0.row == Some(transfer) && h0.now == now
      requires repo.Valid() && repo.CellAt(id).Some?
      modifies repo
      ensures repo.Valid()
      ensures var (c, h) := ReportAlone(cfg, old(repo.CellAt(id)), h0, faults);
              repo.CellAt(id) == c && outcome == h.outcome
      ensures forall j :: j != id ==> repo.CellAt(j) == old(repo.CellAt(j))
    {
      ghost var c, h := repo.CellAt(id).value, h0;
      ghost var end := ReportAlone(cfg, Some(c), h, faults);
      var err := repo.UpdateTransferState(id, Completed, PersistCompleted !in faults);
      if err {
        assert ReportAlone(cfg, Some(c), ReportEnds(h, Rejected), faults) == end;
        return Rejected;
      }
      c, h := Persist(c, Completed), h.(pc := PersistCompletedAt);
      assert repo.CellAt(id) == Some(c) && ReportAlone(cfg, Some(c), h, faults) == end;
      outcome := StampCompleted(id, now, transfer, faults, h);
    }

    /** The rest of a completion, once the state is stored. */
    method StampCompleted(id: TransferId, now: int, transfer: Row, faults: set<ReportPc>, ghost h0: ReportHandler)
      returns (outcome: Outcome)
      requires h0.pc == PersistCompletedAt && h0.row == Some(transfer) && h0.now == now
      requires repo.Valid() && repo.CellAt(id).Some?
      modifies repo
      ensures repo.Valid()
      ensures var (c, h) := ReportAlone(cfg, old(repo.CellAt(id)), h0, faults);
              repo.CellAt(id) == c && outcome == h.outcome
      ensures forall j :: j != id ==> repo.CellAt(j) == old(repo.CellAt(j))
    {
      ghost var c, h := repo.CellAt(id).value, h0;
      ghost var end := ReportAlone(cfg, Some(c), h, faults);
      var err := repo.UpdateTransferCompleted(id, now, PersistCompletedAt !in faults);
      if err {
        assert ReportAlone(cfg, Some(c), ReportEnds(h, Rejected), faults) == end;
        return Rejected;
      }
      c, h := c.(row := c.row.(completedAt := Some(now))), h.(pc := RecordCompleted);
      assert repo.CellAt(id) == Some(c) && ReportAlone(cfg, Some(c), h, faults) == end;
      CreateEvent(id, LogCompleted, RecordCompleted !in faults);
      c, h := Log(c, LogCompleted, RecordCompleted !in faults), h.(pc := CloseReported);
      assert repo.CellAt(id) == Some(c) && ReportAlone(cfg, Some(c), h, faults) == end;
      CloseAndCleanUp(id, transfer, faults, h);
      outcome := Succeeded;
    }

    method ExhaustTransfer(
        id: TransferId, report: Report, now: int, transfer: Row, faults: set<ReportPc>, ghost h0: ReportHandler)
      returns (outcome: Outcome)
      requires h0.pc == PersistExhausted && h0.row == Some(transfer) && h0.now == now && h0.report == report
      requires repo.Valid() && repo.CellAt(id).Some?
      modifies repo
      ensures repo.Valid()
      ensures var (c, h) := ReportAlone(cfg, old(repo.CellAt(id)), h0, faults);
              repo.CellAt(id) == c && outcome == h.outcome
      ensures forall j :: j != id ==> repo.CellAt(j) == old(repo.CellAt(j))
    {
      ghost var c, h := repo.CellAt(id).value, h0;
      ghost var end := ReportAlone(cfg, Some(c), h, faults);
      var failure := Exhausted(report.errorMessage);
      var err := repo.UpdateTransferFailed(id, failure, now, PersistExhausted !in faults);
      if err {
        assert ReportAlone(cfg, Some(c), ReportEnds(h, Rejected), faults) == end;
        return Rejected;
      }
      c, h := PersistFailure(c, failure, now), h.(pc := RecordExhausted);
      assert repo.CellAt(id) == Some(c) && ReportAlone(cfg, Some(c), h, faults) == end;
      CreateEvent(id, LogFailed(failure), RecordExhausted !in faults);
      c, h := Log(c, LogFailed(failure), RecordExhausted !in faults), h.(pc := CloseReported);
      assert repo.CellAt(id) == Some(c) && ReportAlone(cfg, Some(c), h, faults) == end;
      CloseAndCleanUp(id, transfer, faults, h);
      outcome := Succeeded;
    }

    method CloseAndCleanUp(id: TransferId, transfer: Row, ghost faults: set<ReportPc>, ghost h0: ReportHandler)
      requires h0.pc == CloseReported && h0.row == Some(transfer)
      requires repo.Valid() && repo.CellAt(id).Some?
      modifies repo
      ensures repo.Valid()
      ensures var (c, h) := ReportAlone(cfg, old(repo.CellAt(id)), h0, faults);
              repo.CellAt(id) == c && h.outcome == Succeeded
      ensures forall j :: j != id ==> repo.CellAt(j) == old(repo.CellAt(j))
    {
      ghost var c, h := repo.CellAt(id).value, h0;
      ghost var end := ReportAlone(cfg, Some(c), h, faults);
      if cfg.hasHub {
        repo.Called(id, [CloseStream]);
        c := Emit(c, [CloseStream]);
      }
      h := h.(pc := CleanupReported);
      assert repo.CellAt(id) == Some(c) && ReportAlone(cfg, Some(c), h, faults) == end;
      ExecuteCleanup(id, transfer);
      c, h := Emit(c, CleanupEffects(transfer)), ReportEnds(h, Succeeded);
      assert repo.CellAt(id) == Some(c) && ReportAlone(cfg, Some(c), h, faults) == end;
    }
  }
}
