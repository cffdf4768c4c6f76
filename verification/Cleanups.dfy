/** Whom a transfer's ending tells: every call of a cleanup, and the cancel commands of each cluster, counted. */
module Cleanups {
  import opened Wrappers
  import opened Transfers
  import opened Handlers
  import opened Lifecycle
  import opened FaultFree
  import opened Faults
  import opened Replay

  /** A cleanup revokes credentials, tells the source agent, then the destination agent, and deletes S3 objects. */
  lemma CleanupCalls(row: Row)
    ensures row.strategy == Some(S3) ==>
              CleanupEffects(row) == [RevokeCredentials, SendCancel(row.source.cluster),
                                      SendCancel(row.destination.cluster), DeleteObjects]
    ensures row.strategy != Some(S3) ==>
              CleanupEffects(row) == [RevokeCredentials, SendCancel(row.source.cluster),
                                      SendCancel(row.destination.cluster)]
  {
  }

  /** How many of the transfer's two ends lie in the cluster. */
  function EndsIn(row: Row, cluster: string): nat {
    (if row.source.cluster == cluster then 1 else 0) + (if row.destination.cluster == cluster then 1 else 0)
  }

  function Told(c: Cell, cluster: string): nat {
    Count(c.effects, SendCancel(cluster))
  }

  lemma CleanupTells(row: Row, cluster: string)
    ensures Count(CleanupEffects(row), SendCancel(cluster)) == EndsIn(row, cluster)
  {
    var a, b, c := [RevokeCredentials], [SendCancel(row.source.cluster)], [SendCancel(row.destination.cluster)];
    var d := if row.strategy == Some(S3) then [DeleteObjects] else [];
    CleanupCalls(row);
    assert CleanupEffects(row) == a + b + c + d;
    CountConcat(a, b, SendCancel(cluster));
    CountConcat(a + b, c, SendCancel(cluster));
    CountConcat(a + b + c, d, SendCancel(cluster));
    CountOne(RevokeCredentials, SendCancel(cluster));
    CountOne(SendCancel(row.source.cluster), SendCancel(cluster));
    CountOne(SendCancel(row.destination.cluster), SendCancel(cluster));
    CountOne(DeleteObjects, SendCancel(cluster));
  }

  lemma OthersTellNobody(cfg: Config, report: Report, cluster: string)
    ensures Count(Closing(cfg), SendCancel(cluster)) == 0 && Count(Publishing(cfg, report), SendCancel(cluster)) == 0
  {
    CountOne(CloseStream, SendCancel(cluster));
    CountOne(Publish(report), SendCancel(cluster));
  }

  lemma CancelTells(cfg: Config, c: Cell, now: int, cluster: string)
    requires !IsTerminal(c.row.state)
    ensures Told(AfterCancel(c, cfg, now), cluster) == Told(c, cluster) + 2 * EndsIn(c.row, cluster)
  {
    var e := SendCancel(cluster);
    var source, destination := [SendCancel(c.row.source.cluster)], [SendCancel(c.row.destination.cluster)];
    var e1 := c.effects + Closing(cfg);
    CountConcat(c.effects, Closing(cfg), e);
    CountConcat(e1, source, e);
    CountConcat(e1 + source, destination, e);
    CountConcat(e1 + source + destination, CleanupEffects(c.row), e);
    CountOne(CloseStream, e);
    CountOne(SendCancel(c.row.source.cluster), e);
    CountOne(SendCancel(c.row.destination.cluster), e);
    CleanupTells(c.row, cluster);
  }

  lemma FinishedTells(cfg: Config, n: Cell, row: Row, last: Event, cluster: string)
    ensures Told(Finished(n, cfg, row, last), cluster) == Told(n, cluster) + EndsIn(row, cluster)
  {
    var e := SendCancel(cluster);
    CountConcat(n.effects, Closing(cfg), e);
    CountConcat(n.effects + Closing(cfg), CleanupEffects(row), e);
    CountOne(CloseStream, e);
    CleanupTells(row, cluster);
  }

  /** How often each end is told when an operation takes the transfer from one state to another. */
  function Rounds(before: State, after: State): nat {
    if IsTerminal(before) || !IsTerminal(after) then 0 else if after == Cancelled then 2 else 1
  }

  lemma ReportTells(cfg: Config, c: Cell, report: Report, now: int, cluster: string)
    ensures var r := AfterReport(c, cfg, report, now);
            && Told(r, cluster) == Told(c, cluster) + Rounds(c.row.state, r.row.state) * EndsIn(c.row, cluster)
            && r.row.source == c.row.source && r.row.destination == c.row.destination
  {
    var n := Noted(c, cfg, report);
    CountConcat(c.effects, Publishing(cfg, report), SendCancel(cluster));
    OthersTellNobody(cfg, report, cluster);
    if report.status == "completed" && c.row.state == Transferring {
      FinishedTells(cfg, n, n.row.(state := Completed, completedAt := Some(now)), LogCompleted, cluster);
    } else {
      var failure := Exhausted(report.errorMessage);
      FinishedTells(cfg, n, n.row.(state := Failed, failure := Some(failure), completedAt := Some(now)),
                    LogFailed(failure), cluster);
    }
  }

  lemma StepTells(cfg: Config, c: Cell, op: Op, cluster: string)
    requires NoRepositoryFault(op)
    ensures var r := StepCell(cfg, Some(c), op);
            && r.Some? && r.value.row.source == c.row.source && r.value.row.destination == c.row.destination
            && (IsTerminal(c.row.state) ==> r.value.row.state == c.row.state)
            && Told(r.value, cluster)
               == Told(c, cluster) + Rounds(c.row.state, r.value.row.state) * EndsIn(c.row, cluster)
  {
    StepClosedForm(cfg, Some(c), op);
    match op
    case Create(_, _, _, _, _) =>
    case Cancel(_, now, _) => if !IsTerminal(c.row.state) { CancelTells(cfg, c, now, cluster); }
    case Report(_, report, now, _) => ReportTells(cfg, c, report, now, cluster);
  }

  lemma {:induction false} RunTells(cfg: Config, w: World, ops: seq<Op>, id: TransferId, cluster: string)
    requires FaultFreeOps(ops) && id in w
    ensures var w' := RunFrom(cfg, w, ops);
            && id in w' && w'[id].row.source == w[id].row.source && w'[id].row.destination == w[id].row.destination
            && (IsTerminal(w[id].row.state) ==> w'[id].row.state == w[id].row.state)
            && Told(w'[id], cluster)
               == Told(w[id], cluster) + Rounds(w[id].row.state, w'[id].row.state) * EndsIn(w[id].row, cluster)
    decreases |ops|
  {
    if ops != [] {
      if ops[0].id == id { StepTells(cfg, w[id], ops[0], cluster); }
      RunTells(cfg, Step(cfg, w, ops[0]), ops[1..], id, cluster);
    }
  }

  lemma CreateTells(cfg: Config, req: Request, now: int, lookup: Lookup, faults: set<CreatePc>, cluster: string)
    ensures Told(AfterCreate(cfg, req, now, lookup, faults), cluster) == 0
  {
    var e := SendCancel(cluster);
    var source, destination := SendTransfer(req.source.cluster), SendTransfer(req.destination.cluster);
    CountConcat([], [source], e);
    CountConcat([] + [source], [destination], e);
    CountOne(source, e);
    CountOne(destination, e);
  }

  /**
   Cancel commands: over every run without repository faults, each end of a transfer is told once if a report ended it,
   twice if a cancellation did (once directly, once by the cleanup), and never before it ends or if it failed in its own
   creation. Two ends in one cluster are told there together.
   */
  lemma {:induction false} CancelCommandsCounted(
    cfg: Config, w: World, ops: seq<Op>, id: TransferId, cluster: string)
    requires FaultFreeOps(ops) && id !in w
    ensures var w' := RunFrom(cfg, w, ops);
            id in w' ==>
              var c := w'[id];
              var times := if c.row.state == Cancelled then 2 else EndedBy(cfg, w, ops, id);
              Told(c, cluster) == times * EndsIn(c.row, cluster)
    decreases |ops|
  {
    if ops != [] {
      var op, w1 := ops[0], Step(cfg, w, ops[0]);
      StepClosedForm(cfg, CellOf(w, op.id), op);
      if id in w1 {
        CreateTells(cfg, op.req, op.now, op.lookup, op.createFaults, cluster);
        CreateCleansNothing(cfg, op.req, op.now, op.lookup, op.createFaults);
        RunTells(cfg, w1, ops[1..], id, cluster);
        CleanupFrom(cfg, w1, ops[1..], id);
      } else {
        CancelCommandsCounted(cfg, w1, ops[1..], id, cluster);
      }
    }
  }
}
