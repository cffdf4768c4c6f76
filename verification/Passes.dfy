/** What one reconciliation does, told by the resource and the answers alone. */
module Passes {
  import opened Wrappers
  import opened Transfers
  import opened Handlers
  import opened Lifecycle
  import opened Outcomes
  import opened Reconciler

  /** The resource carries one Ready condition, and this is what it says. */
  predicate Says(status: Status, ready: Truth, reason: string, message: string) {
    && AtMostOne(status.conditions, "Ready")
    && exists i ::
         && 0 <= i < |status.conditions| && status.conditions[i].kind == "Ready" && status.conditions[i].status == ready
         && status.conditions[i].reason == reason && status.conditions[i].message == message
  }

  lemma ReadySays(vt: Resource, ready: Truth, reason: string, message: string, now: int, status: Status)
    requires AtMostOne(vt.status.conditions, "Ready")
    requires status.conditions == Ready(vt, ready, reason, message, now)
    ensures Says(status, ready, reason, message)
  {
    ConditionSet(vt.status.conditions, READY, ready, reason, message, now, vt.generation);
  }

  // ---------------------------------------------------------------------------
  // Starting a transfer

  /** The row is what the resource asks for. */
  predicate AsSpecified(cfg: Config, vt: Resource, row: Row) {
    && row.source == vt.spec.source && row.destination == vt.spec.destination
    && row.allowOverwrite == vt.spec.allowOverwrite
    && row.retryMax == (if vt.spec.retryMax > 0 then vt.spec.retryMax else cfg.retryMaxAttempts)
    && row.createdBy == "crd/" + vt.namespace + "/" + vt.name
    && (row.strategy.Some? && vt.spec.strategy != "" ==> StrategyName(row.strategy.value) == vt.spec.strategy)
  }

  /** The transfer the resource asks for may be started, and every call this needs goes through. */
  predicate Startable(vt: Resource, a: Answers) {
    && vt.spec.source != vt.spec.destination
    && a.lookup.sourceFound == Transfers.Says(true) && a.lookup.destinationFound == Transfers.Says(true)
    && (a.lookup.destinationEmpty == Transfers.Says(true) ||
        (vt.spec.allowOverwrite && a.lookup.destinationEmpty == Transfers.Says(false)))
    && (vt.spec.strategy == "" || vt.spec.strategy == "stream" || vt.spec.strategy == "s3" ||
        vt.spec.strategy == "direct")
    && a.createFaults !! {Insert, PersistValidating, PersistStrategy, PersistTransferring, PersistStarted,
                          CommandSource, CommandDestination}
  }

  lemma StartableIs(cfg: Config, vt: Resource, a: Answers)
    ensures CreateSucceeds(cfg, vt, a) <==> Startable(vt, a)
  {
    CreateOutcome(cfg, RequestOf(vt), a.now, a.lookup, a.createFaults);
  }

  /** A pass is about to start a transfer: nothing is recorded, and the finalizer is or can be stored. */
  predicate Starts(vt: Resource, a: Answers) {
    !vt.deleting && (vt.finalizer || a.updateOk) && vt.status.transferId.None?
  }

  /** What such a pass stores and tells the agents is what the resource asks for. */
  lemma StartedAsSpecified(cfg: Config, vt: Resource, a: Answers)
    requires Starts(vt, a)
    ensures var p := Reconcile(cfg, Some(vt), None, a);
            && (p.created <==> Startable(vt, a))
            && (p.cell.Some? <==> Insert !in a.createFaults)
            && (p.cell.Some? ==>
                  && AsSpecified(cfg, vt, p.cell.value.row)
                  && p.cell.value.effects
                     <= [SendTransfer(vt.spec.source.cluster), SendTransfer(vt.spec.destination.cluster)])
            && (p.created ==>
                  && p.cell.Some? && p.cell.value.row.strategy.Some?
                  && p.cell.value.effects
                     == [SendTransfer(vt.spec.source.cluster), SendTransfer(vt.spec.destination.cluster)])
  {
    var vt' := vt.(finalizer := true);
    StartableIs(cfg, vt', a);
    CreateStores(cfg, RequestOf(vt'), a.now, a.lookup, a.createFaults);
  }

  /** What it leaves in the resource. */
  lemma StartedSays(cfg: Config, vt: Resource, a: Answers)
    requires Starts(vt, a) && AtMostOne(vt.status.conditions, "Ready")
    ensures var p := Reconcile(cfg, Some(vt), None, a);
            && p.stored.Some? && p.stored.value.(status := vt.status) == vt.(finalizer := true)
            && var status := p.stored.value.status;
               && (p.lost <==> p.created && !a.statusOk)
               && (!a.statusOk ==> status == vt.status)
               && (a.statusOk && p.created ==>
                     && status.transferId == Some(a.newId) && status.phase == Some(Transferring)
                     && Says(status, False, "InProgress", "Transfer created"))
               && (a.statusOk && !p.created ==>
                     && status.transferId.None? && status.phase == vt.status.phase
                     && Says(status, False, "CreateFailed", a.errorText))
  {
    var vt', status := vt.(finalizer := true), Reconcile(cfg, Some(vt), None, a).stored.value.status;
    if a.statusOk && CreateSucceeds(cfg, vt', a) {
      ReadySays(vt', False, "InProgress", "Transfer created", a.now, status);
    } else if a.statusOk {
      ReadySays(vt', False, "CreateFailed", a.errorText, a.now, status);
    }
  }

  // ---------------------------------------------------------------------------
  // Following a transfer

  /** With a transfer recorded, a pass changes nothing but the status, which then tells its state and progress. */
  lemma PolledSays(cfg: Config, vt: Resource, cell: Option<Cell>, a: Answers)
    requires !vt.deleting && vt.finalizer && vt.status.transferId.Some? && AtMostOne(vt.status.conditions, "Ready")
    ensures var p := Reconcile(cfg, Some(vt), cell, a);
            && p.cell == cell && !p.created && p.stored.Some? && p.stored.value.(status := vt.status) == vt
            && var status := p.stored.value.status;
               && (!a.getOk || !a.statusOk ==> status == vt.status)
               && (a.getOk && a.statusOk ==>
                     && status.transferId == vt.status.transferId
                     && match cell
                        case None =>
                          status.phase == vt.status.phase && Says(status, False, "NotFound", "Transfer not found")
                        case Some(c) =>
                          && status.phase == Some(c.row.state) && status.progress == c.row.progress
                          && match c.row.state
                             case Completed => Says(status, True, "Completed", "Transfer completed")
                             case Failed => Says(status, False, "Failed", "Transfer failed")
                             case Cancelled => Says(status, False, "Cancelled", "Transfer cancelled")
                             case Pending => Says(status, False, "InProgress", "Transfer pending")
                             case Validating => Says(status, False, "InProgress", "Transfer validating")
                             case Transferring => Says(status, False, "InProgress", "Transfer transferring"))
  {
    if a.getOk && a.statusOk {
      var status := Reconcile(cfg, Some(vt), cell, a).stored.value.status;
      if cell.None? {
        ReadySays(vt, False, "NotFound", "Transfer not found", a.now, status);
      } else {
        var s := cell.value.row.state;
        ReadySays(vt, if s == Completed then True else False, Reason(s), "Transfer " + StateName(s), a.now, status);
        Messages();
      }
    }
  }

  lemma Messages()
    ensures "Transfer " + StateName(Completed) == "Transfer completed"
    ensures "Transfer " + StateName(Failed) == "Transfer failed"
    ensures "Transfer " + StateName(Cancelled) == "Transfer cancelled"
    ensures "Transfer " + StateName(Pending) == "Transfer pending"
    ensures "Transfer " + StateName(Validating) == "Transfer validating"
    ensures "Transfer " + StateName(Transferring) == "Transfer transferring"
  {
  }

  // ---------------------------------------------------------------------------
  // Letting go

  /** On deletion the recorded transfer is cancelled, then the finalizer goes, if the update goes through. */
  lemma ReleasedAsTold(cfg: Config, vt: Resource, cell: Option<Cell>, a: Answers)
    requires vt.deleting
    ensures var p := Reconcile(cfg, Some(vt), cell, a);
            && !p.created
            && p.stored == Some(if vt.finalizer && a.updateOk then vt.(finalizer := false) else vt)
            && p.cell == (if vt.finalizer && vt.status.transferId.Some?
                          then CancelAlone(cfg, cell, StartCancel(a.now), a.cancelFaults).0 else cell)
  {
  }
}
