/** The reconciler as it runs against the API server and the orchestrator. */
module Controller {
  import opened Wrappers
  import opened Transfers
  import opened Handlers
  import opened Lifecycle
  import opened Orchestrator
  import Outcomes
  import Passes
  import R = Reconciler

  /** The API server's copy of one resource. */
  class ApiServer {
    var stored: Option<R.Resource>

    constructor (stored: Option<R.Resource>)
      ensures this.stored == stored
    {
      this.stored := stored;
    }

    /** Writes all but the status, which is a subresource. */
    method Update(vt: R.Resource, ok: bool)
      requires stored.Some?
      modifies this
      ensures stored == if ok then Some(vt.(status := old(stored).value.status)) else old(stored)
    {
      if ok { stored := Some(vt.(status := stored.value.status)); }
    }

    method UpdateStatus(vt: R.Resource, ok: bool)
      requires stored.Some?
      modifies this
      ensures stored == Some(if ok then old(stored).value.(status := vt.status) else old(stored).value)
    {
      if ok { stored := Some(stored.value.(status := vt.status)); }
    }
  }

  method SetReady(vt: R.Resource, status: R.Truth, reason: string, message: string, now: int) returns (r: R.Resource)
    ensures r == vt.(status := vt.status.(conditions := R.Ready(vt, status, reason, message, now)))
  {
    var before := vt.status.conditions;
    var conditions := new R.Condition[|before|](i requires 0 <= i < |before| => before[i]);
    assert conditions[..] == before;
    var after := R.SetConditionIn(conditions, R.READY, status, reason, message, now, vt.generation);
    r := vt.(status := vt.status.(conditions := after));
  }

  class VolumeTransferReconciler {
    const api: ApiServer
    const orchestrator: Orchestrator

    constructor (api: ApiServer, orchestrator: Orchestrator)
      ensures this.api == api && this.orchestrator == orchestrator
    {
      this.api, this.orchestrator := api, orchestrator;
    }

    method Release(vt: R.Resource, a: R.Answers)
      requires orchestrator.repo.Valid() && api.stored == Some(vt)
      modifies api, orchestrator.repo
      ensures orchestrator.repo.Valid()
      ensures var id := if vt.status.transferId.Some? then vt.status.transferId.value else a.newId;
              var p := R.Release(orchestrator.cfg, vt, old(orchestrator.repo.CellAt(id)), a);
              && api.stored == p.stored && orchestrator.repo.CellAt(id) == p.cell
              && forall j :: j != id ==> orchestrator.repo.CellAt(j) == old(orchestrator.repo.CellAt(j))
    {
      if vt.finalizer {
        if vt.status.transferId.Some? {
          var _ := orchestrator.CancelTransfer(vt.status.transferId.value, a.now, a.cancelFaults);
        }
        api.Update(vt.(finalizer := false), a.updateOk);
      }
    }

    method Begin(vt: R.Resource, a: R.Answers)
      requires orchestrator.repo.Valid() && api.stored == Some(vt) && orchestrator.repo.CellAt(a.newId).None?
      modifies api, orchestrator.repo
      ensures orchestrator.repo.Valid()
      ensures var p := R.Begin(orchestrator.cfg, vt, old(orchestrator.repo.CellAt(a.newId)), a);
              && api.stored == p.stored && orchestrator.repo.CellAt(a.newId) == p.cell
              && forall j :: j != a.newId ==> orchestrator.repo.CellAt(j) == old(orchestrator.repo.CellAt(j))
    {
      Outcomes.CreateOutcome(orchestrator.cfg, R.RequestOf(vt), a.now, a.lookup, a.createFaults);
      var outcome := orchestrator.CreateTransfer(a.newId, R.RequestOf(vt), a.now, a.lookup, a.createFaults);
      var vt' := vt;
      if outcome != Succeeded {
        vt' := SetReady(vt', R.False, "CreateFailed", a.errorText, a.now);
        api.UpdateStatus(vt', a.statusOk);
        return;
      }
      vt' := vt'.(status := vt'.status.(transferId := Some(a.newId), phase := Some(Transferring)));
      vt' := SetReady(vt', R.False, "InProgress", "Transfer created", a.now);
      api.UpdateStatus(vt', a.statusOk);
    }

    method Poll(vt: R.Resource, id: TransferId, a: R.Answers)
      requires orchestrator.repo.Valid() && api.stored == Some(vt) && vt.status.transferId == Some(id)
      modifies api
      ensures api.stored == R.Poll(vt, orchestrator.repo.CellAt(id), a).stored
    {
      var err, t := orchestrator.repo.GetTransferByID(id, a.getOk);
      if err { return; }
      if t.None? {
        var missing := SetReady(vt, R.False, "NotFound", "Transfer not found", a.now);
        api.UpdateStatus(missing, a.statusOk);
        return;
      }
      var state := t.value.state;
      var vt' := vt.(status := vt.status.(phase := Some(state), progress := t.value.progress));
      if IsTerminal(state) {
        var reason := "Completed";
        if state == Failed { reason := "Failed"; } else if state == Cancelled { reason := "Cancelled"; }
        var status := R.True;
        if state != Completed { status := R.False; }
        vt' := SetReady(vt', status, reason, "Transfer " + R.StateName(state), a.now);
      } else {
        vt' := SetReady(vt', R.False, "InProgress", "Transfer " + R.StateName(state), a.now);
      }
      api.UpdateStatus(vt', a.statusOk);
    }

    /** One reconciliation; `a.newId` is drawn fresh. */
    method Reconcile(a: R.Answers)
      requires orchestrator.repo.Valid() && orchestrator.repo.CellAt(a.newId).None?
      modifies api, orchestrator.repo
      ensures orchestrator.repo.Valid()
      ensures var found := old(api.stored);
              var recorded := if found.Some? then found.value.status.transferId else None;
              var id := if recorded.Some? then recorded.value else a.newId;
              var p := R.Reconcile(orchestrator.cfg, found, old(orchestrator.repo.CellAt(id)), a);
              && api.stored == p.stored && orchestrator.repo.CellAt(id) == p.cell
              && forall j :: j != id ==> orchestrator.repo.CellAt(j) == old(orchestrator.repo.CellAt(j))
      ensures var found := old(api.stored);
              found.Some? && Passes.Starts(found.value, a) ==>
                var cell := orchestrator.repo.CellAt(a.newId);
                && (cell.Some? <==> Insert !in a.createFaults)
                && (cell.Some? ==> Passes.AsSpecified(orchestrator.cfg, found.value, cell.value.row))
    {
      if api.stored.Some? && Passes.Starts(api.stored.value, a) {
        Passes.StartedAsSpecified(orchestrator.cfg, api.stored.value, a);
      }
      if api.stored.None? { return; }
      var vt := api.stored.value;
      if vt.deleting {
        Release(vt, a);
        return;
      }
      if !vt.finalizer {
        vt := vt.(finalizer := true);
        api.Update(vt, a.updateOk);
        if !a.updateOk { return; }
      }
      if vt.status.transferId.None? {
        Begin(vt, a);
      } else {
        Poll(vt, vt.status.transferId.value, a);
      }
    }
  }
}
