/** The controller of VolumeTransfer resources: finalizer, status, and the transfer behind them. */
module Reconciler {
  import opened Wrappers
  import opened Transfers
  import opened Handlers
  import opened Lifecycle
  import Outcomes

  // ---------------------------------------------------------------------------
  // Resources

  datatype Truth = True | False | Unknown

  datatype Condition = Condition(
    kind: string, status: Truth, reason: string, message: string, lastTransition: int, generation: int)

  datatype Spec = Spec(source: Endpoint, destination: Endpoint, strategy: string, allowOverwrite: bool, retryMax: int)

  /** `phase` is the transfer's state as last seen; `None` stands for the empty string. */
  datatype Status = Status(
    transferId: Option<TransferId>, phase: Option<State>, progress: Progress, conditions: seq<Condition>)

  datatype Resource = Resource(
    namespace: string, name: string, spec: Spec, generation: int, deleting: bool, finalizer: bool, status: Status)

  const READY := "Ready"

  // ---------------------------------------------------------------------------
  // Conditions

  function IndexOfKind(conditions: seq<Condition>, kind: string): (i: nat)
    ensures i <= |conditions|
    ensures i < |conditions| ==> conditions[i].kind == kind
    ensures forall j :: 0 <= j < i ==> conditions[j].kind != kind
    decreases |conditions|
  {
    if conditions == [] || conditions[0].kind == kind then 0 else 1 + IndexOfKind(conditions[1..], kind)
  }

  /** The transition time moves only when the status does. */
  function Updated(c: Condition, status: Truth, reason: string, message: string, now: int, generation: int): Condition {
    Condition(c.kind, status, reason, message, if c.status != status then now else c.lastTransition, generation)
  }

  /** The first condition of the kind is updated, or a new one appended. */
  function SetCondition(
    conditions: seq<Condition>, kind: string, status: Truth, reason: string, message: string, now: int, generation: int)
    : seq<Condition>
  {
    var i := IndexOfKind(conditions, kind);
    if i < |conditions| then conditions[i := Updated(conditions[i], status, reason, message, now, generation)]
    else conditions + [Condition(kind, status, reason, message, now, generation)]
  }

  predicate AtMostOne(conditions: seq<Condition>, kind: string) {
    forall i, j :: 0 <= i < j < |conditions| ==> conditions[i].kind != kind || conditions[j].kind != kind
  }

  predicate AllOfKind(conditions: seq<Condition>, kind: string, status: Truth) {
    forall i :: 0 <= i < |conditions| && conditions[i].kind == kind ==> conditions[i].status == status
  }

  /** There is then exactly one condition of the kind, with what was given; all others are as before. The transition
      time is kept exactly if there was one with that status already. */
  lemma ConditionSet(
    conditions: seq<Condition>, kind: string, status: Truth, reason: string, message: string, now: int, generation: int)
    requires AtMostOne(conditions, kind)
    ensures var after := SetCondition(conditions, kind, status, reason, message, now, generation);
            var i := IndexOfKind(conditions, kind);
            && AtMostOne(after, kind) && AllOfKind(after, kind, status)
            && IndexOfKind(after, kind) == i < |after|
            && |after| == (if i < |conditions| then |conditions| else |conditions| + 1)
            && after[i].kind == kind && after[i].status == status && after[i].reason == reason
            && after[i].message == message && after[i].generation == generation
            && after[i].lastTransition ==
               (if i < |conditions| && conditions[i].status == status then conditions[i].lastTransition else now)
            && (forall k :: 0 <= k < |conditions| && conditions[k].kind != kind ==> after[k] == conditions[k])
  {
    var after := SetCondition(conditions, kind, status, reason, message, now, generation);
    var i := IndexOfKind(conditions, kind);
    assert after[i].kind == kind && forall k :: 0 <= k < i ==> after[k].kind != kind;
  }

  /** In place: the loop stops at the first condition of the kind. */
  method SetConditionIn(
    conditions: array<Condition>, kind: string, status: Truth, reason: string, message: string, now: int,
    generation: int) returns (after: seq<Condition>)
    modifies conditions
    ensures after == SetCondition(old(conditions[..]), kind, status, reason, message, now, generation)
    ensures after[..conditions.Length] == conditions[..] && |after| <= conditions.Length + 1
  {
    ghost var before := conditions[..];
    for i := 0 to conditions.Length
      invariant conditions[..] == before
      invariant forall j :: 0 <= j < i ==> before[j].kind != kind
    {
      if conditions[i].kind == kind {
        if conditions[i].status != status { conditions[i] := conditions[i].(lastTransition := now); }
        conditions[i] :=
          conditions[i].(status := status, reason := reason, message := message, generation := generation);
        return conditions[..];
      }
    }
    after := conditions[..] + [Condition(kind, status, reason, message, now, generation)];
  }

  // ---------------------------------------------------------------------------
  // One reconciliation

  /** What the outside world answers during one reconciliation. */
  datatype Answers = Answers(
    newId: TransferId, now: int, lookup: Lookup, createFaults: set<CreatePc>, cancelFaults: set<CancelPc>,
    errorText: string, getOk: bool, updateOk: bool, statusOk: bool)

  function RequestOf(vt: Resource): Request {
    Request(
      vt.spec.source, vt.spec.destination, if vt.spec.strategy != "" then Some(vt.spec.strategy) else None,
      vt.spec.allowOverwrite, if vt.spec.retryMax > 0 then Some(vt.spec.retryMax) else None,
      "crd/" + vt.namespace + "/" + vt.name)
  }

  function CreateOp(vt: Resource, a: Answers): Op {
    Create(a.newId, RequestOf(vt), a.now, a.lookup, a.createFaults)
  }

  predicate CreateSucceeds(cfg: Config, vt: Resource, a: Answers) {
    CreateAlone(cfg, None, StartCreate(RequestOf(vt), a.now, a.lookup), a.createFaults).1.outcome == Succeeded
  }

  function Ready(vt: Resource, status: Truth, reason: string, message: string, now: int): seq<Condition> {
    SetCondition(vt.status.conditions, READY, status, reason, message, now, vt.generation)
  }

  function StateName(s: State): string {
    match s
    case Pending => "pending" case Validating => "validating" case Transferring => "transferring"
    case Completed => "completed" case Failed => "failed" case Cancelled => "cancelled"
  }

  function Reason(s: State): string {
    match s
    case Completed => "Completed" case Failed => "Failed" case Cancelled => "Cancelled" case _ => "InProgress"
  }

  function CreateFailedStatus(vt: Resource, a: Answers): Status {
    vt.status.(conditions := Ready(vt, False, "CreateFailed", a.errorText, a.now))
  }

  function CreatedStatus(vt: Resource, a: Answers): Status {
    vt.status.(transferId := Some(a.newId), phase := Some(Transferring),
               conditions := Ready(vt, False, "InProgress", "Transfer created", a.now))
  }

  function MissingStatus(vt: Resource, a: Answers): Status {
    vt.status.(conditions := Ready(vt, False, "NotFound", "Transfer not found", a.now))
  }

  function PolledStatus(vt: Resource, row: Row, a: Answers): Status {
    vt.status.(
      phase := Some(row.state), progress := row.progress,
      conditions := Ready(vt, if row.state == Completed then True else False, Reason(row.state),
                          "Transfer " + StateName(row.state), a.now))
  }

  /** The outcome for the resource and for its transfer; `created` if a transfer was started, `lost` if its identifier
      could not be recorded. */
  datatype Pass = Pass(stored: Option<Resource>, cell: Option<Cell>, created: bool, lost: bool)

  function Written(vt: Resource, status: Status, ok: bool): Option<Resource> {
    Some(if ok then vt.(status := status) else vt)
  }

  /** `cell` is the recorded transfer or, if none is recorded, what is stored under the new identifier. */
  function Release(cfg: Config, vt: Resource, cell: Option<Cell>, a: Answers): Pass {
    if !vt.finalizer then Pass(Some(vt), cell, false, false)
    else
      var id := vt.status.transferId;
      Pass(Some(if a.updateOk then vt.(finalizer := false) else vt),
           if id.Some? then StepCell(cfg, cell, Cancel(id.value, a.now, a.cancelFaults)) else cell,
           false, false)
  }

  function Begin(cfg: Config, vt: Resource, cell: Option<Cell>, a: Answers): Pass {
    var cell' := StepCell(cfg, cell, CreateOp(vt, a));
    if CreateSucceeds(cfg, vt, a) then
      Pass(Written(vt, CreatedStatus(vt, a), a.statusOk), cell', true, !a.statusOk)
    else
      Pass(Written(vt, CreateFailedStatus(vt, a), a.statusOk), cell', false, false)
  }

  function Poll(vt: Resource, cell: Option<Cell>, a: Answers): Pass {
    if !a.getOk then Pass(Some(vt), cell, false, false)
    else
      var status := if cell.None? then MissingStatus(vt, a) else PolledStatus(vt, cell.value.row, a);
      Pass(Written(vt, status, a.statusOk), cell, false, false)
  }

  function Reconcile(cfg: Config, stored: Option<Resource>, cell: Option<Cell>, a: Answers): Pass {
    if stored.None? then Pass(stored, cell, false, false)
    else if stored.value.deleting then Release(cfg, stored.value, cell, a)
    else if !stored.value.finalizer && !a.updateOk then Pass(stored, cell, false, false)
    else
      var vt := stored.value.(finalizer := true);
      if vt.status.transferId.None? then Begin(cfg, vt, cell, a) else Poll(vt, cell, a)
  }

  // ---------------------------------------------------------------------------
  // Runs

  /** The resource in the API server, the transfers, the transfers started for the resource, the number of them whose
      identifier was lost, and the identifier that was recorded. */
  datatype System = System(
    stored: Option<Resource>, world: World, created: seq<TransferId>, lost: nat, recorded: Option<TransferId>)

  /** Besides the controller: the user edits or deletes the resource, the API server drops a deleted resource that
      nothing holds, and other operations run on any transfers. */
  datatype Happening =
    | Reconciled(answers: Answers) | Edited(spec: Spec) | Deleted | Dropped | Elsewhere(op: Op)

  function Target(s: System, a: Answers): TransferId {
    if s.stored.Some? && s.stored.value.status.transferId.Some? then s.stored.value.status.transferId.value else a.newId
  }

  /** A new transfer gets an identifier not used before. */
  predicate Fresh(s: System, a: Answers) {
    s.stored.Some? && s.stored.value.status.transferId.None? ==> a.newId !in s.world
  }

  function AfterPass(s: System, id: TransferId, p: Pass): System {
    System(p.stored, WithCell(s.world, id, p.cell), if p.created then s.created + [id] else s.created,
           if p.lost then s.lost + 1 else s.lost,
           if p.created && !p.lost then Some(id) else s.recorded)
  }

  function Next(cfg: Config, s: System, e: Happening): System {
    match e
    case Reconciled(a) =>
      if !Fresh(s, a) then s
      else AfterPass(s, Target(s, a), Reconcile(cfg, s.stored, CellOf(s.world, Target(s, a)), a))
    case Edited(spec) =>
      if s.stored.None? then s
      else s.(stored := Some(s.stored.value.(spec := spec, generation := s.stored.value.generation + 1)))
    case Deleted => if s.stored.None? then s else s.(stored := Some(s.stored.value.(deleting := true)))
    case Dropped =>
      if s.stored.Some? && s.stored.value.deleting && !s.stored.value.finalizer then s.(stored := None) else s
    case Elsewhere(op) => s.(world := Step(cfg, s.world, op))
  }

  function Run(cfg: Config, s: System, es: seq<Happening>): System
    decreases |es|
  {
    if es == [] then s else Run(cfg, Next(cfg, s, es[0]), es[1..])
  }

  // ---------------------------------------------------------------------------
  // Invariant

  /** At most one Ready condition, and it is true only in phase completed. */
  predicate StatusOk(status: Status) {
    && AtMostOne(status.conditions, READY)
    && (status.phase != Some(Completed) ==>
          forall i :: 0 <= i < |status.conditions| && status.conditions[i].kind == READY ==>
            status.conditions[i].status != True)
  }

  /** A terminal phase is the state of the recorded transfer, for good. */
  predicate PhaseOk(status: Status, w: World) {
    status.phase.Some? && IsTerminal(status.phase.value) ==>
      && status.transferId.Some? && status.transferId.value in w
      && w[status.transferId.value].row.state == status.phase.value
  }

  predicate ResourceOk(vt: Resource, recorded: Option<TransferId>, w: World) {
    && vt.status.transferId == recorded
    && (recorded.Some? ==> vt.finalizer || vt.deleting)
    && StatusOk(vt.status) && PhaseOk(vt.status, w)
  }

  predicate Distinct(ids: seq<TransferId>) {
    forall i, j :: 0 <= i < j < |ids| ==> ids[i] != ids[j]
  }

  ghost predicate Inv(s: System) {
    && AllLife(s.world)
    && Distinct(s.created) && (forall i :: 0 <= i < |s.created| ==> s.created[i] in s.world)
    && |s.created| == s.lost + (if s.recorded.Some? then 1 else 0)
    && (s.recorded.Some? ==> s.recorded.value in s.created)
    && (s.stored.Some? ==> ResourceOk(s.stored.value, s.recorded, s.world))
  }

  /** Transfers stay, and terminal ones keep their state. */
  ghost predicate Grows(w: World, w': World) {
    forall id {:trigger id in w'} :: id in w ==>
      id in w' && (IsTerminal(w[id].row.state) ==> w'[id].row.state == w[id].row.state)
  }

  lemma StepGrows(cfg: Config, w: World, op: Op)
    requires AllLife(w)
    ensures AllLife(Step(cfg, w, op)) && Grows(w, Step(cfg, w, op))
  {
    StepCellLife(cfg, CellOf(w, op.id), op);
  }

  lemma GrowsResource(vt: Resource, recorded: Option<TransferId>, w: World, w': World)
    requires ResourceOk(vt, recorded, w) && Grows(w, w')
    ensures ResourceOk(vt, recorded, w')
  {
  }

  lemma SuccessStores(cfg: Config, vt: Resource, a: Answers)
    requires CreateSucceeds(cfg, vt, a)
    ensures CreateAlone(cfg, None, StartCreate(RequestOf(vt), a.now, a.lookup), a.createFaults).0.Some?
  {
    Outcomes.CreateStores(cfg, RequestOf(vt), a.now, a.lookup, a.createFaults);
  }

  lemma ReadyStatus(vt: Resource, status: Truth, reason: string, message: string, now: int, phase: Option<State>)
    requires AtMostOne(vt.status.conditions, READY) && (status == True ==> phase == Some(Completed))
    ensures StatusOk(vt.status.(phase := phase, conditions := Ready(vt, status, reason, message, now)))
  {
    ConditionSet(vt.status.conditions, READY, status, reason, message, now, vt.generation);
  }

  /** The statuses the controller writes. */
  lemma StatusesOk(vt: Resource, a: Answers)
    requires StatusOk(vt.status)
    ensures StatusOk(CreateFailedStatus(vt, a)) && StatusOk(CreatedStatus(vt, a)) && StatusOk(MissingStatus(vt, a))
  {
    ReadyStatus(vt, False, "CreateFailed", a.errorText, a.now, vt.status.phase);
    ReadyStatus(vt, False, "InProgress", "Transfer created", a.now, Some(Transferring));
    ReadyStatus(vt, False, "NotFound", "Transfer not found", a.now, vt.status.phase);
  }

  lemma PolledStatusOk(vt: Resource, row: Row, a: Answers)
    requires StatusOk(vt.status)
    ensures StatusOk(PolledStatus(vt, row, a))
  {
    ReadyStatus(vt, if row.state == Completed then True else False, Reason(row.state),
                "Transfer " + StateName(row.state), a.now, Some(row.state));
  }

  lemma SameWorld(w: World, id: TransferId)
    ensures WithCell(w, id, CellOf(w, id)) == w
  {
  }

  lemma ReleaseKeeps(cfg: Config, s: System, a: Answers)
    requires Inv(s) && s.stored.Some? && s.stored.value.deleting
    ensures var s' := Next(cfg, s, Reconciled(a));
            && Inv(s') && Grows(s.world, s'.world)
            && s'.created == s.created && s'.lost == s.lost && s'.recorded == s.recorded
  {
    var id := Target(s, a);
    var vt := s.stored.value;
    if vt.finalizer && vt.status.transferId.Some? {
      StepGrows(cfg, s.world, Cancel(id, a.now, a.cancelFaults));
      GrowsResource(vt, s.recorded, s.world, Step(cfg, s.world, Cancel(id, a.now, a.cancelFaults)));
    } else {
      SameWorld(s.world, id);
    }
  }

  lemma PollKeeps(cfg: Config, s: System, a: Answers)
    requires Inv(s) && s.stored.Some? && !s.stored.value.deleting && s.stored.value.status.transferId.Some?
    ensures var s' := Next(cfg, s, Reconciled(a));
            Inv(s') && s'.world == s.world && s'.created == s.created && s'.lost == s.lost && s'.recorded == s.recorded
  {
    var id := Target(s, a);
    var vt := s.stored.value.(finalizer := true);
    SameWorld(s.world, id);
    StatusesOk(vt, a);
    PolledStatusOk(vt, s.world[id].row, a);
  }

  lemma AppendDistinct(ids: seq<TransferId>, id: TransferId)
    requires Distinct(ids) && id !in ids
    ensures Distinct(ids + [id])
  {
  }

  lemma StartedKeeps(cfg: Config, s: System, vt: Resource, a: Answers)
    requires Inv(s) && s.recorded.None? && a.newId !in s.world && ResourceOk(vt, None, s.world) && vt.finalizer
    requires CreateSucceeds(cfg, vt, a)
    ensures Inv(AfterPass(s, a.newId, Begin(cfg, vt, None, a)))
  {
    StepGrows(cfg, s.world, CreateOp(vt, a));
    StatusesOk(vt, a);
    GrowsResource(vt, s.recorded, s.world, Step(cfg, s.world, CreateOp(vt, a)));
    SuccessStores(cfg, vt, a);
    assert a.newId !in s.created;
    AppendDistinct(s.created, a.newId);
    assert (s.created + [a.newId])[|s.created|] == a.newId;
  }

  lemma NotStartedKeeps(cfg: Config, s: System, vt: Resource, a: Answers)
    requires Inv(s) && s.recorded.None? && a.newId !in s.world && ResourceOk(vt, None, s.world) && vt.finalizer
    requires !CreateSucceeds(cfg, vt, a)
    ensures Inv(AfterPass(s, a.newId, Begin(cfg, vt, None, a)))
  {
    StepGrows(cfg, s.world, CreateOp(vt, a));
    StatusesOk(vt, a);
    GrowsResource(vt, s.recorded, s.world, Step(cfg, s.world, CreateOp(vt, a)));
  }

  lemma BeginKeeps(cfg: Config, s: System, a: Answers)
    requires Inv(s) && s.stored.Some? && !s.stored.value.deleting && s.stored.value.status.transferId.None?
    requires Fresh(s, a) && (s.stored.value.finalizer || a.updateOk)
    ensures var s' := Next(cfg, s, Reconciled(a)); Inv(s') && Grows(s.world, s'.world)
  {
    var vt := s.stored.value.(finalizer := true);
    StepGrows(cfg, s.world, CreateOp(vt, a));
    if CreateSucceeds(cfg, vt, a) { StartedKeeps(cfg, s, vt, a); } else { NotStartedKeeps(cfg, s, vt, a); }
  }

  lemma NextKeeps(cfg: Config, s: System, e: Happening)
    requires Inv(s)
    ensures var s' := Next(cfg, s, e);
            Inv(s') && Grows(s.world, s'.world) && (s.recorded.Some? ==> s'.recorded == s.recorded)
  {
    match e
    case Reconciled(a) =>
      if s.stored.Some? && Fresh(s, a) {
        var vt := s.stored.value;
        if vt.deleting { ReleaseKeeps(cfg, s, a); }
        else if vt.status.transferId.Some? { PollKeeps(cfg, s, a); }
        else if vt.finalizer || a.updateOk { BeginKeeps(cfg, s, a); }
        else { SameWorld(s.world, a.newId); }
      } else {
        SameWorld(s.world, a.newId);
      }
    case Elsewhere(op) =>
      StepGrows(cfg, s.world, op);
      if s.stored.Some? { GrowsResource(s.stored.value, s.recorded, s.world, Step(cfg, s.world, op)); }
    case _ =>
  }

  /**
   Over every run of the controller, with any failures: a recorded transfer identifier never changes, the transfers
   started are as many as the status writes lost after a start plus the one recorded, there is at most one Ready
   condition, and it is true only if the phase, and the recorded transfer itself, is completed.
   */
  lemma {:induction false} ReconcilerHolds(cfg: Config, s: System, es: seq<Happening>)
    requires Inv(s)
    ensures var s' := Run(cfg, s, es);
            Inv(s') && Grows(s.world, s'.world) && (s.recorded.Some? ==> s'.recorded == s.recorded)
    decreases |es|
  {
    if es != [] {
      NextKeeps(cfg, s, es[0]);
      ReconcilerHolds(cfg, Next(cfg, s, es[0]), es[1..]);
    }
  }

  /** A fresh resource, over any transfers. */
  function Applied(vt: Resource, w: World): System {
    System(Some(vt.(status := Status(None, None, Progress(0, 0, 0, 0), []))), w, [], 0, None)
  }

  /** The invariant in the terms of a reader of the resource. */
  lemma WhatTheResourceSays(cfg: Config, vt: Resource, w: World, es: seq<Happening>)
    requires AllLife(w)
    ensures var s := Run(cfg, Applied(vt, w), es);
            && |s.created| <= 1 + s.lost
            && (s.stored.Some? ==>
                  var status := s.stored.value.status;
                  && AtMostOne(status.conditions, READY)
                  && forall i :: 0 <= i < |status.conditions| && status.conditions[i].kind == READY &&
                                 status.conditions[i].status == True ==>
                       && status.phase == Some(Completed)
                       && status.transferId.Some? && status.transferId.value in s.world
                       && s.world[status.transferId.value].row.state == Completed)
  {
    ReconcilerHolds(cfg, Applied(vt, w), es);
  }

  /** A transfer is started for a resource only while its finalizer is stored and it is not being deleted. */
  lemma StartNeedsFinalizer(cfg: Config, stored: Option<Resource>, cell: Option<Cell>, a: Answers)
    ensures var p := Reconcile(cfg, stored, cell, a);
            p.created || (cell.None? && p.cell.Some?) ==>
              && p.stored.Some? && p.stored.value.finalizer && !p.stored.value.deleting
              && stored.Some? && (stored.value.finalizer || a.updateOk) && stored.value.status.transferId.None?
  {
    if stored.Some? && stored.value.deleting && cell.None? {
      var op := Cancel(0, a.now, a.cancelFaults);
      var (c1, h1) := CancelStep(cfg, None, StartCancel(a.now), LoadForCancel !in a.cancelFaults);
      assert CancelAlone(cfg, c1, h1, a.cancelFaults) == (None, h1);
    }
  }

  // ---------------------------------------------------------------------------
  // Release

  /** Reading and writing the state of the transfer to cancel both work. */
  predicate CancelWorks(faults: set<CancelPc>) {
    LoadForCancel !in faults && PersistCancelled !in faults
  }

  /** Once cancelled, whatever else fails. */
  lemma {:induction false} CancelledStays(cfg: Config, c: Cell, h: CancelHandler, faults: set<CancelPc>)
    requires c.row.state == Cancelled && h.pc != LoadForCancel && h.pc != PersistCancelled
    ensures var r := CancelAlone(cfg, Some(c), h, faults).0; r.Some? && r.value.row.state == Cancelled
    decreases CancelRank(h.pc)
  {
    if h.pc != CancelDone {
      var (c', h') := CancelOn(cfg, c, h, h.pc !in faults);
      CancelledStays(cfg, c', h', faults);
    }
  }

  /** A cancellation leaves the transfer terminal exactly if it was, or if its state could be read and written. */
  lemma CancelExactly(cfg: Config, c: Cell, id: TransferId, now: int, faults: set<CancelPc>)
    ensures var r := StepCell(cfg, Some(c), Cancel(id, now, faults));
            r.Some? && (IsTerminal(r.value.row.state) <==> IsTerminal(c.row.state) || CancelWorks(faults))
  {
    if IsTerminal(c.row.state) {
      CancelRejectsTerminal(cfg, c, now, faults);
    } else {
      var h0 := StartCancel(now);
      var (c1, h1) := CancelOn(cfg, c, h0, LoadForCancel !in faults);
      var (c2, h2) := CancelOn(cfg, c1, h1, h1.pc !in faults);
      assert CancelAlone(cfg, Some(c), h0, faults) == CancelAlone(cfg, Some(c1), h1, faults);
      if CancelWorks(faults) {
        assert CancelAlone(cfg, Some(c1), h1, faults) == CancelAlone(cfg, Some(c2), h2, faults);
        CancelledStays(cfg, c2, h2, faults);
      } else if LoadForCancel in faults {
        assert CancelAlone(cfg, Some(c1), h1, faults) == (Some(c1), h1);
      } else {
        assert CancelAlone(cfg, Some(c2), h2, faults) == (Some(c2), h2);
      }
    }
  }

  /** The finalizer of the resource is gone. */
  predicate Released(s: System) {
    s.stored.None? || (s.stored.value.deleting && !s.stored.value.finalizer)
  }

  ghost predicate Settled(s: System) {
    Released(s) && s.recorded.Some? ==> s.recorded.value in s.world && IsTerminal(s.world[s.recorded.value].row.state)
  }

  predicate SoundCancel(e: Happening) {
    e.Reconciled? ==> CancelWorks(e.answers.cancelFaults)
  }

  lemma OnlyPassReleases(cfg: Config, s: System, e: Happening)
    requires Released(Next(cfg, s, e)) && !Released(s) && Inv(s) && s.recorded.Some?
    ensures e.Reconciled? && s.stored.Some? && s.stored.value.deleting && s.stored.value.finalizer
  {
  }

  /** The pass that releases the finalizer has cancelled the recorded transfer. */
  lemma PassSettles(cfg: Config, s: System, a: Answers)
    requires Inv(s) && s.recorded.Some? && CancelWorks(a.cancelFaults)
    requires s.stored.Some? && s.stored.value.deleting && s.stored.value.finalizer
    ensures Settled(Next(cfg, s, Reconciled(a)))
  {
    var id := s.recorded.value;
    assert id in s.world && Target(s, a) == id;
    CancelExactly(cfg, s.world[id], id, a.now, a.cancelFaults);
  }

  lemma NextSettles(cfg: Config, s: System, e: Happening)
    requires Inv(s) && Settled(s) && SoundCancel(e)
    ensures Settled(Next(cfg, s, e))
  {
    NextKeeps(cfg, s, e);
    if s.recorded.None? {
      FirstRecordKeepsFinalizer(cfg, s, e);
    } else if Released(Next(cfg, s, e)) && !Released(s) {
      OnlyPassReleases(cfg, s, e);
      PassSettles(cfg, s, e.answers);
    }
  }

  /** The event that records the first transfer does not release the resource. */
  lemma FirstRecordKeepsFinalizer(cfg: Config, s: System, e: Happening)
    requires Inv(s) && s.recorded.None?
    ensures Next(cfg, s, e).recorded.Some? ==> !Released(Next(cfg, s, e))
  {
  }

  /** If the store does not fail a cancellation, the recorded transfer is terminal once the finalizer is released. */
  lemma {:induction false} ReleasedIsTerminal(cfg: Config, s: System, es: seq<Happening>)
    requires Inv(s) && Settled(s) && forall i :: 0 <= i < |es| ==> SoundCancel(es[i])
    ensures Settled(Run(cfg, s, es))
    decreases |es|
  {
    if es != [] {
      NextSettles(cfg, s, es[0]);
      NextKeeps(cfg, s, es[0]);
      ReleasedIsTerminal(cfg, Next(cfg, s, es[0]), es[1..]);
    }
  }
}
