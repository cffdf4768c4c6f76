/** Progress streams: the orchestrator's calls applied to the hub, and who may be subscribed to it. */
module Streams {
  import opened Wrappers
  import opened Transfers
  import opened Handlers
  import opened Lifecycle
  import opened FaultFree
  import opened Faults
  import opened Replay
  import HubSpec

  // ---------------------------------------------------------------------------
  // Orchestrator, hub and clients

  type Hub = HubSpec.Hub<nat, Report>

  /** The transfers, the hub, and the requests that have passed the lookup but have not subscribed yet. */
  datatype System = System(world: World, hub: Hub, waiting: map<nat, TransferId>)

  /** An operation of the orchestrator, or a client that is looked up, subscribed, leaves or takes an event. */
  datatype Happening =
    | Operate(op: Op)
    | LookUp(client: nat, id: TransferId)
    | Join(client: nat)
    | Disconnect(client: nat)
    | Take(client: nat)

  function Start(w: World): System {
    System(w, HubSpec.Hub(map[], map[], false), map[])
  }

  function EffectsOf(c: Option<Cell>): seq<Effect> {
    if c.Some? then c.value.effects else []
  }

  /** The calls an operation made on behalf of its transfer. */
  function NewEffects(before: Option<Cell>, after: Option<Cell>): seq<Effect> {
    var done, all := EffectsOf(before), EffectsOf(after);
    if |done| <= |all| then all[|done|..] else []
  }

  function ApplyEffects(h: Hub, id: TransferId, effects: seq<Effect>): Hub
    decreases |effects|
  {
    if effects == [] then h
    else
      var h' := match effects[0]
        case Publish(report) => HubSpec.DoPublish(h, id, report)
        case CloseStream => HubSpec.DoClose(h, id)
        case _ => h;
      ApplyEffects(h', id, effects[1..])
  }

  predicate Live(w: World, id: TransferId) {
    id in w && !IsTerminal(w[id].row.state)
  }

  /** The lookup lets a client on only if its transfer is there and not over; the subscription does not look again. */
  function Next(cfg: Config, s: System, happening: Happening): System {
    match happening
    case Operate(op) =>
      var w := Step(cfg, s.world, op);
      s.(world := w, hub := ApplyEffects(s.hub, op.id, NewEffects(CellOf(s.world, op.id), CellOf(w, op.id))))
    case LookUp(client, id) =>
      if cfg.hasHub && Live(s.world, id) && client !in s.hub.subs && client !in s.waiting
      then s.(waiting := s.waiting[client := id]) else s
    case Join(client) =>
      if client in s.waiting
      then s.(hub := HubSpec.DoSubscribe(s.hub, client, s.waiting[client]), waiting := s.waiting - {client}) else s
    case Disconnect(client) =>
      if client in s.hub.subs then s.(hub := HubSpec.DoUnsubscribe(s.hub, client)) else s
    case Take(client) =>
      if client in s.hub.subs then s.(hub := HubSpec.DoReceive(s.hub, client)) else s
  }

  function Run(cfg: Config, s: System, happenings: seq<Happening>): System
    decreases |happenings|
  {
    if happenings == [] then s
    else Next(cfg, Run(cfg, s, happenings[..|happenings| - 1]), happenings[|happenings| - 1])
  }

  /** The lookup lets on exactly the clients that ask for a transfer that is there and not over. */
  lemma LookUpAdmits(cfg: Config, s: System, client: nat, id: TransferId)
    requires client !in s.waiting && client !in s.hub.subs
    ensures var s' := Next(cfg, s, LookUp(client, id));
            && s'.hub == s.hub && s'.world == s.world
            && (client in s'.waiting <==>
                  && cfg.hasHub && id in s.world && s.world[id].row.state != Completed
                  && s.world[id].row.state != Failed && s.world[id].row.state != Cancelled)
            && (client in s'.waiting ==> s'.waiting == s.waiting[client := id])
  {
  }

  ghost predicate NoFaults(happenings: seq<Happening>) {
    forall i :: 0 <= i < |happenings| && happenings[i].Operate? ==> NoRepositoryFault(happenings[i].op)
  }

  // ---------------------------------------------------------------------------
  // The hub under the orchestrator's calls

  lemma {:induction false} ApplyKeeps(h: Hub, id: TransferId, effects: seq<Effect>)
    requires HubSpec.Inv(h)
    ensures var h' := ApplyEffects(h, id, effects);
            && HubSpec.Inv(h') && h'.registered.Keys <= h.registered.Keys
            && (CloseStream in effects ==> id !in h'.registered)
    decreases |effects|
  {
    if effects != [] {
      match effects[0]
      case Publish(report) =>
        HubSpec.PublishKeeps(h, id, report);
        ApplyKeeps(HubSpec.DoPublish(h, id, report), id, effects[1..]);
      case CloseStream =>
        HubSpec.CloseKeeps(h, id);
        ApplyKeeps(HubSpec.DoClose(h, id), id, effects[1..]);
      case _ =>
        ApplyKeeps(h, id, effects[1..]);
    }
  }

  lemma EndingCloses(cfg: Config, c: Cell, op: Op)
    requires cfg.hasHub && NoRepositoryFault(op) && !IsTerminal(c.row.state)
    ensures var r := StepCell(cfg, Some(c), op);
            r.Some? && (IsTerminal(r.value.row.state) ==> CloseStream in NewEffects(Some(c), r))
  {
    StepClosedForm(cfg, Some(c), op);
    var n := |c.effects|;
    match op
    case Create(_, _, _, _, _) =>
    case Cancel(_, now, _) =>
      assert AfterCancel(c, cfg, now).effects[n] == CloseStream;
      assert AfterCancel(c, cfg, now).effects[n..][0] == CloseStream;
    case Report(_, report, now, _) =>
      var r := AfterReport(c, cfg, report, now);
      if IsTerminal(r.row.state) {
        assert Noted(c, cfg, report).effects == c.effects + [Publish(report)];
        assert r.effects[n + 1] == CloseStream;
        assert r.effects[n..][1] == CloseStream;
      }
  }

  /** Calls for one transfer close no stream of another, and without a closing call none at all. */
  lemma {:induction false} ApplySpares(h: Hub, id: TransferId, effects: seq<Effect>, client: nat)
    requires HubSpec.Inv(h) && client in h.subs && (h.subs[client].topic != id || CloseStream !in effects)
    ensures var h' := ApplyEffects(h, id, effects);
            && client in h'.subs && h'.subs[client].topic == h.subs[client].topic
            && h'.subs[client].closed == h.subs[client].closed
    decreases |effects|
  {
    if effects != [] {
      assert id in h.registered ==> HubSpec.TopicOk(h, id);
      match effects[0]
      case Publish(report) =>
        HubSpec.PublishKeeps(h, id, report);
        ApplySpares(HubSpec.DoPublish(h, id, report), id, effects[1..], client);
      case CloseStream =>
        HubSpec.CloseKeeps(h, id);
        ApplySpares(HubSpec.DoClose(h, id), id, effects[1..], client);
      case _ =>
        ApplySpares(h, id, effects[1..], client);
    }
  }

  lemma {:induction false} ApplyKeepsSubs(h: Hub, id: TransferId, effects: seq<Effect>)
    ensures ApplyEffects(h, id, effects).subs.Keys == h.subs.Keys
    ensures forall c :: c in h.subs ==> ApplyEffects(h, id, effects).subs[c].topic == h.subs[c].topic
    decreases |effects|
  {
    if effects != [] {
      var h' := match effects[0]
        case Publish(report) => HubSpec.DoPublish(h, id, report)
        case CloseStream => HubSpec.DoClose(h, id)
        case _ => h;
      ApplyKeepsSubs(h', id, effects[1..]);
    }
  }

  /** An operation on a transfer that is over closes nothing. */
  lemma OverClosesNothing(cfg: Config, c: Cell, op: Op)
    requires NoRepositoryFault(op) && IsTerminal(c.row.state)
    ensures var r := StepCell(cfg, Some(c), op);
            r.Some? && r.value.row.state == c.row.state && CloseStream !in NewEffects(Some(c), r)
  {
    StepClosedForm(cfg, Some(c), op);
    if op.Report? {
      var r := AfterReport(c, cfg, op.report, op.now);
      assert r.effects == c.effects + Publishing(cfg, op.report);
      assert r.effects[|c.effects|..] == Publishing(cfg, op.report);
    }
  }

  // ---------------------------------------------------------------------------
  // Who gets a report

  predicate PublishesNothing(effects: seq<Effect>) {
    forall i :: 0 <= i < |effects| ==> !effects[i].Publish?
  }

  /** Closing leaves what is buffered. */
  lemma {:induction false} ApplyKeepsBuffers(h: Hub, id: TransferId, effects: seq<Effect>, client: nat)
    requires client in h.subs && PublishesNothing(effects)
    ensures var h' := ApplyEffects(h, id, effects);
            client in h'.subs && h'.subs[client].buffer == h.subs[client].buffer
    decreases |effects|
  {
    if effects != [] {
      var h' := if effects[0] == CloseStream then HubSpec.DoClose(h, id) else h;
      ApplyKeepsBuffers(h', id, effects[1..], client);
    }
  }

  /** A report is published first, before anything is closed, unless it could not be stored. */
  lemma ReportPublishes(cfg: Config, c: Cell, report: Report, now: int, faults: set<ReportPc>)
    returns (rest: seq<Effect>)
    requires cfg.hasHub && faults !! {LoadForReport, PersistProgress}
    ensures ReportLeaves(cfg, c, report, now, faults).effects == c.effects + [Publish(report)] + rest
    ensures PublishesNothing(rest)
  {
    var n := Booked(cfg, c, report, faults);
    var all := ReportLeaves(cfg, c, report, now, faults).effects;
    rest := if all == n.effects then [] else Closing(cfg) + CleanupEffects(n.row);
    assert n.effects == c.effects + [Publish(report)];
    assert n.effects + Closing(cfg) + CleanupEffects(n.row) == n.effects + (Closing(cfg) + CleanupEffects(n.row));
  }

  /** A stored report reaches every subscriber of its transfer with room for it, and no other, whatever else fails. */
  lemma ReportReaches(
    cfg: Config, s: System, id: TransferId, report: Report, now: int, faults: set<ReportPc>, client: nat)
    requires cfg.hasHub && faults !! {LoadForReport, PersistProgress} && id in s.world && client in s.hub.subs
    ensures var h, h' := s.hub, Next(cfg, s, Operate(Op.Report(id, report, now, faults))).hub;
            && client in h'.subs
            && h'.subs[client].buffer ==
               if HubSpec.Registered(h, id, client) && |h.subs[client].buffer| < 16
               then h.subs[client].buffer + [report] else h.subs[client].buffer
  {
    var c, op := s.world[id], Op.Report(id, report, now, faults);
    StepLeaves(cfg, Some(c), op);
    var rest := ReportPublishes(cfg, c, report, now, faults);
    var made := [Publish(report)] + rest;
    assert NewEffects(Some(c), Leaves(cfg, Some(c), op)) == made by {
      assert c.effects + [Publish(report)] + rest == c.effects + made;
    }
    assert made[1..] == rest;
    ApplyKeepsBuffers(HubSpec.DoPublish(s.hub, id, report), id, rest, client);
  }

  // ---------------------------------------------------------------------------
  // Who lingers

  /** What holds of every reachable system. */
  ghost predicate Ok(s: System) {
    && HubSpec.Inv(s.hub)
    && (forall c :: c in s.waiting ==> s.waiting[c] in s.world && c !in s.hub.subs)
    && (forall c :: c in s.hub.subs ==> s.hub.subs[c].topic in s.world)
  }

  lemma NextOk(cfg: Config, s: System, happening: Happening)
    requires Ok(s)
    ensures Ok(Next(cfg, s, happening))
  {
    match happening
    case Operate(op) => OperateOk(cfg, s, op);
    case LookUp(_, _) =>
    case Join(client) => if client in s.waiting { HubSpec.SubscribeKeeps(s.hub, client, s.waiting[client]); }
    case Disconnect(client) => if client in s.hub.subs { HubSpec.UnsubscribeKeeps(s.hub, client); }
    case Take(client) => if client in s.hub.subs { HubSpec.ReceiveKeeps(s.hub, client); }
  }

  lemma OperateOk(cfg: Config, s: System, op: Op)
    requires Ok(s)
    ensures Ok(Next(cfg, s, Operate(op)))
  {
    var w := Step(cfg, s.world, op);
    var effects := NewEffects(CellOf(s.world, op.id), CellOf(w, op.id));
    ApplyKeeps(s.hub, op.id, effects);
    ApplyKeepsSubs(s.hub, op.id, effects);
    assert forall id :: id in s.world ==> id in w;
  }

  predicate LateStep(s: System, happening: Happening, client: nat, late: bool) {
    match happening
    case Join(c) => if c == client && client in s.waiting then !Live(s.world, s.waiting[client]) else late
    case Disconnect(c) => c != client && late
    case _ => late
  }

  /** The client subscribed when its transfer was over already, and has not left since. */
  ghost predicate Late(cfg: Config, s: System, happenings: seq<Happening>, client: nat)
    decreases |happenings|
  {
    happenings != [] &&
    var before := happenings[..|happenings| - 1];
    LateStep(Run(cfg, s, before), happenings[|happenings| - 1], client, Late(cfg, s, before, client))
  }

  /** The client is subscribed to a transfer that is over. */
  predicate Lingers(s: System, client: nat) {
    client in s.hub.subs && !Live(s.world, s.hub.subs[client].topic) && !s.hub.subs[client].closed
  }

  lemma OperateLingers(cfg: Config, s: System, op: Op, client: nat)
    requires Ok(s) && NoRepositoryFault(op) && cfg.hasHub
    ensures Lingers(Next(cfg, s, Operate(op)), client) <==> Lingers(s, client)
  {
    var w := Step(cfg, s.world, op);
    var effects := NewEffects(CellOf(s.world, op.id), CellOf(w, op.id));
    ApplyKeeps(s.hub, op.id, effects);
    ApplyKeepsSubs(s.hub, op.id, effects);
    if client in s.hub.subs {
      var id := s.hub.subs[client].topic;
      if id != op.id {
        ApplySpares(s.hub, op.id, effects, client);
      } else if Live(s.world, id) {
        EndingCloses(cfg, s.world[id], op);
        var h' := ApplyEffects(s.hub, op.id, effects);
        assert HubSpec.SubOk(h', client);
      } else {
        OverClosesNothing(cfg, s.world[id], op);
        ApplySpares(s.hub, op.id, effects, client);
      }
    }
  }

  lemma NextLingers(cfg: Config, s: System, happening: Happening, client: nat)
    requires Ok(s) && cfg.hasHub && (happening.Operate? ==> NoRepositoryFault(happening.op))
    ensures Lingers(Next(cfg, s, happening), client) <==> LateStep(s, happening, client, Lingers(s, client))
  {
    if happening.Operate? { OperateLingers(cfg, s, happening.op, client); }
  }

  /**
   Who lingers: in every run without repository faults, a client is subscribed to a transfer that is over exactly if
   it was subscribed after the end, between whose lookup and subscription the transfer ended, and has not left since.
   */
  lemma {:induction false} LingersExactly(cfg: Config, w: World, happenings: seq<Happening>, client: nat)
    requires NoFaults(happenings) && cfg.hasHub
    ensures var s := Run(cfg, Start(w), happenings);
            Ok(s) && (Lingers(s, client) <==> Late(cfg, Start(w), happenings, client))
    decreases |happenings|
  {
    if happenings != [] {
      var before, last := happenings[..|happenings| - 1], happenings[|happenings| - 1];
      LingersExactly(cfg, w, before, client);
      var s := Run(cfg, Start(w), before);
      NextOk(cfg, s, last);
      NextLingers(cfg, s, last, client);
    }
  }

  /** A transfer that is over has an entry in the hub's table exactly if some client lingers on it. */
  lemma EntryExactly(s: System, id: TransferId)
    requires Ok(s) && !Live(s.world, id)
    ensures id in s.hub.registered <==> exists c :: Lingers(s, c) && s.hub.subs[c].topic == id
  {
    if id in s.hub.registered {
      assert HubSpec.TopicOk(s.hub, id);
      var c :| c in s.hub.registered[id];
      assert Lingers(s, c) && s.hub.subs[c].topic == id;
    }
    forall c | Lingers(s, c) && s.hub.subs[c].topic == id
      ensures id in s.hub.registered
    {
      assert HubSpec.SubOk(s.hub, c);
    }
  }

  // ---------------------------------------------------------------------------
  // No stream outlives its transfer

  /** Every subscription is made while its transfer is live, as when nothing comes between lookup and subscription. */
  ghost predicate OnTime(cfg: Config, s: System, happenings: seq<Happening>)
    decreases |happenings|
  {
    happenings == [] ||
    var before, last := happenings[..|happenings| - 1], happenings[|happenings| - 1];
    var m := Run(cfg, s, before);
    && OnTime(cfg, s, before)
    && (last.Join? && last.client in m.waiting ==> Live(m.world, m.waiting[last.client]))
  }

  /** Only live transfers have subscribers. */
  ghost predicate Quiet(s: System) {
    forall id :: id in s.hub.registered ==> Live(s.world, id)
  }

  ghost predicate AlwaysQuiet(cfg: Config, s: System, happenings: seq<Happening>)
    decreases |happenings|
  {
    Quiet(Run(cfg, s, happenings)) &&
    (happenings == [] || AlwaysQuiet(cfg, s, happenings[..|happenings| - 1]))
  }

  lemma {:induction false} OnTimeNeverLate(cfg: Config, s: System, happenings: seq<Happening>, client: nat)
    requires OnTime(cfg, s, happenings)
    ensures !Late(cfg, s, happenings, client)
    decreases |happenings|
  {
    if happenings != [] { OnTimeNeverLate(cfg, s, happenings[..|happenings| - 1], client); }
  }

  lemma OnTimeQuiet(cfg: Config, w: World, happenings: seq<Happening>)
    requires NoFaults(happenings) && cfg.hasHub && OnTime(cfg, Start(w), happenings)
    ensures Quiet(Run(cfg, Start(w), happenings))
  {
    var s := Run(cfg, Start(w), happenings);
    LingersExactly(cfg, w, happenings, 0);
    forall id | id in s.hub.registered
      ensures Live(s.world, id)
    {
      if !Live(s.world, id) {
        EntryExactly(s, id);
        var c :| Lingers(s, c) && s.hub.subs[c].topic == id;
        LingersExactly(cfg, w, happenings, c);
        OnTimeNeverLate(cfg, Start(w), happenings, c);
      }
    }
  }

  lemma LateJoinNotQuiet(cfg: Config, s: System, client: nat)
    requires Ok(s) && client in s.waiting && !Live(s.world, s.waiting[client])
    ensures !Quiet(Next(cfg, s, Join(client)))
  {
    assert s.waiting[client] in Next(cfg, s, Join(client)).hub.registered;
  }

  /**
   Stream closing: in every run without repository faults, at no time does a transfer that is over have a subscriber,
   if and only if every subscription is made while its transfer is still live.
   */
  lemma {:induction false} NoStreamOutlivesItsTransfer(cfg: Config, w: World, happenings: seq<Happening>)
    requires NoFaults(happenings) && cfg.hasHub
    ensures AlwaysQuiet(cfg, Start(w), happenings) <==> OnTime(cfg, Start(w), happenings)
    decreases |happenings|
  {
    if happenings != [] {
      var before, last := happenings[..|happenings| - 1], happenings[|happenings| - 1];
      NoStreamOutlivesItsTransfer(cfg, w, before);
      if OnTime(cfg, Start(w), happenings) {
        OnTimeQuiet(cfg, w, happenings);
      } else if OnTime(cfg, Start(w), before) {
        LingersExactly(cfg, w, before, 0);
        LateJoinNotQuiet(cfg, Run(cfg, Start(w), before), last.client);
      }
    }
  }
}
