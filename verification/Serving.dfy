/** The handler that serves one client its progress stream, up to what the client reads. */
module Serving {
  import opened Wrappers
  import opened Transfers
  import HubSpec
  import Sse

  type Hub = HubSpec.Hub<nat, Report>
  type HubOp = HubSpec.Op<nat, Report>

  /** What is encoded into an event: the stored state of the transfer, or a report as it comes in. */
  datatype Sent = Snapshot(row: Row) | Update(report: Report)

  function Encoded(reports: seq<Report>, encode: Sent -> string): seq<string>
    decreases |reports|
  {
    if reports == [] then []
    else Encoded(reports[..|reports| - 1], encode) + [encode(Update(reports[|reports| - 1]))]
  }

  lemma EncodedAppend(reports: seq<Report>, report: Report, encode: Sent -> string)
    ensures Encoded(reports + [report], encode) == Encoded(reports, encode) + [encode(Update(report))]
  {
    assert (reports + [report])[..|reports|] == reports;
  }

  /** Encodings are as JSON texts are: on one line, not empty, and with nothing to trim. */
  ghost predicate CleanEncoding(encode: Sent -> string) {
    forall sent :: Sse.Trimmed(encode(sent)) && '\n' !in encode(sent)
  }

  // ---------------------------------------------------------------------------
  // The response

  lemma {:induction false} RenderAppend(frames: seq<string>, frame: string)
    ensures Sse.Render(frames + [frame]) == Sse.Render(frames) + (frame + Sse.SEPARATOR)
    decreases |frames|
  {
    if frames == [] {
      assert frames + [frame] == [frame] && [frame][1..] == [];
      assert Sse.Render([frame]) == frame + Sse.SEPARATOR + "";
    } else {
      assert (frames + [frame])[1..] == frames[1..] + [frame];
      RenderAppend(frames[1..], frame);
    }
  }

  lemma {:induction false} ItemFramesAppend(items: seq<Sse.Item>, item: Sse.Item)
    ensures Sse.ItemFrames(items + [item]) == Sse.ItemFrames(items) + [Sse.ItemFrame(item)]
    decreases |items|
  {
    if items == [] {
      assert items + [item] == [item] && [item][1..] == [];
    } else {
      assert (items + [item])[1..] == items[1..] + [item];
      ItemFramesAppend(items[1..], item);
    }
  }

  lemma {:induction false} PayloadsAppend(items: seq<Sse.Item>, item: Sse.Item)
    ensures Sse.Payloads(items + [item]) == Sse.Payloads(items) + if item.Progress? then [item.payload] else []
    decreases |items|
  {
    if items == [] {
      assert items + [item] == [item] && [item][1..] == [];
    } else {
      assert (items + [item])[1..] == items[1..] + [item];
      PayloadsAppend(items[1..], item);
      var a, b := if items[0].Progress? then [items[0].payload] else [], Sse.Payloads(items[1..]);
      var c := if item.Progress? then [item.payload] else [];
      assert a + (b + c) == (a + b) + c;
    }
  }

  /** The response body so far: its text, the items it was written from and the payloads among them. */
  datatype Response = Response(body: string, items: seq<Sse.Item>, payloads: seq<string>)

  ghost predicate Consistent(w: Response) {
    w.body == Sse.Written(w.items) && w.payloads == Sse.Payloads(w.items)
  }

  method WriteItem(w: Response, item: Sse.Item) returns (w': Response)
    requires Consistent(w)
    ensures Consistent(w') && w'.items == w.items + [item]
    ensures w'.payloads == w.payloads + if item.Progress? then [item.payload] else []
  {
    ItemFramesAppend(w.items, item);
    RenderAppend(Sse.ItemFrames(w.items), Sse.ItemFrame(item));
    PayloadsAppend(w.items, item);
    w' := Response(w.body + (Sse.ItemFrame(item) + Sse.SEPARATOR), w.items + [item],
                   w.payloads + if item.Progress? then [item.payload] else []);
  }

  // ---------------------------------------------------------------------------
  // What happens while a client is served

  /** What wakes the handler up, or what the rest of the program does to the hub meanwhile. */
  datatype Wake = ChannelReady | KeepaliveTick | ClientGone | Others(op: HubOp)

  /** Only the handler has the client's channel and the function that unsubscribes it. */
  predicate Foreign(op: HubOp, client: nat) {
    op.Receive? || op.Unsubscribe? ==> op.sub != client
  }

  ghost predicate AllForeign(wakes: seq<Wake>, client: nat) {
    forall i :: 0 <= i < |wakes| && wakes[i].Others? ==> Foreign(wakes[i].op, client)
  }

  function Does(wake: Wake, client: nat): seq<HubOp> {
    match wake
    case ChannelReady => [HubSpec.Receive(client)]
    case Others(op) => [op]
    case _ => []
  }

  /** The operations on the hub, the handler's own receives among them. */
  function Trace(wakes: seq<Wake>, client: nat): seq<HubOp>
    decreases |wakes|
  {
    if wakes == [] then [] else Trace(wakes[..|wakes| - 1], client) + Does(wakes[|wakes| - 1], client)
  }

  ghost function After(hub: Hub, client: nat, wakes: seq<Wake>): Hub {
    HubSpec.RunFrom(hub, Trace(wakes, client))
  }

  lemma AfterNext(hub: Hub, client: nat, wakes: seq<Wake>, i: nat)
    requires i < |wakes|
    ensures After(hub, client, wakes[..i + 1])
            == HubSpec.RunFrom(After(hub, client, wakes[..i]), Does(wakes[i], client))
  {
    assert wakes[..i + 1][..i] == wakes[..i];
    HubSpec.RunFromConcat(hub, Trace(wakes[..i], client), Does(wakes[i], client));
  }

  /** What a wake-up makes the handler write. */
  function Writes(hub: Hub, client: nat, wake: Wake, encode: Sent -> string): seq<Sse.Item> {
    match wake
    case ChannelReady =>
      if client in hub.subs && hub.subs[client].buffer != [] then
        [Sse.Progress(encode(Update(hub.subs[client].buffer[0])))]
      else []
    case KeepaliveTick => [Sse.Keepalive]
    case _ => []
  }

  ghost function Items(hub: Hub, client: nat, wakes: seq<Wake>, encode: Sent -> string): seq<Sse.Item>
    decreases |wakes|
  {
    if wakes == [] then []
    else
      var before := wakes[..|wakes| - 1];
      Items(hub, client, before, encode) + Writes(After(hub, client, before), client, wakes[|wakes| - 1], encode)
  }

  /** The client has left, or its stream was closed and everything in it has been sent. */
  ghost predicate EndsAt(hub: Hub, client: nat, wakes: seq<Wake>, i: nat)
    requires i < |wakes|
  {
    || wakes[i] == ClientGone
    || (wakes[i] == ChannelReady && Drained(After(hub, client, wakes[..i]), client))
  }

  predicate Drained(hub: Hub, client: nat) {
    client in hub.subs && hub.subs[client].chanClosed && hub.subs[client].buffer == []
  }

  /** Of the first `n` wake-ups exactly the last ends the stream, if it has ended. */
  ghost predicate EndsOnlyLast(hub: Hub, client: nat, wakes: seq<Wake>, n: nat, ended: bool) {
    && n <= |wakes| && (ended ==> n > 0)
    && forall i :: 0 <= i < n ==> (EndsAt(hub, client, wakes, i) <==> ended && i == n - 1)
  }

  /** `n` wake-ups are handled: up to and including the first that ends the stream, or all of them. */
  ghost predicate Handles(hub: Hub, client: nat, wakes: seq<Wake>, n: nat, ended: bool) {
    EndsOnlyLast(hub, client, wakes, n, ended) && (!ended ==> n == |wakes|)
  }

  // ---------------------------------------------------------------------------
  // The event loop

  lemma ForeignStep(hub: Hub, client: nat, op: HubOp)
    requires client in hub.subs && Foreign(op, client)
    ensures var hub' := HubSpec.Step(hub, op);
            client in hub'.subs && hub'.subs[client].received == hub.subs[client].received
  {
  }

  lemma ReceiveNothing(hub: Hub, client: nat)
    requires client in hub.subs && hub.subs[client].buffer == []
    ensures HubSpec.Step(hub, HubSpec.Receive(client)) == hub
  {
    assert hub.subs[client := hub.subs[client]] == hub.subs;
  }

  lemma OneOp(hub: Hub, op: HubOp)
    ensures HubSpec.RunFrom(hub, [op]) == HubSpec.Step(hub, op)
  {
    assert [op][1..] == [];
  }

  lemma ItemsNext(hub: Hub, client: nat, wakes: seq<Wake>, i: nat, encode: Sent -> string)
    requires i < |wakes|
    ensures Items(hub, client, wakes[..i + 1], encode)
            == Items(hub, client, wakes[..i], encode) + Writes(After(hub, client, wakes[..i]), client, wakes[i], encode)
  {
    assert wakes[..i + 1][..i] == wakes[..i];
  }

  /** One wake-up that does not end the stream. */
  method HandleWake(hub0: Hub, client: nat, wake: Wake, w0: Response, encode: Sent -> string)
    returns (hub: Hub, w: Response, taken: seq<Report>)
    requires client in hub0.subs && Consistent(w0) && (wake.Others? ==> Foreign(wake.op, client))
    ensures hub == HubSpec.RunFrom(hub0, Does(wake, client))
    ensures client in hub.subs && hub.subs[client].received == hub0.subs[client].received + taken
    ensures Consistent(w) && w.items == w0.items + Writes(hub0, client, wake, encode)
    ensures |taken| <= 1 && w.payloads == w0.payloads + if taken == [] then [] else [encode(Update(taken[0]))]
  {
    hub, w, taken := hub0, w0, [];
    match wake {
      case ChannelReady =>
        OneOp(hub0, HubSpec.Receive(client));
        var c := hub.subs[client];
        if |c.buffer| > 0 {
          taken := [c.buffer[0]];
          hub := HubSpec.DoReceive(hub, client);
          w := WriteItem(w, Sse.Progress(encode(Update(c.buffer[0]))));
        } else {
          ReceiveNothing(hub0, client);
        }
      case KeepaliveTick => w := WriteItem(w, Sse.Keepalive);
      case ClientGone =>
      case Others(op) =>
        OneOp(hub0, op);
        ForeignStep(hub0, client, op);
        hub := HubSpec.Step(hub, op);
    }
  }

  /** After `n` wake-ups: the hub is where the operations so far have brought it, and `delta` has been received. */
  ghost predicate HubServed(hub0: Hub, client: nat, wakes: seq<Wake>, hub: Hub, delta: seq<Report>, n: nat)
    requires client in hub0.subs
  {
    && n <= |wakes| && hub == After(hub0, client, wakes[..n])
    && client in hub.subs && hub.subs[client].received == hub0.subs[client].received + delta
  }

  lemma HubServedNext(
    hub0: Hub, client: nat, wakes: seq<Wake>, hub: Hub, delta: seq<Report>, n: nat, hub': Hub, taken: seq<Report>)
    requires client in hub0.subs && n < |wakes| && HubServed(hub0, client, wakes, hub, delta, n)
    requires hub' == HubSpec.RunFrom(hub, Does(wakes[n], client))
    requires client in hub'.subs && hub'.subs[client].received == hub.subs[client].received + taken
    ensures HubServed(hub0, client, wakes, hub', delta + taken, n + 1)
  {
    AfterNext(hub0, client, wakes, n);
    var was := hub0.subs[client].received;
    assert was + delta + taken == was + (delta + taken);
  }

  /** The response holds what the wake-ups made the handler write, and the payloads among it are those of `delta`. */
  ghost predicate BodyServed(
    hub0: Hub, client: nat, wakes: seq<Wake>, w0: Response, w: Response, delta: seq<Report>, n: nat,
    encode: Sent -> string)
  {
    && n <= |wakes| && w.items == w0.items + Items(hub0, client, wakes[..n], encode)
    && w.payloads == w0.payloads + Encoded(delta, encode)
  }

  lemma PayloadsNext(ps: seq<string>, delta: seq<Report>, taken: seq<Report>, encode: Sent -> string)
    requires |taken| <= 1
    ensures ps + Encoded(delta, encode) + (if taken == [] then [] else [encode(Update(taken[0]))])
            == ps + Encoded(delta + taken, encode)
  {
    if taken == [] {
      assert delta + taken == delta;
    } else {
      assert taken == [taken[0]];
      EncodedAppend(delta, taken[0], encode);
    }
  }

  lemma ItemsServedNext(
    hub0: Hub, client: nat, wakes: seq<Wake>, items: seq<Sse.Item>, n: nat, encode: Sent -> string)
    requires n < |wakes|
    ensures items + Items(hub0, client, wakes[..n], encode)
            + Writes(After(hub0, client, wakes[..n]), client, wakes[n], encode)
            == items + Items(hub0, client, wakes[..n + 1], encode)
  {
    ItemsNext(hub0, client, wakes, n, encode);
    var more := Writes(After(hub0, client, wakes[..n]), client, wakes[n], encode);
    var done := Items(hub0, client, wakes[..n], encode);
    assert items + done + more == items + (done + more);
  }

  lemma BodyServedNext(
    hub0: Hub, client: nat, wakes: seq<Wake>, w0: Response, w: Response, delta: seq<Report>, n: nat,
    encode: Sent -> string, w': Response, taken: seq<Report>)
    requires n < |wakes| && BodyServed(hub0, client, wakes, w0, w, delta, n, encode)
    requires w'.items == w.items + Writes(After(hub0, client, wakes[..n]), client, wakes[n], encode)
    requires |taken| <= 1 && w'.payloads == w.payloads + if taken == [] then [] else [encode(Update(taken[0]))]
    ensures BodyServed(hub0, client, wakes, w0, w', delta + taken, n + 1, encode)
  {
    ItemsServedNext(hub0, client, wakes, w0.items, n, encode);
    PayloadsNext(w0.payloads, delta, taken, encode);
  }

  lemma EndsNext(hub0: Hub, client: nat, wakes: seq<Wake>, n: nat, hub: Hub, delta: seq<Report>, ended: bool)
    requires client in hub0.subs && n < |wakes| && EndsOnlyLast(hub0, client, wakes, n, false)
    requires HubServed(hub0, client, wakes, hub, delta, n)
    requires ended == (wakes[n] == ClientGone || (wakes[n] == ChannelReady && Drained(hub, client)))
    ensures EndsOnlyLast(hub0, client, wakes, n + 1, ended)
  {
    assert ended == EndsAt(hub0, client, wakes, n);
  }

  /**
   The event loop: the client is sent what its subscription receives, in order, until its stream is closed and drained
   or it leaves. The hub is taken by value, since the handler shares it with everyone else.
   */
  method ServeEvents(hub0: Hub, client: nat, w0: Response, wakes: seq<Wake>, encode: Sent -> string)
    returns (hub: Hub, w: Response, delta: seq<Report>, n: nat, ended: bool)
    requires client in hub0.subs && Consistent(w0) && AllForeign(wakes, client)
    ensures Handles(hub0, client, wakes, n, ended)
    ensures HubServed(hub0, client, wakes, hub, delta, n)
    ensures BodyServed(hub0, client, wakes, w0, w, delta, n, encode) && Consistent(w)
  {
    hub, w, delta, n, ended := hub0, w0, [], 0, false;
    while n < |wakes| && !ended
      invariant EndsOnlyLast(hub0, client, wakes, n, ended)
      invariant HubServed(hub0, client, wakes, hub, delta, n)
      invariant BodyServed(hub0, client, wakes, w0, w, delta, n, encode) && Consistent(w)
      decreases |wakes| - n
    {
      var wake, c := wakes[n], hub.subs[client];
      ended := wake == ClientGone || (wake == ChannelReady && c.chanClosed && c.buffer == []);
      EndsNext(hub0, client, wakes, n, hub, delta, ended);
      var hub', w', taken := HandleWake(hub, client, wake, w, encode);
      HubServedNext(hub0, client, wakes, hub, delta, n, hub', taken);
      BodyServedNext(hub0, client, wakes, w0, w, delta, n, encode, w', taken);
      hub, w, delta, n := hub', w', delta + taken, n + 1;
    }
  }

  // ---------------------------------------------------------------------------
  // The whole request

  /** The hub's operations from the subscription to the end of the request. */
  function Session(client: nat, id: TransferId, wakes: seq<Wake>): seq<HubOp> {
    [HubSpec.Subscribe(client, id)] + Trace(wakes, client) + [HubSpec.Unsubscribe(client)]
  }

  method ServeSubscriber(hub0: Hub, client: nat, id: TransferId, w0: Response, wakes: seq<Wake>, encode: Sent -> string)
    returns (hub: Hub, w: Response, received: seq<Report>, n: nat, ended: bool)
    requires client !in hub0.subs && Consistent(w0) && AllForeign(wakes, client)
    ensures client in hub.subs && hub.subs[client].topic == id && hub.subs[client].closed
    ensures Handles(HubSpec.DoSubscribe(hub0, client, id), client, wakes, n, ended)
    ensures hub == HubSpec.RunFrom(hub0, Session(client, id, wakes[..n]))
    ensures client in hub.subs && hub.subs[client].received == received
    ensures BodyServed(HubSpec.DoSubscribe(hub0, client, id), client, wakes, w0, w, received, n, encode)
    ensures Consistent(w)
  {
    hub := HubSpec.DoSubscribe(hub0, client, id);
    hub, w, received, n, ended := ServeEvents(hub, client, w0, wakes, encode);
    SessionRun(hub0, client, id, wakes[..n]);
    TopicStays(HubSpec.DoSubscribe(hub0, client, id), Trace(wakes[..n], client), client);
    hub := HubSpec.DoUnsubscribe(hub, client);
  }

  lemma {:induction false} TopicStays(hub: Hub, ops: seq<HubOp>, client: nat)
    requires client in hub.subs
    ensures var hub' := HubSpec.RunFrom(hub, ops);
            client in hub'.subs && hub'.subs[client].topic == hub.subs[client].topic
    decreases |ops|
  {
    if ops != [] { TopicStays(HubSpec.Step(hub, ops[0]), ops[1..], client); }
  }

  method SubscribeAndLeave(hub0: Hub, client: nat, id: TransferId) returns (hub: Hub)
    requires client !in hub0.subs
    ensures client in hub.subs && hub.subs[client].topic == id && hub.subs[client].closed
    ensures hub == HubSpec.RunFrom(hub0, Session(client, id, []))
  {
    SessionRun(hub0, client, id, []);
    hub := HubSpec.DoUnsubscribe(HubSpec.DoSubscribe(hub0, client, id), client);
  }

  /** What is known when the request has been looked up. */
  datatype Answer = Malformed | LookupFailed | Missing | Found(row: Row)

  /** How the program is set up to stream: whether there is a hub, and whether responses can be flushed. */
  datatype Setup = Setup(hasHub: bool, canFlush: bool)

  /** Whether the request gets as far as its stored state. */
  predicate Served(answer: Answer, setup: Setup) {
    answer.Found? && (IsTerminal(answer.row.state) || (setup.hasHub && setup.canFlush))
  }

  /**
   Serves a client from the answer to its lookup to the end of its stream. Without a transfer, a hub or a response that
   can be flushed it gets an error; a transfer that is over gets its stored state and no subscription; any other gets
   its stored state and then every report its subscription receives, until the stream ends, and is unsubscribed.
   */
  method HandleStreamProgress(
      hub0: Hub, client: nat, id: TransferId, answer: Answer, setup: Setup, wakes: seq<Wake>, encode: Sent -> string)
    returns (status: nat, hub: Hub, w: Response, received: seq<Report>, n: nat, ended: bool)
    requires client !in hub0.subs && AllForeign(wakes, client)
    ensures Consistent(w)
    ensures status == match answer
                      case Malformed => 400
                      case LookupFailed => 500
                      case Missing => 404
                      case Found(row) =>
                        if IsTerminal(row.state) then 200
                        else if !setup.hasHub then 503
                        else if !setup.canFlush then 500
                        else 200
    ensures answer.Found? && !IsTerminal(answer.row.state) && setup.hasHub ==>
              client in hub.subs && hub.subs[client].topic == id && hub.subs[client].closed
    ensures !Served(answer, setup) ==> w.items == [] && received == []
    ensures Served(answer, setup) ==>
              w.payloads == [encode(Snapshot(answer.row))] + Encoded(received, encode)
    ensures !answer.Found? || IsTerminal(answer.row.state) || !setup.hasHub ==> hub == hub0
    ensures answer.Found? && !IsTerminal(answer.row.state) && setup.hasHub && !setup.canFlush ==>
              hub == HubSpec.RunFrom(hub0, Session(client, id, []))
    ensures answer.Found? && IsTerminal(answer.row.state) ==>
              received == [] && w.items == [Sse.Progress(encode(Snapshot(answer.row)))]
    ensures Served(answer, setup) && !IsTerminal(answer.row.state) ==>
              var start := HubSpec.DoSubscribe(hub0, client, id);
              && Handles(start, client, wakes, n, ended)
              && hub == HubSpec.RunFrom(hub0, Session(client, id, wakes[..n]))
              && client in hub.subs && hub.subs[client].received == received
              && w.items == [Sse.Progress(encode(Snapshot(answer.row)))] + Items(start, client, wakes[..n], encode)
  {
    w := Response("", [], []);
    status, hub, received, n, ended := 200, hub0, [], 0, false;
    if answer.Malformed? { status := 400; return; }
    if answer.LookupFailed? { status := 500; return; }
    if answer.Missing? { status := 404; return; }
    if IsTerminal(answer.row.state) {
      w := WriteItem(w, Sse.Progress(encode(Snapshot(answer.row))));
      return;
    }
    status, hub, w, received, n, ended := HandleLive(hub0, client, id, answer.row, setup, wakes, encode);
  }

  /** The part of it for a transfer that is not over. */
  method HandleLive(
      hub0: Hub, client: nat, id: TransferId, row: Row, setup: Setup, wakes: seq<Wake>, encode: Sent -> string)
    returns (status: nat, hub: Hub, w: Response, received: seq<Report>, n: nat, ended: bool)
    requires client !in hub0.subs && AllForeign(wakes, client)
    ensures Consistent(w) && status == if !setup.hasHub then 503 else if !setup.canFlush then 500 else 200
    ensures !setup.hasHub ==> hub == hub0
    ensures setup.hasHub ==> client in hub.subs && hub.subs[client].topic == id && hub.subs[client].closed
    ensures !(setup.hasHub && setup.canFlush) ==> w.items == [] && received == []
    ensures setup.hasHub && !setup.canFlush ==> hub == HubSpec.RunFrom(hub0, Session(client, id, []))
    ensures setup.hasHub && setup.canFlush ==>
              var start := HubSpec.DoSubscribe(hub0, client, id);
              && Handles(start, client, wakes, n, ended)
              && hub == HubSpec.RunFrom(hub0, Session(client, id, wakes[..n]))
              && client in hub.subs && hub.subs[client].received == received
              && w.payloads == [encode(Snapshot(row))] + Encoded(received, encode)
              && w.items == [Sse.Progress(encode(Snapshot(row)))] + Items(start, client, wakes[..n], encode)
  {
    w := Response("", [], []);
    status, hub, received, n, ended := 200, hub0, [], 0, false;
    if !setup.hasHub { status := 503; return; }
    if !setup.canFlush {
      status := 500;
      hub := SubscribeAndLeave(hub0, client, id);
      return;
    }
    w := WriteItem(w, Sse.Progress(encode(Snapshot(row))));
    hub, w, received, n, ended := ServeSubscriber(hub0, client, id, w, wakes, encode);
  }

  lemma SessionRun(hub0: Hub, client: nat, id: TransferId, wakes: seq<Wake>)
    requires client !in hub0.subs
    ensures var hub := After(HubSpec.DoSubscribe(hub0, client, id), client, wakes);
            client in hub.subs ==>
              HubSpec.RunFrom(hub0, Session(client, id, wakes)) == HubSpec.DoUnsubscribe(hub, client)
  {
    var first, last := HubSpec.Subscribe(client, id), HubSpec.Unsubscribe(client);
    HubSpec.RunFromConcat(hub0, [first] + Trace(wakes, client), [last]);
    HubSpec.RunFromConcat(hub0, [first], Trace(wakes, client));
    OneOp(hub0, first);
    OneOp(HubSpec.RunFrom(hub0, [first] + Trace(wakes, client)), last);
  }

  // ---------------------------------------------------------------------------
  // What the wake-ups come to

  function Ticks(wakes: seq<Wake>): nat
    decreases |wakes|
  {
    if wakes == [] then 0 else Ticks(wakes[..|wakes| - 1]) + if wakes[|wakes| - 1] == KeepaliveTick then 1 else 0
  }

  function Keepalives(items: seq<Sse.Item>): nat {
    if items == [] then 0 else Keepalives(items[..|items| - 1]) + if items[|items| - 1] == Sse.Keepalive then 1 else 0
  }

  lemma KeepalivesAppend(items: seq<Sse.Item>, item: Sse.Item)
    ensures Keepalives(items + [item]) == Keepalives(items) + if item == Sse.Keepalive then 1 else 0
  {
    assert (items + [item])[..|items|] == items;
  }

  /** Every tick of the keepalive timer is answered with one keepalive comment, and nothing else is. */
  lemma {:induction false} KeepalivesCounted(hub: Hub, client: nat, wakes: seq<Wake>, encode: Sent -> string)
    ensures Keepalives(Items(hub, client, wakes, encode)) == Ticks(wakes)
    decreases |wakes|
  {
    if wakes != [] {
      var before, last := wakes[..|wakes| - 1], wakes[|wakes| - 1];
      KeepalivesCounted(hub, client, before, encode);
      var done, more := Items(hub, client, before, encode), Writes(After(hub, client, before), client, last, encode);
      if more == [] {
        assert done + more == done;
      } else {
        assert more == [more[0]];
        KeepalivesAppend(done, more[0]);
      }
    }
  }

  /** What others did to the hub. */
  function Foreigners(wakes: seq<Wake>): seq<HubOp>
    decreases |wakes|
  {
    if wakes == [] then []
    else
      var last := wakes[|wakes| - 1];
      Foreigners(wakes[..|wakes| - 1]) + if last.Others? then [last.op] else []
  }

  function Without(ops: seq<HubOp>, client: nat): seq<HubOp> {
    if ops == [] then []
    else
      var last := ops[|ops| - 1];
      Without(ops[..|ops| - 1], client) + if last == HubSpec.Receive(client) then [] else [last]
  }

  lemma WithoutAppend(ops: seq<HubOp>, op: HubOp, client: nat)
    ensures Without(ops + [op], client) == Without(ops, client) + if op == HubSpec.Receive(client) then [] else [op]
  {
    assert (ops + [op])[..|ops|] == ops;
  }

  /** All that others do to the hub is in the trace, in order; the rest are the handler's own receives. */
  lemma {:induction false} TraceIsComplete(wakes: seq<Wake>, client: nat)
    requires AllForeign(wakes, client)
    ensures Without(Trace(wakes, client), client) == Foreigners(wakes)
    decreases |wakes|
  {
    if wakes != [] {
      var before, last := wakes[..|wakes| - 1], wakes[|wakes| - 1];
      TraceIsComplete(before, client);
      var done, more := Trace(before, client), Does(last, client);
      if more == [] {
        assert done + more == done;
      } else {
        assert more == [more[0]];
        WithoutAppend(done, more[0], client);
      }
    }
  }

  // ---------------------------------------------------------------------------
  // End to end

  lemma {:induction false} ItemsClean(hub: Hub, client: nat, wakes: seq<Wake>, encode: Sent -> string)
    requires CleanEncoding(encode)
    ensures Clean(Items(hub, client, wakes, encode))
    decreases |wakes|
  {
    if wakes != [] { ItemsClean(hub, client, wakes[..|wakes| - 1], encode); }
  }

  predicate CleanItem(item: Sse.Item) {
    item.Progress? ==> Sse.Trimmed(item.payload) && '\n' !in item.payload
  }

  ghost predicate Clean(items: seq<Sse.Item>) {
    forall i :: 0 <= i < |items| ==> CleanItem(items[i])
  }

  lemma AfterDrained(start: Hub, client: nat, wakes: seq<Wake>, n: nat)
    requires 0 < n <= |wakes| && wakes[n - 1] == ChannelReady && Drained(After(start, client, wakes[..n - 1]), client)
    ensures Drained(After(start, client, wakes[..n]), client)
  {
    var hub := After(start, client, wakes[..n - 1]);
    AfterNext(start, client, wakes, n - 1);
    OneOp(hub, HubSpec.Receive(client));
    ReceiveNothing(hub, client);
  }

  /** A stream that ended because it was closed has nothing left in its buffer. */
  lemma SessionDrained(hub0: Hub, client: nat, id: TransferId, wakes: seq<Wake>, n: nat)
    requires client !in hub0.subs && 0 < n <= |wakes| && wakes[n - 1] == ChannelReady
    requires Drained(After(HubSpec.DoSubscribe(hub0, client, id), client, wakes[..n - 1]), client)
    ensures var hub := HubSpec.RunFrom(hub0, Session(client, id, wakes[..n]));
            client in hub.subs && hub.subs[client].buffer == []
  {
    AfterDrained(HubSpec.DoSubscribe(hub0, client, id), client, wakes, n);
    SessionRun(hub0, client, id, wakes[..n]);
  }

  /** What the client's subscription was offered in the end: nothing is lost but what found its buffer full. */
  lemma SessionDelivers(before: seq<HubOp>, client: nat, id: TransferId, wakes: seq<Wake>, n: nat, ended: bool)
    requires var hub0 := HubSpec.Run(before);
             client !in hub0.subs && Handles(HubSpec.DoSubscribe(hub0, client, id), client, wakes, n, ended)
    ensures var ops := before + Session(client, id, wakes[..n]);
            var hub := HubSpec.RunFrom(HubSpec.Run(before), Session(client, id, wakes[..n]));
            && hub == HubSpec.Run(ops) && HubSpec.Inv(hub)
            && (client in hub.subs ==>
                  && hub.subs[client].received + hub.subs[client].buffer
                     == HubSpec.Accepted(HubSpec.Offered(ops, client))
                  && (ended && wakes[n - 1] == ChannelReady ==> hub.subs[client].buffer == []))
  {
    var ops := before + Session(client, id, wakes[..n]);
    HubSpec.RunInTwo(before, Session(client, id, wakes[..n]));
    HubSpec.Safety(ops);
    HubSpec.Delivery(ops, client);
    if ended && wakes[n - 1] == ChannelReady {
      assert EndsAt(HubSpec.DoSubscribe(HubSpec.Run(before), client, id), client, wakes, n - 1);
      SessionDrained(HubSpec.Run(before), client, id, wakes, n);
    }
  }

  /**
   End to end: a client is served from any reachable hub, whatever others do to it meanwhile, and reads the response in
   any chunks. It sees the stored state and then exactly the reports its subscription received; with what is still
   buffered these are all reports published during the subscription, less those that found 16 pending; and if
   the stream ended because it was closed, nothing is left in the buffer.
   */
  method ServeAndRead(
      before: seq<HubOp>, client: nat, id: TransferId, row: Row, wakes: seq<Wake>, encode: Sent -> string,
      cut: string -> seq<string>)
    returns (events: seq<string>, rest: string, ops: seq<HubOp>, n: nat, ended: bool)
    requires client !in HubSpec.Run(before).subs && !IsTerminal(row.state)
    requires AllForeign(wakes, client) && CleanEncoding(encode) && forall body :: Sse.Join(cut(body)) == body
    ensures Handles(HubSpec.DoSubscribe(HubSpec.Run(before), client, id), client, wakes, n, ended)
    ensures ops == before + Session(client, id, wakes[..n]) && client in HubSpec.Run(ops).subs
    ensures var c := HubSpec.Run(ops).subs[client];
            && events == [encode(Snapshot(row))] + Encoded(c.received, encode) && rest == ""
            && c.received + c.buffer == HubSpec.Accepted(HubSpec.Offered(ops, client))
            && (ended && wakes[n - 1] == ChannelReady ==> c.buffer == [])
  {
    var status, hub, w, received;
    status, hub, w, received, n, ended :=
      HandleStreamProgress(HubSpec.Run(before), client, id, Found(row), Setup(true, true), wakes, encode);
    ops := before + Session(client, id, wakes[..n]);
    SessionDelivers(before, client, id, wakes, n, ended);
    ItemsClean(HubSpec.DoSubscribe(HubSpec.Run(before), client, id), client, wakes[..n], encode);
    ReadBack(w, cut(w.body));
    events, rest := Sse.ReadConnection(cut(w.body), Sse.Verbatim);
  }

  lemma ReadBack(w: Response, chunks: seq<string>)
    requires Consistent(w) && Clean(w.items) && Sse.Join(chunks) == w.body
    ensures Sse.Feed("", chunks, Sse.FrameReader(Sse.Verbatim)) == (w.payloads, "")
  {
    assert forall i :: 0 <= i < |w.items| ==> CleanItem(w.items[i]) && Sse.OneLine(w.items[i]);
    Sse.RoundTrip(w.items, chunks);
  }
}
