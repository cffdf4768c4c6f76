/** The progress hub as a state machine over values: what each operation does, and what every run keeps. */
module HubSpec {
  import Transfers

  type TransferId = Transfers.TransferId

  const BUFFER_SIZE: nat := 16

  /**
   A subscriber: the transfer it asked for, its channel buffer, the hub's `closed` flag, whether the channel
   itself has been closed, and what its consumer has taken out so far.
   */
  datatype Sub<E> = Sub(topic: TransferId, buffer: seq<E>, closed: bool, chanClosed: bool, received: seq<E>)

  /** `panicked` records a send on, or a second close of, a closed channel. */
  datatype Hub<!S, E> = Hub(registered: map<TransferId, set<S>>, subs: map<S, Sub<E>>, panicked: bool)

  datatype Op<S, E> =
    | Subscribe(sub: S, topic: TransferId)
    | Unsubscribe(sub: S)
    | Publish(topic: TransferId, event: E)
    | CloseTransfer(topic: TransferId)
    | Receive(sub: S)

  predicate Registered<S, E>(h: Hub<S, E>, id: TransferId, s: S) {
    id in h.registered && s in h.registered[id]
  }

  function NewSub<E>(id: TransferId): Sub<E> {
    Sub(id, [], false, false, [])
  }

  function DoSubscribe<S, E>(h: Hub<S, E>, s: S, id: TransferId): Hub<S, E> {
    var others := if id in h.registered then h.registered[id] else {};
    h.(registered := h.registered[id := others + {s}], subs := h.subs[s := NewSub(id)])
  }

  function Closed<E>(c: Sub<E>): Sub<E> {
    c.(closed := true, chanClosed := true)
  }

  function Removed<S>(registered: map<TransferId, set<S>>, id: TransferId, s: S): map<TransferId, set<S>> {
    if id !in registered then registered
    else if registered[id] - {s} == {} then registered - {id}
    else registered[id := registered[id] - {s}]
  }

  function DoUnsubscribe<S, E>(h: Hub<S, E>, s: S): Hub<S, E>
    requires s in h.subs
  {
    var c := h.subs[s];
    if c.closed then h
    else Hub(Removed(h.registered, c.topic, s), h.subs[s := Closed(c)], h.panicked || c.chanClosed)
  }

  /** A non-blocking send: dropped when the buffer is full. */
  function Offer<E>(c: Sub<E>, e: E): Sub<E> {
    if |c.buffer| < BUFFER_SIZE then c.(buffer := c.buffer + [e]) else c
  }

  function DoPublish<S, E>(h: Hub<S, E>, id: TransferId, e: E): Hub<S, E> {
    h.(subs := map s | s in h.subs :: if Registered(h, id, s) then Offer(h.subs[s], e) else h.subs[s],
       panicked := h.panicked || exists s | s in h.subs :: Registered(h, id, s) && h.subs[s].chanClosed)
  }

  function DoClose<S, E>(h: Hub<S, E>, id: TransferId): Hub<S, E> {
    Hub(h.registered - {id},
        map s | s in h.subs :: if Registered(h, id, s) && !h.subs[s].closed then Closed(h.subs[s]) else h.subs[s],
        h.panicked || exists s | s in h.subs :: Registered(h, id, s) && !h.subs[s].closed && h.subs[s].chanClosed)
  }

  function Taken<E>(c: Sub<E>): Sub<E> {
    if c.buffer == [] then c else c.(received := c.received + [c.buffer[0]], buffer := c.buffer[1..])
  }

  function DoReceive<S, E>(h: Hub<S, E>, s: S): Hub<S, E>
    requires s in h.subs
  {
    h.(subs := h.subs[s := Taken(h.subs[s])])
  }

  /** One step; subscribing an object twice or using one that was never subscribed cannot happen and changes nothing. */
  function Step<S, E>(h: Hub<S, E>, op: Op<S, E>): Hub<S, E> {
    match op
    case Subscribe(s, id) => if s in h.subs then h else DoSubscribe(h, s, id)
    case Unsubscribe(s) => if s in h.subs then DoUnsubscribe(h, s) else h
    case Publish(id, e) => DoPublish(h, id, e)
    case CloseTransfer(id) => DoClose(h, id)
    case Receive(s) => if s in h.subs then DoReceive(h, s) else h
  }

  function Run<S, E>(ops: seq<Op<S, E>>): Hub<S, E> {
    if ops == [] then Hub(map[], map[], false)
    else Step(Run(ops[..|ops| - 1]), ops[|ops| - 1])
  }

  // ---------------------------------------------------------------------------
  // Safety

  predicate SubOk<S, E>(h: Hub<S, E>, s: S)
    requires s in h.subs
  {
    var c := h.subs[s];
    && c.closed == c.chanClosed
    && |c.buffer| <= 16
    && (!c.closed ==> Registered(h, c.topic, s))
  }

  predicate TopicOk<S, E>(h: Hub<S, E>, id: TransferId)
    requires id in h.registered
  {
    && h.registered[id] != {}
    && forall s :: s in h.registered[id] ==> s in h.subs && h.subs[s].topic == id && !h.subs[s].closed
  }

  /** Registered under exactly its own transfer iff not closed, no empty subscriber set, bounded buffers, no panic. */
  predicate Inv<S, E>(h: Hub<S, E>) {
    && !h.panicked
    && (forall s :: s in h.subs ==> SubOk(h, s))
    && (forall id :: id in h.registered ==> TopicOk(h, id))
  }

  lemma SubscribeKeeps<S, E>(h: Hub<S, E>, s: S, id: TransferId)
    requires Inv(h) && s !in h.subs
    ensures Inv(DoSubscribe(h, s, id))
  {
    var h' := DoSubscribe(h, s, id);
    forall t | t in h'.subs
      ensures SubOk(h', t)
    {
      if t != s { assert SubOk(h, t); }
    }
    forall i | i in h'.registered
      ensures TopicOk(h', i)
    {
      if i in h.registered { assert TopicOk(h, i); }
    }
  }

  lemma UnsubscribeKeeps<S, E>(h: Hub<S, E>, s: S)
    requires Inv(h) && s in h.subs
    ensures Inv(DoUnsubscribe(h, s))
  {
    var h' := DoUnsubscribe(h, s);
    assert SubOk(h, s);
    forall t | t in h'.subs
      ensures SubOk(h', t)
    {
      assert SubOk(h, t);
      if t != s && !h.subs[t].closed && h.subs[t].topic == h.subs[s].topic {
        assert t in h.registered[h.subs[s].topic] - {s};
      }
    }
    forall i | i in h'.registered
      ensures TopicOk(h', i)
    {
      assert TopicOk(h, i);
    }
  }

  lemma PublishKeeps<S, E>(h: Hub<S, E>, id: TransferId, e: E)
    requires Inv(h)
    ensures Inv(DoPublish(h, id, e))
  {
    var h' := DoPublish(h, id, e);
    assert id in h.registered ==> TopicOk(h, id);
    forall t | t in h'.subs
      ensures SubOk(h', t) && !(Registered(h, id, t) && h.subs[t].chanClosed)
    {
      assert SubOk(h, t);
    }
    forall i | i in h'.registered
      ensures TopicOk(h', i)
    {
      assert TopicOk(h, i);
    }
  }

  lemma CloseKeeps<S, E>(h: Hub<S, E>, id: TransferId)
    requires Inv(h)
    ensures Inv(DoClose(h, id))
  {
    var h' := DoClose(h, id);
    forall t | t in h'.subs
      ensures SubOk(h', t) && !(Registered(h, id, t) && !h.subs[t].closed && h.subs[t].chanClosed)
    {
      assert SubOk(h, t);
    }
    forall i | i in h'.registered
      ensures TopicOk(h', i)
    {
      assert TopicOk(h, i);
    }
  }

  lemma ReceiveKeeps<S, E>(h: Hub<S, E>, s: S)
    requires Inv(h) && s in h.subs
    ensures Inv(DoReceive(h, s))
  {
    var h' := DoReceive(h, s);
    forall t | t in h'.subs
      ensures SubOk(h', t)
    {
      assert SubOk(h, t);
    }
    forall i | i in h'.registered
      ensures TopicOk(h', i)
    {
      assert TopicOk(h, i);
    }
  }

  lemma StepKeeps<S, E>(h: Hub<S, E>, op: Op<S, E>)
    requires Inv(h)
    ensures Inv(Step(h, op))
  {
    match op
    case Subscribe(s, id) => if s !in h.subs { SubscribeKeeps(h, s, id); }
    case Unsubscribe(s) => if s in h.subs { UnsubscribeKeeps(h, s); }
    case Publish(id, e) => PublishKeeps(h, id, e);
    case CloseTransfer(id) => CloseKeeps(h, id);
    case Receive(s) => if s in h.subs { ReceiveKeeps(h, s); }
  }

  /** Every run is safe: no send on a closed channel, no double close, whatever the order of the operations. */
  lemma {:induction false} Safety<S, E>(ops: seq<Op<S, E>>)
    ensures Inv(Run(ops))
    decreases |ops|
  {
    if ops != [] {
      Safety(ops[..|ops| - 1]);
      StepKeeps(Run(ops[..|ops| - 1]), ops[|ops| - 1]);
    }
  }

  // ---------------------------------------------------------------------------
  // Delivery

  /** A subscription as the operations alone tell it. */
  datatype Lease = Never | Open(topic: TransferId) | Ended

  ghost function LeaseOf<S, E>(ops: seq<Op<S, E>>, s: S): Lease
    decreases |ops|
  {
    if ops == [] then Never
    else
      var before := LeaseOf(ops[..|ops| - 1], s);
      match ops[|ops| - 1]
      case Subscribe(t, id) => if t == s && before == Never then Open(id) else before
      case Unsubscribe(t) => if t == s && before.Open? then Ended else before
      case CloseTransfer(id) => if before == Open(id) then Ended else before
      case _ => before
  }

  /** A subscription is in the hub's table exactly while its lease is open, and only under its transfer. */
  lemma {:induction false} LeaseMatches<S, E>(ops: seq<Op<S, E>>, s: S)
    ensures var h := Run(ops);
            && (s in h.subs <==> LeaseOf(ops, s) != Never)
            && (forall id :: Registered(h, id, s) <==> LeaseOf(ops, s) == Open(id))
    decreases |ops|
  {
    if ops != [] {
      var prefix, op := ops[..|ops| - 1], ops[|ops| - 1];
      LeaseMatches(prefix, s);
      Safety(prefix);
      var h := Run(prefix);
      if s in h.subs {
        assert SubOk(h, s);
        forall id | Registered(h, id, s)
          ensures h.subs[s].topic == id && !h.subs[s].closed
        {
          assert TopicOk(h, id);
        }
      }
    }
  }

  /** What was published to the subscriber's transfer while its lease was open, with the number then pending. */
  ghost function Offered<S, E>(ops: seq<Op<S, E>>, s: S): (r: seq<(E, nat)>)
    decreases |ops|
  {
    if ops == [] then []
    else
      var prefix, op := ops[..|ops| - 1], ops[|ops| - 1];
      var h := Run(prefix);
      Offered(prefix, s) +
      if op.Publish? && LeaseOf(prefix, s) == Open(op.topic) && s in h.subs
      then [(op.event, |h.subs[s].buffer|)] else []
  }

  /** The events that found room. */
  function Accepted<E>(offers: seq<(E, nat)>): (r: seq<E>) {
    if offers == [] then []
    else
      var n := |offers| - 1;
      Accepted(offers[..n]) + if offers[n].1 < 16 then [offers[n].0] else []
  }

  lemma AcceptedExtend<E>(offers: seq<(E, nat)>, offer: (E, nat))
    ensures Accepted(offers + [offer]) == Accepted(offers) + if offer.1 < 16 then [offer.0] else []
  {
    assert (offers + [offer])[..|offers|] == offers;
  }

  lemma TakenConserves<E>(c: Sub<E>)
    ensures Taken(c).received + Taken(c).buffer == c.received + c.buffer
  {
    if c.buffer != [] {
      assert [c.buffer[0]] + c.buffer[1..] == c.buffer;
    }
  }

  lemma StepDelivers<S, E>(h: Hub<S, E>, op: Op<S, E>, s: S)
    requires Inv(h) && s in h.subs
    ensures var c, h' := h.subs[s], Step(h, op);
            && s in h'.subs
            && h'.subs[s].received + h'.subs[s].buffer
               == c.received + c.buffer +
                  if op.Publish? && Registered(h, op.topic, s) && |c.buffer| < BUFFER_SIZE then [op.event] else []
  {
    var c := h.subs[s];
    TakenConserves(c);
    assert c.received + c.buffer + [] == c.received + c.buffer;
    if op.Publish? {
      assert (c.received + c.buffer) + [op.event] == c.received + (c.buffer + [op.event]);
    }
  }

  /**
   Delivery: what a subscriber has received, followed by what is buffered for it, is exactly what was published
   to its transfer while it was subscribed, less the events that found 16 already pending.
   */
  lemma {:induction false} Delivery<S, E>(ops: seq<Op<S, E>>, s: S)
    ensures var h := Run(ops);
            if s in h.subs then h.subs[s].received + h.subs[s].buffer == Accepted(Offered(ops, s))
            else Offered(ops, s) == []
    decreases |ops|
  {
    if ops != [] {
      var prefix, op := ops[..|ops| - 1], ops[|ops| - 1];
      var h, before := Run(prefix), Offered(prefix, s);
      Delivery(prefix, s);
      LeaseMatches(prefix, s);
      Safety(prefix);
      if s in h.subs {
        StepDelivers(h, op, s);
        if op.Publish? && Registered(h, op.topic, s) {
          AcceptedExtend(before, (op.event, |h.subs[s].buffer|));
        } else {
          assert Offered(ops, s) == before + [] == before;
        }
      }
    }
  }

  /** `xs` can be got from `ys` by leaving elements out. */
  ghost predicate Subsequence<E>(xs: seq<E>, ys: seq<E>) {
    || xs == []
    || (ys != [] && Subsequence(xs, ys[..|ys| - 1]))
    || (ys != [] && xs[|xs| - 1] == ys[|ys| - 1] && Subsequence(xs[..|xs| - 1], ys[..|ys| - 1]))
  }

  function Events<E>(offers: seq<(E, nat)>): seq<E> {
    if offers == [] then [] else Events(offers[..|offers| - 1]) + [offers[|offers| - 1].0]
  }

  lemma SubsequenceExtend<E>(xs: seq<E>, ys: seq<E>, y: E)
    requires Subsequence(xs, ys)
    ensures Subsequence(xs, ys + [y]) && Subsequence(xs + [y], ys + [y])
  {
    assert (xs + [y])[..|xs|] == xs && (ys + [y])[..|ys|] == ys;
  }

  /** The accepted events are in the order of publication. */
  lemma {:induction false} AcceptedInOrder<E>(offers: seq<(E, nat)>)
    ensures Subsequence(Accepted(offers), Events(offers))
    decreases |offers|
  {
    if offers != [] {
      var n := |offers| - 1;
      var xs, ys, y := Accepted(offers[..n]), Events(offers[..n]), offers[n].0;
      AcceptedInOrder(offers[..n]);
      SubsequenceExtend(xs, ys, y);
      assert xs + [] == xs;
    }
  }

  function RunFrom<S, E>(h: Hub<S, E>, ops: seq<Op<S, E>>): Hub<S, E>
    decreases |ops|
  {
    if ops == [] then h else RunFrom(Step(h, ops[0]), ops[1..])
  }

  lemma {:induction false} RunFromConcat<S, E>(h: Hub<S, E>, ops: seq<Op<S, E>>, more: seq<Op<S, E>>)
    ensures RunFrom(h, ops + more) == RunFrom(RunFrom(h, ops), more)
    decreases |ops|
  {
    if ops == [] {
      assert ops + more == more;
    } else {
      assert (ops + more)[1..] == ops[1..] + more;
      RunFromConcat(Step(h, ops[0]), ops[1..], more);
    }
  }

  lemma {:induction false} RunInTwo<S, E>(ops: seq<Op<S, E>>, later: seq<Op<S, E>>)
    ensures Run(ops + later) == RunFrom(Run(ops), later)
    decreases |later|
  {
    if later == [] {
      assert ops + later == ops;
    } else {
      assert (ops + [later[0]])[..|ops|] == ops;
      RunInTwo(ops + [later[0]], later[1..]);
      assert ops + [later[0]] + later[1..] == ops + later;
    }
  }

  ghost function Receipts<S, E>(ops: seq<Op<S, E>>, s: S): nat
    decreases |ops|
  {
    if ops == [] then 0 else (if ops[0] == Op<S, E>.Receive(s) then 1 else 0) + Receipts(ops[1..], s)
  }

  lemma ClosedStep<S, E>(h: Hub<S, E>, op: Op<S, E>, s: S)
    requires Inv(h) && s in h.subs && h.subs[s].closed
    ensures var h' := Step(h, op);
            && s in h'.subs && h'.subs[s] == if op == Op<S, E>.Receive(s) then Taken(h.subs[s]) else h.subs[s]
  {
    forall id | id in h.registered
      ensures s !in h.registered[id]
    {
      assert TopicOk(h, id);
    }
  }

  /** Once closed, a subscriber loses nothing and gets nothing more, and enough receives drain its buffer. */
  lemma {:induction false} ClosedConserves<S, E>(h: Hub<S, E>, later: seq<Op<S, E>>, s: S)
    requires Inv(h) && s in h.subs && h.subs[s].closed
    ensures var h' := RunFrom(h, later);
            && s in h'.subs && h'.subs[s].closed
            && h'.subs[s].received + h'.subs[s].buffer == h.subs[s].received + h.subs[s].buffer
            && (Receipts(later, s) >= |h.subs[s].buffer| ==> h'.subs[s].buffer == [])
    decreases |later|
  {
    if later != [] {
      StepKeeps(h, later[0]);
      ClosedStep(h, later[0], s);
      TakenConserves(h.subs[s]);
      ClosedConserves(Step(h, later[0]), later[1..], s);
    }
  }
}
