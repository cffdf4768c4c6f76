/** The progress hub on the heap: shared subscriber objects, updated in place, refine the value model. */
module ProgressHub {
  import opened HubSpec

  datatype Received<E> = Event(event: E) | WouldBlock | EndOfStream

  /** One subscriber and its channel. Sending on or closing a closed channel is an error the caller must exclude. */
  class Subscriber<E> {
    ghost const topic: TransferId
    var buffer: seq<E>
    var closed: bool
    var chanClosed: bool
    ghost var received: seq<E>

    ghost function State(): Sub<E>
      reads this
    {
      Sub(topic, buffer, closed, chanClosed, received)
    }

    constructor (ghost id: TransferId)
      ensures State() == NewSub(id)
    {
      topic, buffer, closed, chanClosed, received := id, [], false, false, [];
    }

    method TrySend(e: E)
      requires !chanClosed
      modifies this
      ensures State() == Offer(old(State()), e)
    {
      if |buffer| < BUFFER_SIZE {
        buffer := buffer + [e];
      }
    }

    method CloseChannel()
      requires !chanClosed
      modifies this`chanClosed
      ensures chanClosed
    {
      chanClosed := true;
    }

    method Take() returns (r: Received<E>)
      modifies this
      ensures State() == Taken(old(State()))
      ensures r == if old(buffer) != [] then Event(old(buffer)[0]) else if chanClosed then EndOfStream else WouldBlock
    {
      if |buffer| > 0 {
        r := Event(buffer[0]);
        received, buffer := received + [buffer[0]], buffer[1..];
      } else {
        r := if chanClosed then EndOfStream else WouldBlock;
      }
    }
  }

  lemma PublishedSubs<S, E>(h: Hub<S, E>, id: TransferId, e: E, subs: map<S, Sub<E>>)
    requires subs.Keys == h.subs.Keys
    requires forall s :: s in subs ==> subs[s] == if Registered(h, id, s) then Offer(h.subs[s], e) else h.subs[s]
    ensures subs == DoPublish(h, id, e).subs
  {
  }

  lemma ClosedSubs<S, E>(h: Hub<S, E>, id: TransferId, subs: map<S, Sub<E>>)
    requires subs.Keys == h.subs.Keys
    requires forall s :: s in subs ==>
               subs[s] == if Registered(h, id, s) && !h.subs[s].closed then Closed(h.subs[s]) else h.subs[s]
    ensures subs == DoClose(h, id).subs
  {
  }

  class ProgressHub<E> {
    var subscribers: map<TransferId, set<Subscriber<E>>>
    ghost var all: set<Subscriber<E>>

    ghost function Model(): Hub<Subscriber<E>, E>
      reads this, all
    {
      Hub(subscribers, map s | s in all :: s.State(), false)
    }

    ghost predicate Valid()
      reads this, all
    {
      Inv(Model())
    }

    constructor ()
      ensures Model() == Run<Subscriber<E>, E>([]) && Valid()
    {
      subscribers, all := map[], {};
    }

    method Subscribe(id: TransferId) returns (sub: Subscriber<E>)
      requires Valid()
      modifies this
      ensures fresh(sub) && all == old(all) + {sub}
      ensures Model() == DoSubscribe(old(Model()), sub, id)
      ensures Valid()
    {
      sub := new Subscriber(id);
      ghost var before := Model();
      var subs := if id in subscribers then subscribers[id] else {};
      subscribers := subscribers[id := subs + {sub}];
      all := all + {sub};
      assert Model().subs == DoSubscribe(before, sub, id).subs;
      SubscribeKeeps(before, sub, id);
    }

    /** The closure returned by `Subscribe`; it may be called any number of times. */
    method Unsubscribe(sub: Subscriber<E>, id: TransferId)
      requires Valid() && sub in all && sub.topic == id
      modifies this, sub
      ensures all == old(all) && Model() == DoUnsubscribe(old(Model()), sub)
      ensures Valid()
    {
      ghost var before := Model();
      assert SubOk(before, sub);
      if sub.closed {
        return;
      }
      UnsubscribeKeeps(before, sub);
      sub.closed := true;
      if id in subscribers {
        var rest := subscribers[id] - {sub};
        subscribers := if rest == {} then subscribers - {id} else subscribers[id := rest];
      }
      sub.CloseChannel();
      assert Model().subs == DoUnsubscribe(before, sub).subs;
    }

    method Publish(id: TransferId, e: E)
      requires Valid()
      modifies all
      ensures all == old(all) && Model() == DoPublish(old(Model()), id, e)
      ensures Valid()
    {
      ghost var before := Model();
      PublishKeeps(before, id, e);
      var subs := if id in subscribers then subscribers[id] else {};
      assert id in subscribers ==> TopicOk(before, id);
      assert forall s :: s in subs ==> SubOk(before, s);
      SendAll(subs, e);
      PublishedSubs(before, id, e, Model().subs);
    }

    /** The loop of `Publish` over the subscribers of the transfer. */
    method SendAll(subs: set<Subscriber<E>>, e: E)
      requires forall s :: s in subs ==> !s.chanClosed
      modifies subs
      ensures forall s :: s in subs ==> s.State() == Offer(old(s.State()), e)
    {
      var rest := subs;
      while rest != {}
        invariant rest <= subs
        invariant forall s :: s in rest ==> s.State() == old(s.State())
        invariant forall s :: s in subs && s !in rest ==> s.State() == Offer(old(s.State()), e)
        decreases |rest|
      {
        var s :| s in rest;
        s.TrySend(e);
        rest := rest - {s};
      }
    }

    /** The loop of `CloseTransfer` over the subscribers it has just taken out of the table. */
    method CloseAll(subs: set<Subscriber<E>>)
      requires forall s :: s in subs ==> s.closed == s.chanClosed
      modifies subs
      ensures forall s :: s in subs ==> s.State() == if old(s.closed) then old(s.State()) else Closed(old(s.State()))
    {
      var rest := subs;
      while rest != {}
        invariant rest <= subs
        invariant forall s :: s in rest ==> s.State() == old(s.State())
        invariant forall s :: s in subs && s !in rest ==>
                    s.State() == if old(s.closed) then old(s.State()) else Closed(old(s.State()))
        decreases |rest|
      {
        var s :| s in rest;
        if !s.closed {
          s.closed := true;
          s.CloseChannel();
        }
        rest := rest - {s};
      }
    }

    method CloseTransfer(id: TransferId)
      requires Valid()
      modifies this, all
      ensures all == old(all) && Model() == DoClose(old(Model()), id)
      ensures Valid()
    {
      ghost var before := Model();
      CloseKeeps(before, id);
      if id in subscribers {
        var subs := subscribers[id];
        assert TopicOk(before, id);
        assert forall s :: s in subs ==> SubOk(before, s);
        subscribers := subscribers - {id};
        CloseAll(subs);
      } else {
        assert subscribers - {id} == subscribers;
      }
      ClosedSubs(before, id, Model().subs);
    }

    /** The consumer side: a receive from the channel that `Subscribe` returned. */
    method Receive(sub: Subscriber<E>) returns (r: Received<E>)
      requires Valid() && sub in all
      modifies sub
      ensures Model() == DoReceive(old(Model()), sub)
      ensures r == if old(sub.buffer) != [] then Event(old(sub.buffer)[0])
                   else if sub.chanClosed then EndOfStream else WouldBlock
      ensures Valid()
    {
      ghost var before := Model();
      ReceiveKeeps(before, sub);
      r := sub.Take();
      assert Model().subs == DoReceive(before, sub).subs;
    }
  }
}
