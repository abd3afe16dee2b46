/** Bounded fanout of live events: every subscriber has a channel of its own, and one that falls behind is
    dropped. Sending on a closed channel and closing a channel twice would stop the daemon; both are
    preconditions here, so they are proved never to happen. */
module EventBus {
  import opened Basics

  datatype Message = Message(kind: string, at: int, data: string)

  /** A buffered channel. Messages that were buffered can still be received after it is closed. */
  class Channel {
    const capacity: nat
    var buffer: seq<Message>
    var open: bool
    /** What was received from it so far, how many messages had been published before it was made, and, once it
        is closed, before it was closed. */
    ghost var received: seq<Message>
    ghost const from: nat
    ghost var until: nat

    constructor (capacity: nat, ghost from: nat)
      ensures this.capacity == capacity && this.from == from && buffer == [] && open && received == []
    {
      this.capacity, this.from := capacity, from;
      buffer, open, received, until := [], true, [], 0;
    }

    method Send(m: Message) returns (sent: bool)
      requires open
      modifies this`buffer
      ensures sent == (|old(buffer)| < capacity)
      ensures buffer == if sent then old(buffer) + [m] else old(buffer)
    {
      sent := |buffer| < capacity;
      if sent {
        buffer := buffer + [m];
      }
    }

    method Close(ghost published: nat)
      requires open
      modifies this`open, this`until
      ensures !open && until == published
    {
      open, until := false, published;
    }

    /** The oldest buffered message, if there is one; without one, whether the channel is closed. */
    method Receive() returns (m: Option<Message>, closed: bool)
      modifies this`buffer, this`received
      ensures received + buffer == old(received + buffer)
      ensures m.Some? <==> old(buffer) != []
      ensures m.Some? ==> m.value == old(buffer)[0] && received == old(received) + [m.value]
      ensures m.None? ==> closed == !open && received == old(received) && buffer == []
    {
      if |buffer| == 0 {
        return None, !open;
      }
      m, closed := Some(buffer[0]), false;
      received := received + [buffer[0]];
      buffer := buffer[1..];
    }
  }

  function End(open: bool, until: nat, count: nat): nat { if open then count else until }

  /** Received and buffered messages together are exactly those published while it was open. */
  ghost predicate Complete(c: Channel, published: seq<Message>)
    reads c
  {
    && c.from <= End(c.open, c.until, |published|) <= |published|
    && c.received + c.buffer == published[c.from..End(c.open, c.until, |published|)]
    && |c.buffer| <= c.capacity
  }

  lemma ClosedComplete(c: Channel, published: seq<Message>, m: Message)
    requires Complete(c, published) && !c.open
    ensures Complete(c, published + [m])
  {
  }

  /** Where a channel stands while a message goes round: still to be served, or served. */
  ghost predicate Served(c: Channel, m: Message, before: seq<Message>, waiting: bool, subscribed: bool, was: bool,
                         buffer: seq<Message>, received: seq<Message>)
    reads c
  {
    && c.received == received && c.open == subscribed
    && if waiting then Complete(c, before) && c.buffer == buffer && subscribed && was
       else Complete(c, before + [m]) && (subscribed <==> was && |buffer| < c.capacity)
            && c.buffer == buffer + (if subscribed then [m] else [])
  }

  lemma OpenComplete(c: Channel, published: seq<Message>)
    requires Complete(c, published) && c.open
    ensures c.from <= |published| && c.received + c.buffer == published[c.from..] && |c.buffer| <= c.capacity
  {
  }

  lemma JustClosed(c: Channel, published: seq<Message>)
    requires c.from <= |published| && c.received + c.buffer == published[c.from..] && |c.buffer| <= c.capacity
    requires !c.open && c.until == |published|
    ensures Complete(c, published)
  {
  }

  lemma SentComplete(c: Channel, before: seq<Message>, m: Message, sent: bool, buffer: seq<Message>)
    requires c.from <= |before| && c.received + buffer == before[c.from..] && |buffer| <= c.capacity
    requires sent == (|buffer| < c.capacity) && c.open == sent && (!sent ==> c.until == |before|)
    requires c.buffer == if sent then buffer + [m] else buffer
    ensures Complete(c, before + [m])
  {
    assert (before + [m])[c.from..] == before[c.from..] + [m];
    assert c.received + (buffer + [m]) == c.received + buffer + [m];
  }

  /** Sends to one subscriber, and closes its channel when it is full. */
  method Deliver(c: Channel, m: Message, ghost before: seq<Message>, ghost buffer: seq<Message>, ghost received: seq<Message>)
    returns (sent: bool)
    requires Served(c, m, before, true, true, true, buffer, received)
    modifies c
    ensures Served(c, m, before, false, sent, true, buffer, received)
  {
    OpenComplete(c, before);
    sent := c.Send(m);
    if !sent {
      c.Close(|before|);
    }
    SentComplete(c, before, m, sent, buffer);
  }

  /** What waits in, and what was received from, each channel. */
  ghost function Buffers(channels: seq<Channel>): (r: seq<seq<Message>>)
    reads channels
    ensures |r| == |channels| && forall i :: 0 <= i < |r| ==> r[i] == channels[i].buffer
  {
    seq(|channels|, i requires 0 <= i < |channels| reads channels => channels[i].buffer)
  }

  ghost function Receiveds(channels: seq<Channel>): (r: seq<seq<Message>>)
    reads channels
    ensures |r| == |channels| && forall i :: 0 <= i < |r| ==> r[i] == channels[i].received
  {
    seq(|channels|, i requires 0 <= i < |channels| reads channels => channels[i].received)
  }

  /** A channel is registered exactly when it is open, and every channel is complete. */
  ghost predicate ChannelsRight(channels: seq<Channel>, subs: set<nat>, published: seq<Message>)
    reads channels
  {
    && Different(channels)
    && (forall id :: 0 <= id < |channels| ==> (channels[id].open <==> id in subs))
    && (forall id :: 0 <= id < |channels| ==> Complete(channels[id], published))
  }

  lemma ChannelsMore(channels: seq<Channel>, subs: set<nat>, published: seq<Message>, c: Channel)
    requires ChannelsRight(channels, subs, published) && c !in channels && forall id :: id in subs ==> id < |channels|
    requires c.open && c.from == |published| && c.received == [] && c.buffer == []
    ensures ChannelsRight(channels + [c], subs + {|channels|}, published)
  {
    hide Complete;
    NewComplete(c, published);
    forall i | 0 <= i < |channels| ensures channels[i] != c {
      assert channels[i] in channels;
    }
  }

  lemma NewComplete(c: Channel, published: seq<Message>)
    requires c.open && c.from == |published| && c.received == [] && c.buffer == []
    ensures Complete(c, published)
  {
  }

  predicate Different(channels: seq<Channel>) { forall i, j :: 0 <= i < j < |channels| ==> channels[i] != channels[j] }

  ghost predicate AllServed(all: seq<Channel>, m: Message, before: seq<Message>, rest: set<nat>, subs: set<nat>,
                            was: set<nat>, buffers: seq<seq<Message>>, received: seq<seq<Message>>)
    requires |buffers| == |received| == |all|
    reads all
  {
    forall id :: 0 <= id < |all| ==>
      Served(all[id], m, before, id in rest, id in subs, id in was, buffers[id], received[id])
  }

  lemma NoneServed(all: seq<Channel>, m: Message, before: seq<Message>, subs: set<nat>,
                   buffers: seq<seq<Message>>, received: seq<seq<Message>>)
    requires |buffers| == |received| == |all|
    requires ChannelsRight(all, subs, before)
    requires forall id :: 0 <= id < |all| ==> all[id].buffer == buffers[id] && all[id].received == received[id]
    ensures AllServed(all, m, before, subs, subs, subs, buffers, received) && Different(all)
  {
    hide Complete;
    forall id | 0 <= id < |all|
      ensures Served(all[id], m, before, id in subs, id in subs, id in subs, buffers[id], received[id])
    {
      if id !in subs {
        ClosedComplete(all[id], before, m);
      }
    }
  }

  lemma AllAreServed(all: seq<Channel>, m: Message, before: seq<Message>, subs: set<nat>, was: set<nat>,
                     buffers: seq<seq<Message>>, received: seq<seq<Message>>)
    requires |buffers| == |received| == |all| && AllServed(all, m, before, {}, subs, was, buffers, received)
    requires Different(all)
    ensures ChannelsRight(all, subs, before + [m])
    ensures forall id :: 0 <= id < |all| ==> all[id].received == received[id]
    ensures forall id :: 0 <= id < |all| ==> (id in subs <==> id in was && |buffers[id]| < all[id].capacity)
    ensures forall id :: 0 <= id < |all| ==> all[id].buffer == buffers[id] + (if id in subs then [m] else [])
  {
    hide Complete;
    forall id | 0 <= id < |all|
      ensures Served(all[id], m, before, false, id in subs, id in was, buffers[id], received[id])
    {
    }
  }

  class Bus {
    var nextID: nat
    var subscribers: map<nat, Channel>
    /** Every channel ever made, by its id, and every message ever published. */
    ghost var channels: seq<Channel>
    ghost var published: seq<Message>

    ghost predicate Valid()
      reads this, channels
    {
      && nextID == |channels|
      && (forall id :: id in subscribers ==> id < |channels| && subscribers[id] == channels[id])
      && ChannelsRight(channels, subscribers.Keys, published)
    }

    constructor ()
      ensures Valid() && channels == [] && published == [] && subscribers == map[]
    {
      nextID, subscribers, channels, published := 0, map[], [], [];
    }

    method Subscribe(capacity: int) returns (channel: Channel, cancel: Subscription)
      requires Valid()
      modifies this
      ensures Valid() && published == old(published)
      ensures channels == old(channels) + [channel] && fresh(channel) && fresh(cancel)
      ensures channel.capacity == (if capacity < 1 then 1 else capacity) && channel.from == |published|
      ensures channel.open && channel.received == [] && channel.buffer == []
      ensures cancel.id == old(nextID) && !cancel.used
      ensures subscribers == old(subscribers)[cancel.id := channel]
    {
      hide ChannelsRight, Complete, Different;
      var n: nat := if capacity < 1 then 1 else capacity;
      ghost var before, subs := channels, subscribers.Keys;
      var id := nextID;
      nextID := nextID + 1;
      channel := new Channel(n, |published|);
      subscribers := subscribers[id := channel];
      channels := channels + [channel];
      ChannelsMore(before, subs, published, channel);
      assert subscribers.Keys == subs + {id};
      cancel := new Subscription(id);
    }

    /** Cancelling takes effect once; after that, or when the subscriber was dropped before, nothing happens. */
    method Cancel(s: Subscription)
      requires Valid() && s.id < |channels|
      modifies this, channels[s.id], s
      ensures Valid() && s.used && published == old(published) && channels == old(channels)
      ensures subscribers == if old(s.used) then old(subscribers) else old(subscribers) - {s.id}
      ensures channels[s.id].buffer == old(channels[s.id].buffer) && channels[s.id].received == old(channels[s.id].received)
      ensures channels[s.id].open == (s.id in subscribers)
    {
      if s.used {
        return;
      }
      s.used := true;
      var id := s.id;
      if id in subscribers {
        Remove(id);
      }
    }

    method Remove(id: nat)
      requires Valid() && id in subscribers
      modifies this`subscribers, channels[id]
      ensures Valid() && subscribers == old(subscribers) - {id}
      ensures channels[id].buffer == old(channels[id].buffer) && channels[id].received == old(channels[id].received)
      ensures !channels[id].open
    {
      var current := subscribers[id];
      assert forall i :: 0 <= i < |channels| && i != id ==> channels[i] != current && Complete(channels[i], published);
      OpenComplete(current, published);
      hide Complete;
      current.Close(|published|);
      JustClosed(current, published);
      subscribers := subscribers - {id};
    }

    /** Every open channel with room gets the message; one without is closed and removed. */
    method Publish(m: Message)
      requires Valid()
      modifies this, channels
      ensures Valid() && published == old(published) + [m] && channels == old(channels) && nextID == old(nextID)
      ensures forall id :: 0 <= id < |channels| ==>
                (id in subscribers <==> id in old(subscribers) && |old(Buffers(channels))[id]| < channels[id].capacity)
      ensures forall id :: 0 <= id < |channels| ==> channels[id].received == old(Receiveds(channels))[id]
      ensures forall id :: 0 <= id < |channels| ==>
                channels[id].buffer == old(Buffers(channels))[id] + (if id in subscribers then [m] else [])
    {
      ghost var before, was, all := published, subscribers.Keys, channels;
      ghost var buffers, received := Buffers(all), Receiveds(all);
      NoneServed(all, m, before, was, buffers, received);
      hide Complete, Served, AllServed, Different, Buffers, Receiveds, ChannelsRight;
      published := published + [m];
      ServeAll(m, all, before, buffers, received);
      AllAreServed(all, m, before, subscribers.Keys, was, buffers, received);
    }

    method ServeAll(m: Message, ghost all: seq<Channel>, ghost before: seq<Message>, ghost buffers: seq<seq<Message>>,
                    ghost received: seq<seq<Message>>)
      requires |buffers| == |received| == |all| && Different(all)
      requires forall id :: id in subscribers ==> id < |all| && subscribers[id] == all[id]
      requires AllServed(all, m, before, subscribers.Keys, subscribers.Keys, subscribers.Keys, buffers, received)
      modifies this`subscribers, all
      ensures AllServed(all, m, before, {}, subscribers.Keys, old(subscribers.Keys), buffers, received)
      ensures forall id :: id in subscribers ==> id in old(subscribers) && subscribers[id] == all[id]
    {
      hide Complete, Served, AllServed;
      ghost var was := subscribers.Keys;
      var rest := subscribers.Keys;
      while rest != {}
        invariant rest <= subscribers.Keys <= was
        invariant forall id :: id in subscribers ==> id < |all| && subscribers[id] == all[id]
        invariant AllServed(all, m, before, rest, subscribers.Keys, was, buffers, received)
        decreases |rest|
      {
        var id :| id in rest;
        ghost var waiting := rest;
        rest := rest - {id};
        assert rest + {id} == waiting;
        Serve(id, m, all, before, rest, was, buffers, received);
      }
      assert rest == {};
    }

    /** One turn of the loop: serves a subscriber, and removes it when it is full. */
    method Serve(id: nat, m: Message, ghost all: seq<Channel>, ghost before: seq<Message>, ghost rest: set<nat>,
                 ghost was: set<nat>, ghost buffers: seq<seq<Message>>, ghost received: seq<seq<Message>>)
      requires |buffers| == |received| == |all| && id < |all| && id !in rest && Different(all)
      requires id in subscribers && subscribers[id] == all[id]
      requires AllServed(all, m, before, rest + {id}, subscribers.Keys, was, buffers, received)
      modifies this`subscribers, all[id]
      ensures AllServed(all, m, before, rest, subscribers.Keys, was, buffers, received)
      ensures subscribers == old(subscribers) || subscribers == old(subscribers) - {id}
    {
      hide Complete;
      var subscriber := subscribers[id];
      ghost var subs := subscribers.Keys;
      assert Served(all[id], m, before, true, true, id in was, buffers[id], received[id]);
      forall j | 0 <= j < |all| && j != id
        ensures all[j] != subscriber && Served(all[j], m, before, j in rest, j in subs, j in was, buffers[j], received[j]) {
        assert j in rest + {id} <==> j in rest;
      }
      hide Served;
      var sent := Deliver(subscriber, m, before, buffers[id], received[id]);
      if !sent {
        subscribers := subscribers - {id};
      }
      forall j | 0 <= j < |all|
        ensures Served(all[j], m, before, j in rest, j in subscribers.Keys, j in was, buffers[j], received[j])
      {
        if j != id {
          assert j in subscribers.Keys <==> j in subs;
        }
      }
    }

    /** A receiver takes a message; the channel stays complete. */
    method Receive(c: Channel, ghost id: nat) returns (m: Option<Message>, closed: bool)
      requires Valid() && id < |channels| && channels[id] == c
      modifies c`buffer, c`received
      ensures Valid() && published == old(published) && subscribers == old(subscribers)
      ensures m.Some? ==> c.from + |old(c.received)| < |published| && m.value == published[c.from + |old(c.received)|]
      ensures m.None? ==> closed == (id !in subscribers)
    {
      assert Complete(c, published);
      m, closed := c.Receive();
      if m.Some? {
        assert old(c.received + c.buffer)[|old(c.received)|] == m.value;
      }
    }
  }

  /** What `Subscribe` returns to cancel with. */
  class Subscription {
    const id: nat
    var used: bool

    constructor (id: nat)
      ensures this.id == id && !used
    {
      this.id, used := id, false;
    }
  }
}
