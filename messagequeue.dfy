/** The topic message queue: one dispatcher per topic, each a worker that
    keeps the topic's listener list and serves operations one at a time
    (add a listener, delete a set of them, inform them all of an event,
    shut down). Channels are identities; sending on one is recorded, and an
    operation sent to a worker is served at once. */
module MessageQueue {
  import opened Common
  import Heap

  /** A listener channel, by identity. */
  type Chan = nat

  /** watch.Event: its type and the object it carries. */
  datatype Event = Event(eventType: string, obj: nat)

  /** The operations a worker serves. */
  datatype Operation = OpAdd(ch: Chan) | OpDelete(chans: seq<Chan>) | OpInform(ev: Event) | OpShutdown

  /** The error for an unknown topic. */
  function NoTopic(topic: string): string
  {
    "没有话题" + topic
  }

  /** One delivery of `ev` to each listener of `ls`, in list order. */
  function Deliveries(ls: seq<Chan>, ev: Event): (r: seq<(Chan, Event)>)
    ensures |r| == |ls| && forall i :: 0 <= i < |ls| ==> r[i] == (ls[i], ev)
  {
    if |ls| == 0 then [] else Deliveries(ls[..|ls| - 1], ev) + [(ls[|ls| - 1], ev)]
  }

  /** The set the worker builds from the channels to delete. */
  method DeleteSet(chans: seq<Chan>) returns (del: set<Chan>)
    ensures forall c :: c in del <==> c in chans
  {
    del := {};
    var i := 0;
    while i < |chans|
      invariant 0 <= i <= |chans|
      invariant forall c :: c in del <==> c in chans[..i]
    {
      assert chans[..i + 1] == chans[..i] + [chans[i]];
      del := del + {chans[i]};
      i := i + 1;
    }
    assert chans[..i] == chans;
  }

  /** A sequence whose every element is to be deleted holds nothing else. */
  lemma OnlyDeleted(s: seq<Chan>, del: set<Chan>, c: Chan)
    requires (forall k :: 0 <= k < |s| ==> s[k] in del) && c !in del
    ensures multiset(s)[c] == 0
  {
    assert c !in s;
  }

  /** The two parts of `a` cut at `p` share out its elements. */
  lemma CutCounts(a: seq<Chan>, p: nat, del: set<Chan>, c: Chan)
    requires p <= |a|
    requires (forall k :: 0 <= k < p ==> a[k] !in del) && (forall k :: p <= k < |a| ==> a[k] in del)
    ensures multiset(a[..p])[c] == if c in del then 0 else multiset(a)[c]
  {
    assert a == a[..p] + a[p..];
    assert multiset(a) == multiset(a[..p]) + multiset(a[p..]);
    if c in del {
      assert c !in a[..p];
    } else {
      OnlyDeleted(a[p..], del, c);
    }
  }

  /** opDelete's loop: a listener to be deleted is swapped with the last
      live one and the live part shrinks; the list is cut to it. Exactly
      the listeners to be deleted go, each other listener stays as many
      times as it was there. */
  method SwapDelete(listeners: seq<Chan>, del: set<Chan>) returns (kept: seq<Chan>)
    ensures forall c :: multiset(kept)[c] == if c in del then 0 else multiset(listeners)[c]
    ensures forall k :: 0 <= k < |kept| ==> kept[k] !in del
  {
    var a, p, i := listeners, |listeners|, 0;
    while i < p
      invariant 0 <= i <= p <= |a| && multiset(a) == multiset(listeners)
      invariant forall k :: 0 <= k < i ==> a[k] !in del
      invariant forall k :: p <= k < |a| ==> a[k] in del
      decreases p - i
    {
      if a[i] in del {
        a := Heap.Swap(a, i, p - 1);
        p := p - 1;
      } else {
        i := i + 1;
      }
    }
    kept := a[..p];
    forall c ensures multiset(kept)[c] == if c in del then 0 else multiset(listeners)[c] {
      CutCounts(a, p, del, c);
    }
  }

  /** A topic's worker and the effects of serving it: the events delivered
      to each listener and the listeners closed. */
  class Worker {
    var listeners: seq<Chan>
    var delivered: seq<(Chan, Event)>
    var closed: seq<Chan>
    var running: bool

    constructor()
      ensures listeners == [] && delivered == [] && closed == [] && running
    {
      listeners, delivered, closed, running := [], [], [], true;
    }

    /** opAdd: the new listener goes at the end of the list. */
    method Add(c: Chan)
      requires running
      modifies this
      ensures listeners == old(listeners) + [c]
      ensures delivered == old(delivered) && closed == old(closed) && running
    {
      listeners := listeners + [c];
    }

    /** opDelete: drop every listener among `chans`; the order of the rest
        may change. */
    method Delete(chans: seq<Chan>)
      requires running
      modifies this
      ensures forall c :: multiset(listeners)[c] == if c in chans then 0 else multiset(old(listeners))[c]
      ensures delivered == old(delivered) && closed == old(closed) && running
    {
      var del := DeleteSet(chans);
      listeners := SwapDelete(listeners, del);
    }

    /** opInform: deliver the event once to each listener, in list order. */
    method Inform(ev: Event)
      requires running
      modifies this
      ensures delivered == old(delivered) + Deliveries(listeners, ev)
      ensures listeners == old(listeners) && closed == old(closed) && running
    {
      var d := delivered;
      var i := 0;
      while i < |listeners|
        invariant 0 <= i <= |listeners| && d == delivered + Deliveries(listeners[..i], ev)
      {
        assert listeners[..i + 1][..i] == listeners[..i];
        d := d + [(listeners[i], ev)];
        i := i + 1;
      }
      assert listeners[..i] == listeners;
      delivered := d;
    }

    /** opShutdown: close every listener, in list order, and stop. */
    method Shutdown()
      requires running
      modifies this
      ensures closed == old(closed) + old(listeners) && !running
      ensures listeners == old(listeners) && delivered == old(delivered)
    {
      var c := closed;
      var i := 0;
      while i < |listeners|
        invariant 0 <= i <= |listeners| && c == closed + listeners[..i]
      {
        assert listeners[..i + 1] == listeners[..i] + [listeners[i]];
        c := c + [listeners[i]];
        i := i + 1;
      }
      assert listeners[..i] == listeners;
      closed, running := c, false;
    }

    /** The worker's loop body: serve one operation by its kind. */
    method Serve(op: Operation)
      requires running
      modifies this
      ensures op.OpAdd? ==> listeners == old(listeners) + [op.ch] && running
      ensures op.OpDelete? ==> running && forall c ::
        multiset(listeners)[c] == if c in op.chans then 0 else multiset(old(listeners))[c]
      ensures op.OpInform? ==>
        running && listeners == old(listeners) && delivered == old(delivered) + Deliveries(listeners, op.ev)
      ensures op.OpShutdown? ==> !running && closed == old(closed) + old(listeners) && listeners == old(listeners)
      ensures !op.OpInform? ==> delivered == old(delivered)
      ensures !op.OpShutdown? ==> closed == old(closed)
    {
      match op
      case OpAdd(c) => Add(c);
      case OpDelete(chans) => Delete(chans);
      case OpInform(ev) => Inform(ev);
      case OpShutdown => Shutdown();
    }
  }

  /** messageQueueImpl: the dispatcher of each topic, and the identity the
      next new channel takes. */
  class Queue {
    var dispatchers: map<string, Worker>
    var nextChan: Chan

    /** Each topic has its own running worker. */
    ghost predicate Valid()
      reads this, dispatchers.Values
    {
      && (forall t :: t in dispatchers ==> dispatchers[t].running)
      && (forall t, u :: t in dispatchers && u in dispatchers && t != u ==> dispatchers[t] != dispatchers[u])
    }

    constructor()
      ensures Valid() && dispatchers == map[] && nextChan == 0
    {
      dispatchers, nextChan := map[], 0;
    }

    /** NewTopic: start a worker for a topic that has none; a topic that has
        one keeps it. It never fails. */
    method NewTopic(topic: string) returns (r: Result<()>)
      requires Valid()
      modifies this
      ensures Valid() && r.Ok? && nextChan == old(nextChan)
      ensures topic in old(dispatchers) ==> dispatchers == old(dispatchers)
      ensures topic !in old(dispatchers) ==>
        && dispatchers.Keys == old(dispatchers.Keys) + {topic}
        && (forall t :: t in old(dispatchers) ==> dispatchers[t] == old(dispatchers[t]))
        && fresh(dispatchers[topic])
        && dispatchers[topic].listeners == [] && dispatchers[topic].delivered == [] && dispatchers[topic].closed == []
    {
      if topic !in dispatchers {
        var w := new Worker();
        dispatchers := dispatchers[topic := w];
      }
      r := Ok(());
    }

    /** Publish: inform the topic's listeners of the event; an unknown topic
        is an error. */
    method Publish(topic: string, ev: Event) returns (r: Result<()>)
      requires Valid()
      modifies dispatchers.Values
      ensures Valid() && dispatchers == old(dispatchers)
      ensures topic !in dispatchers ==> r == Err(NoTopic(topic))
      ensures topic in dispatchers ==> r.Ok?
      ensures topic in dispatchers ==> var w := dispatchers[topic];
        w.listeners == old(w.listeners) && w.delivered == old(w.delivered) + Deliveries(w.listeners, ev)
      ensures forall t :: t in dispatchers && t != topic ==>
        dispatchers[t].listeners == old(dispatchers[t].listeners) && dispatchers[t].delivered == old(dispatchers[t].delivered)
      ensures forall t :: t in dispatchers ==> dispatchers[t].closed == old(dispatchers[t].closed)
    {
      if topic !in dispatchers {
        return Err(NoTopic(topic));
      }
      dispatchers[topic].Serve(OpInform(ev));
      r := Ok(());
    }

    /** Subscribe: a watcher on a known topic; an unknown topic is an
        error. */
    method Subscribe(topic: string) returns (r: Result<Watcher>)
      requires Valid()
      ensures topic !in dispatchers ==> r == Err(NoTopic(topic))
      ensures topic in dispatchers ==>
        r.Ok? && fresh(r.value) && r.value.channels == [] && r.value.topic == topic && r.value.queue == this
    {
      if topic !in dispatchers {
        return Err(NoTopic(topic));
      }
      var w := new Watcher(topic, this);
      r := Ok(w);
    }

    /** Shutdown: send each worker, in the map iteration order `order`, the
        shutdown operation, and forget every dispatcher. */
    method Shutdown(order: seq<string>)
      requires Valid()
      requires (forall t :: t in dispatchers <==> t in order) && forall i, j :: 0 <= i < j < |order| ==> order[i] != order[j]
      modifies this, dispatchers.Values
      ensures dispatchers == map[] && nextChan == old(nextChan)
      ensures forall t :: t in old(dispatchers) ==>
        var w := old(dispatchers)[t];
        !w.running && w.closed == old(w.closed) + old(w.listeners) && w.listeners == old(w.listeners)
    {
      var i := 0;
      while i < |order|
        invariant 0 <= i <= |order| && dispatchers == old(dispatchers) && nextChan == old(nextChan)
        invariant forall t, u :: t in dispatchers && u in dispatchers && t != u ==> dispatchers[t] != dispatchers[u]
        invariant forall j :: i <= j < |order| ==> dispatchers[order[j]].running
        invariant forall t :: t in dispatchers ==>
          && dispatchers[t].listeners == old(dispatchers[t].listeners)
          && dispatchers[t].closed == (if t in order[..i] then old(dispatchers[t].closed) + old(dispatchers[t].listeners) else old(dispatchers[t].closed))
          && dispatchers[t].running == (t !in order[..i])
      {
        var w := dispatchers[order[i]];
        assert order[..i + 1] == order[..i] + [order[i]];
        w.Serve(OpShutdown);
        i := i + 1;
      }
      assert order[..i] == order;
      dispatchers := map[];
    }
  }

  /** A subscription to a topic: the channels it opened. */
  class Watcher {
    var channels: seq<Chan>
    const topic: string
    const queue: Queue

    constructor(topic: string, queue: Queue)
      ensures channels == [] && this.topic == topic && this.queue == queue
    {
      channels, this.topic, this.queue := [], topic, queue;
    }

    /** ResultChan: open a new channel, register it with the topic's worker
        as a listener and record it. */
    method ResultChan() returns (c: Chan)
      requires queue.Valid() && topic in queue.dispatchers
      modifies this, queue, queue.dispatchers[topic]
      ensures queue.Valid() && queue.dispatchers == old(queue.dispatchers)
      ensures c == old(queue.nextChan) && queue.nextChan == c + 1
      ensures channels == old(channels) + [c]
      ensures var w := queue.dispatchers[topic];
        && w.listeners == old(w.listeners) + [c]
        && w.delivered == old(w.delivered) && w.closed == old(w.closed)
    {
      c := queue.nextChan;
      queue.nextChan := c + 1;
      queue.dispatchers[topic].Serve(OpAdd(c));
      channels := channels + [c];
    }

    /** Stop: delete every channel of this watcher from the topic's
        listeners. */
    method Stop()
      requires queue.Valid() && topic in queue.dispatchers
      modifies queue.dispatchers[topic]
      ensures queue.Valid()
      ensures var w := queue.dispatchers[topic];
        && (forall c :: multiset(w.listeners)[c] == if c in channels then 0 else multiset(old(w.listeners))[c])
        && w.delivered == old(w.delivered) && w.closed == old(w.closed) && w.running
    {
      queue.dispatchers[topic].Serve(OpDelete(channels));
    }
  }
}
