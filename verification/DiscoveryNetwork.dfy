/**
 * Discovery as a whole: nodes that announce their MQTT subscriptions through a broker which
 * keeps one retained message per client and delivers to each connected node in order.
 *
 * Convergence: a node that has received everything counts exactly the matching subscriptions of
 * the connected nodes, plus what it still remembers of clients that left while it was away.
 */
module DiscoveryNetwork {
  import opened Totals
  import opened Handles
  import opened Discovery

  datatype Message = Message(from: ClientId, payload: Payload)

  // `stale` records the remote entries kept from before the last reconnection of this node.
  datatype View = View(remote: map<ClientId, Blob>, stale: set<ClientId>)

  datatype Node = Node(my: map<Handle, Topic>, blobs: map<Protocol, Blob>, view: View, online: bool, queue: seq<Message>)

  datatype Net = Net(nodes: map<ClientId, Node>, retained: map<ClientId, map<Protocol, Blob>>)

  datatype Event =
    | Start(id: ClientId, order: seq<ClientId>)   // order of the retained messages delivered
    | Subscribe(id: ClientId, handle: Handle, topic: Topic)
    | Unsubscribe(id: ClientId, handle: Handle)
    | UpdateOther(id: ClientId, protocol: Protocol, blob: Blob)
    | Stop(id: ClientId)
    | Crash(id: ClientId)                          // the broker publishes the will
    | Deliver(id: ClientId)

  function Online(net: Net): set<ClientId> {
    set id | id in net.nodes && net.nodes[id].online
  }

  ghost predicate Permutation(order: seq<ClientId>, keys: set<ClientId>) {
    && (forall id :: id in order <==> id in keys)
    && (forall i, j :: 0 <= i < j < |order| ==> order[i] != order[j])
  }

  ghost predicate Enabled(net: Net, e: Event) {
    match e
    case Start(id, order) => id !in Online(net) && Permutation(order, net.retained.Keys)
    case Subscribe(id, h, _) => id in Online(net) && h !in net.nodes[id].my
    case Unsubscribe(id, h) => id in Online(net) && h in net.nodes[id].my
    case UpdateOther(id, protocol, _) => id in Online(net) && protocol != MQTT
    case Stop(id) => id in Online(net)
    case Crash(id) => id in Online(net)
    case Deliver(id) => id in Online(net) && net.nodes[id].queue != []
  }

  // The effect of one message on a node; its own messages are ignored.
  function See(self: ClientId, v: View, m: Message): View {
    if m.from == self || (m.payload.Join? && MQTT !in m.payload.blobs) then v
    else View(Heard(v.remote, m.from, m.payload), v.stale - {m.from})
  }

  function SeeAll(self: ClientId, v: View, queue: seq<Message>): View
    decreases |queue|
  {
    if queue == [] then v else SeeAll(self, See(self, v, queue[0]), queue[1..])
  }

  // The view a node will have once its queue is empty.
  function Settled(net: Net, id: ClientId): View
    requires id in net.nodes
  {
    SeeAll(id, net.nodes[id].view, net.nodes[id].queue)
  }

  function Broadcast(nodes: map<ClientId, Node>, m: Message): map<ClientId, Node> {
    map id | id in nodes ::
      if nodes[id].online then nodes[id].(queue := nodes[id].queue + [m]) else nodes[id]
  }

  // UpdateDiscoveryMsg: the blob is stored, published and retained.
  function Publish(net: Net, id: ClientId, protocol: Protocol, blob: Blob): Net
    requires id in net.nodes
  {
    var blobs := net.nodes[id].blobs[protocol := blob];
    Net(Broadcast(net.nodes[id := net.nodes[id].(blobs := blobs)], Message(id, Join(blobs))), net.retained[id := blobs])
  }

  function Retained(order: seq<ClientId>, retained: map<ClientId, map<Protocol, Blob>>): seq<Message>
    requires forall id <- order :: id in retained
  {
    if order == [] then [] else [Message(order[0], Join(retained[order[0]]))] + Retained(order[1..], retained)
  }

  ghost function Step(net: Net, e: Event): Net
    requires Enabled(net, e)
  {
    match e
    case Start(id, order) =>
      var queue := Retained(order, net.retained);
      var node :=
        if id in net.nodes then
          var n := net.nodes[id];
          Node(n.my, n.blobs, View(n.view.remote, n.view.remote.Keys), true, queue)
        else Node(map[], map[], View(map[], {}), true, queue);
      net.(nodes := net.nodes[id := node])
    case Subscribe(id, h, topic) =>
      var my := net.nodes[id].my[h := topic];
      Publish(net.(nodes := net.nodes[id := net.nodes[id].(my := my)]), id, MQTT, TopicsOf(my))
    case Unsubscribe(id, h) =>
      var my := net.nodes[id].my - {h};
      Publish(net.(nodes := net.nodes[id := net.nodes[id].(my := my)]), id, MQTT, TopicsOf(my))
    case UpdateOther(id, protocol, blob) => Publish(net, id, protocol, blob)
    case Stop(id) =>
      var nodes := net.nodes[id := net.nodes[id].(online := false, queue := [])];
      Net(Broadcast(Broadcast(nodes, Message(id, WillLeave)), Message(id, WillLeave)), net.retained - {id})
    case Crash(id) =>
      Net(Broadcast(net.nodes - {id}, Message(id, WillLeave)), net.retained - {id})
    case Deliver(id) =>
      var n := net.nodes[id];
      net.(nodes := net.nodes[id := n.(view := See(id, n.view, n.queue[0]), queue := n.queue[1..])])
  }

  ghost predicate Run(net: Net, es: seq<Event>, net': Net)
    decreases |es|
  {
    if es == [] then net == net' else Enabled(net, es[0]) && Run(Step(net, es[0]), es[1..], net')
  }

  // ---------------------------------------------------------------- the invariant

  // Retained message, stored blobs and subscription table of a client.
  ghost predicate Publisher(net: Net, id: ClientId) {
    && (id in net.retained ==> id in Online(net) && net.retained[id] == net.nodes[id].blobs)
    && (id in net.nodes ==>
          var n := net.nodes[id];
          && (MQTT in n.blobs ==> n.blobs[MQTT] == TopicsOf(n.my))
          && (MQTT !in n.blobs ==> n.my == map[]))
  }

  // What a view holds of a client is what the broker retains of it, or a leftover.
  ghost predicate Reflects(v: View, id: ClientId, retained: map<ClientId, map<Protocol, Blob>>) {
    if id in retained && MQTT in retained[id] then
      id in v.remote && v.remote[id] == retained[id][MQTT] && id !in v.stale
    else id in v.remote ==> id in v.stale
  }

  ghost predicate Observer(net: Net, self: ClientId, other: ClientId) {
    self in Online(net) ==>
      var v := Settled(net, self);
      if self == other then self !in v.remote else Reflects(v, other, net.retained)
  }

  ghost predicate OwnAbsent(net: Net, id: ClientId) {
    id in net.nodes ==> id !in net.nodes[id].view.remote
  }

  ghost predicate Consistent(net: Net) {
    && (forall id :: Publisher(net, id))
    && (forall id :: OwnAbsent(net, id))
    && (forall self, other :: Observer(net, self, other))
  }

  lemma {:induction false} SeeAllAppend(self: ClientId, v: View, queue: seq<Message>, m: Message)
    ensures SeeAll(self, v, queue + [m]) == See(self, SeeAll(self, v, queue), m)
    decreases |queue|
  {
    if queue == [] {
      assert queue + [m] == [m];
      assert SeeAll(self, See(self, v, m), [m][1..]) == See(self, v, m);
    } else {
      assert (queue + [m])[1..] == queue[1..] + [m];
      SeeAllAppend(self, See(self, v, queue[0]), queue[1..], m);
    }
  }

  // The retained messages bring a new view up to date, whatever their order.
  lemma {:induction false} RetainedReflected(self: ClientId, v: View, order: seq<ClientId>,
                                             retained: map<ClientId, map<Protocol, Blob>>, other: ClientId)
    requires forall id <- order :: id in retained
    requires forall i, j :: 0 <= i < j < |order| ==> order[i] != order[j]
    requires self !in v.remote
    requires other != self && other !in order ==> Reflects(v, other, retained)
    requires other in v.remote && (other !in retained || MQTT !in retained[other]) ==> other in v.stale
    ensures var v' := SeeAll(self, v, Retained(order, retained));
      if self == other then self !in v'.remote else Reflects(v', other, retained)
    decreases |order|
  {
    if order != [] {
      var m := Message(order[0], Join(retained[order[0]]));
      assert Retained(order, retained)[1..] == Retained(order[1..], retained);
      assert order == [order[0]] + order[1..];
      RetainedReflected(self, See(self, v, m), order[1..], retained, other);
    }
  }

  // ---------------------------------------------------------------- every step keeps it

  // Publishing brings every settled view to the new retained message.
  lemma PublishObserved(net: Net, id: ClientId, protocol: Protocol, blob: Blob, self: ClientId, other: ClientId)
    requires id in Online(net) && Observer(net, self, other)
    requires id in net.retained ==> net.retained[id] == net.nodes[id].blobs
    ensures Observer(Publish(net, id, protocol, blob), self, other)
  {
    var net' := Publish(net, id, protocol, blob);
    var m := Message(id, Join(net.nodes[id].blobs[protocol := blob]));
    if self in Online(net') {
      assert self in Online(net);
      SeeAllAppend(self, net.nodes[self].view, net.nodes[self].queue, m);
      assert Settled(net', self) == See(self, Settled(net, self), m);
    }
  }

  lemma PublishKeeps(net: Net, id: ClientId, protocol: Protocol, blob: Blob)
    requires id in Online(net)
    requires forall x :: x != id ==> Publisher(net, x)
    requires forall x :: OwnAbsent(net, x)
    requires forall self, other :: Observer(net, self, other)
    requires id in net.retained ==> net.retained[id] == net.nodes[id].blobs
    requires if protocol == MQTT then blob == TopicsOf(net.nodes[id].my) else Publisher(net, id)
    ensures Consistent(Publish(net, id, protocol, blob))
  {
    var net' := Publish(net, id, protocol, blob);
    forall x ensures Publisher(net', x) {
      assert x != id ==> Publisher(net, x);
    }
    forall x ensures OwnAbsent(net', x) {
      assert OwnAbsent(net, x);
    }
    forall self, other ensures Observer(net', self, other) {
      PublishObserved(net, id, protocol, blob, self, other);
    }
  }

  lemma SubscribeKeeps(net: Net, id: ClientId, my: map<Handle, Topic>)
    requires Consistent(net) && id in Online(net)
    ensures Consistent(Publish(net.(nodes := net.nodes[id := net.nodes[id].(my := my)]), id, MQTT, TopicsOf(my)))
  {
    var net' := net.(nodes := net.nodes[id := net.nodes[id].(my := my)]);
    assert Publisher(net, id);
    forall x ensures x != id ==> Publisher(net', x) {
      assert Publisher(net, x);
    }
    forall x ensures OwnAbsent(net', x) {
      assert OwnAbsent(net, x);
    }
    forall self, other ensures Observer(net', self, other) {
      assert Observer(net, self, other);
    }
    PublishKeeps(net', id, MQTT, TopicsOf(my));
  }

  lemma StartKeeps(net: Net, id: ClientId, order: seq<ClientId>)
    requires Consistent(net) && Enabled(net, Start(id, order))
    ensures Consistent(Step(net, Start(id, order)))
  {
    var net' := Step(net, Start(id, order));
    assert OwnAbsent(net, id) && Publisher(net, id);
    forall x ensures Publisher(net', x) {
      assert Publisher(net, x);
    }
    forall x ensures OwnAbsent(net', x) {
      assert OwnAbsent(net, x);
    }
    forall self, other ensures Observer(net', self, other) {
      assert Observer(net, self, other);
      if self == id {
        RetainedReflected(id, net'.nodes[id].view, order, net.retained, other);
      }
    }
  }

  // Stop and Crash: the client is out of every settled view.
  lemma LeaveObserved(net: Net, nodes: map<ClientId, Node>, id: ClientId, self: ClientId, other: ClientId)
    requires Observer(net, self, other)
    requires self in nodes && nodes[self].online ==> self != id && self in net.nodes && nodes[self] == net.nodes[self]
    ensures
      var m := Message(id, WillLeave);
      var once := Broadcast(nodes, m);
      && Observer(Net(once, net.retained - {id}), self, other)
      && Observer(Net(Broadcast(once, m), net.retained - {id}), self, other)
  {
    if self in nodes && nodes[self].online {
      var m := Message(id, WillLeave);
      var n := nodes[self];
      SeeAllAppend(self, n.view, n.queue, m);
      SeeAllAppend(self, n.view, n.queue + [m], m);
    }
  }

  lemma StopKeeps(net: Net, id: ClientId)
    requires Consistent(net) && Enabled(net, Stop(id))
    ensures Consistent(Step(net, Stop(id)))
  {
    var net' := Step(net, Stop(id));
    var nodes := net.nodes[id := net.nodes[id].(online := false, queue := [])];
    forall x ensures Publisher(net', x) {
      assert Publisher(net, x);
    }
    forall x ensures OwnAbsent(net', x) {
      assert OwnAbsent(net, x);
    }
    forall self, other ensures Observer(net', self, other) {
      LeaveObserved(net, nodes, id, self, other);
    }
  }

  lemma CrashKeeps(net: Net, id: ClientId)
    requires Consistent(net) && Enabled(net, Crash(id))
    ensures Consistent(Step(net, Crash(id)))
  {
    var net' := Step(net, Crash(id));
    forall x ensures Publisher(net', x) {
      assert Publisher(net, x);
    }
    forall x ensures OwnAbsent(net', x) {
      assert OwnAbsent(net, x);
    }
    forall self, other ensures Observer(net', self, other) {
      LeaveObserved(net, net.nodes - {id}, id, self, other);
    }
  }

  lemma DeliverKeeps(net: Net, id: ClientId)
    requires Consistent(net) && Enabled(net, Deliver(id))
    ensures Consistent(Step(net, Deliver(id)))
  {
    var net' := Step(net, Deliver(id));
    forall x ensures Publisher(net', x) {
      assert Publisher(net, x);
    }
    forall x ensures OwnAbsent(net', x) {
      assert OwnAbsent(net, x);
    }
    forall self, other ensures Observer(net', self, other) {
      assert Observer(net, self, other);
      if self in Online(net') {
        assert Settled(net', self) == Settled(net, self);
      }
    }
  }

  lemma StepKeeps(net: Net, e: Event)
    requires Consistent(net) && Enabled(net, e)
    ensures Consistent(Step(net, e))
  {
    match e
    case Start(id, order) => StartKeeps(net, id, order);
    case Subscribe(id, h, topic) => SubscribeKeeps(net, id, net.nodes[id].my[h := topic]);
    case Unsubscribe(id, h) => SubscribeKeeps(net, id, net.nodes[id].my - {h});
    case UpdateOther(id, protocol, blob) =>
      assert Publisher(net, id);
      PublishKeeps(net, id, protocol, blob);
    case Stop(id) => StopKeeps(net, id);
    case Crash(id) => CrashKeeps(net, id);
    case Deliver(id) => DeliverKeeps(net, id);
  }

  lemma {:induction false} RunKeeps(net: Net, es: seq<Event>, net': Net)
    requires Consistent(net) && Run(net, es, net')
    ensures Consistent(net')
    decreases |es|
  {
    if es != [] {
      StepKeeps(net, es[0]);
      RunKeeps(Step(net, es[0]), es[1..], net');
    }
  }

  // ---------------------------------------------------------------- convergence

  // The subscriptions of all connected nodes.
  ghost function Subscriptions(net: Net): map<ClientId, seq<Topic>> {
    map id | id in net.nodes && net.nodes[id].online :: TopicsOf(net.nodes[id].my)
  }

  // What MQDiscoveryHandler.CountSubscriber returns at a node.
  ghost function Count(net: Net, id: ClientId, fits: Topic -> bool): nat
    requires id in net.nodes
  {
    CountFits(TopicsOf(net.nodes[id].my), fits) + Total(net.nodes[id].view.remote, fits)
  }

  // Connected nodes of which the broker retains no topics: they have announced none since they
  // connected, whatever they held on to when they stopped before.
  function Silent(net: Net): set<ClientId> {
    set c | c in net.nodes && net.nodes[c].online && !(c in net.retained && MQTT in net.retained[c])
  }

  // The subscriptions the other silent nodes still have.
  ghost function Unannounced(net: Net, id: ClientId): map<ClientId, seq<Topic>> {
    Only(Subscriptions(net) - {id}, Silent(net))
  }

  // After any run, a node that has received everything counts the matching subscriptions of all
  // connected nodes, but for those that others have not announced again after a stop, plus the
  // leftovers of clients that left while it was disconnected itself.
  lemma Convergence(es: seq<Event>, net: Net, id: ClientId, fits: Topic -> bool)
    requires Run(Net(map[], map[]), es, net)
    requires id in Online(net) && net.nodes[id].queue == []
    ensures
      var v := net.nodes[id].view;
      Count(net, id, fits) + Total(Unannounced(net, id), fits)
        == Total(Subscriptions(net), fits) + Total(Only(v.remote, v.stale), fits)
  {
    RunKeeps(Net(map[], map[]), es, net);
    var v := net.nodes[id].view;
    var all := Subscriptions(net);
    TotalSplit(v.remote, v.stale, fits);
    TotalWithout(all, fits, id);
    TotalSplit(all - {id}, Silent(net), fits);
    forall k ensures Filters(v.remote - v.stale, k) == Filters(all - {id} - Silent(net), k) {
      assert Publisher(net, k) && Observer(net, id, k) && Settled(net, id) == v;
    }
    TotalSame(v.remote - v.stale, all - {id} - Silent(net), fits);
  }

  // A run in which nodes stop only after their own subscriptions have gone, as
  // AITT::Disconnect sees to.
  ghost predicate Clean(net: Net, es: seq<Event>)
    decreases |es|
  {
    es != [] && Enabled(net, es[0]) ==>
      && (es[0].Stop? ==> net.nodes[es[0].id].my == map[])
      && Clean(Step(net, es[0]), es[1..])
  }

  // Then a node without retained topics has no subscriptions.
  ghost predicate NothingHeldBack(net: Net) {
    forall id :: id in net.nodes && id !in net.retained ==> net.nodes[id].my == map[]
  }

  lemma {:induction false} CleanRun(net: Net, es: seq<Event>, net': Net)
    requires Run(net, es, net') && Clean(net, es) && NothingHeldBack(net)
    ensures NothingHeldBack(net')
    decreases |es|
  {
    if es != [] {
      CleanStep(net, es[0]);
      CleanRun(Step(net, es[0]), es[1..], net');
    }
  }

  lemma CleanStep(net: Net, e: Event)
    requires Enabled(net, e) && NothingHeldBack(net) && (e.Stop? ==> net.nodes[e.id].my == map[])
    ensures NothingHeldBack(Step(net, e))
  {
  }

  lemma NoneUnannounced(es: seq<Event>, net: Net, id: ClientId, fits: Topic -> bool)
    requires Run(Net(map[], map[]), es, net) && Clean(Net(map[], map[]), es)
    ensures Total(Unannounced(net, id), fits) == 0
  {
    CleanRun(Net(map[], map[]), es, net);
    RunKeeps(Net(map[], map[]), es, net);
    var none := Unannounced(net, id);
    TotalZero(none, fits);
    forall c | c in none ensures CountFits(none[c], fits) == 0 {
      assert Publisher(net, c);
      assert none[c] == [];
    }
  }

  // A node that has never been disconnected has no leftovers.
  lemma FirstConnectionConverges(es: seq<Event>, net: Net, id: ClientId, fits: Topic -> bool)
    requires Run(Net(map[], map[]), es, net) && Clean(Net(map[], map[]), es)
    requires id in Online(net) && net.nodes[id].queue == []
    requires forall e <- es :: e != Stop(id)
    ensures Count(net, id, fits) == Total(Subscriptions(net), fits)
  {
    Convergence(es, net, id, fits);
    NoneUnannounced(es, net, id, fits);
    NeverStale(Net(map[], map[]), es, net, id);
    assert Only(net.nodes[id].view.remote, {}) == map[];
  }

  lemma {:induction false} NeverStale(net: Net, es: seq<Event>, net': Net, id: ClientId)
    requires Run(net, es, net') && forall e <- es :: e != Stop(id)
    requires id in net.nodes ==> net.nodes[id].online && net.nodes[id].view.stale == {}
    ensures id in net'.nodes ==> net'.nodes[id].online && net'.nodes[id].view.stale == {}
    decreases |es|
  {
    if es != [] {
      var next := Step(net, es[0]);
      assert es[0] in es && forall e <- es[1..] :: e in es;
      match es[0] {
        case Stop(other) => assert other != id;
        case Deliver(other) =>
        case _ =>
      }
      assert id in next.nodes ==> next.nodes[id].online && next.nodes[id].view.stale == {};
      NeverStale(Step(net, es[0]), es[1..], net', id);
    }
  }

  // Why leftovers arise: whatever happens while a node is disconnected, it forgets nothing.
  lemma {:induction false} OfflineKeepsView(net: Net, es: seq<Event>, net': Net, id: ClientId)
    requires Run(net, es, net') && forall e <- es :: !(e.Start? && e.id == id)
    requires id in net.nodes && !net.nodes[id].online
    ensures id in net'.nodes && !net'.nodes[id].online && net'.nodes[id].view == net.nodes[id].view
    decreases |es|
  {
    if es != [] {
      assert es[0] in es && forall e <- es[1..] :: e in es;
      OfflineKeepsView(Step(net, es[0]), es[1..], net', id);
    }
  }

  // ---------------------------------------------------------------- what is left over

  // The client tells the others about its MQTT subscriptions, or that it is gone.
  ghost predicate Announces(net: Net, e: Event, c: ClientId) {
    match e
    case Subscribe(id, _, _) => id == c
    case Unsubscribe(id, _) => id == c
    case UpdateOther(id, _, _) => id == c && c in net.nodes && MQTT in net.nodes[c].blobs
    case Stop(id) => id == c
    case Crash(id) => id == c
    case _ => false
  }

  ghost predicate AnnouncedIn(net: Net, es: seq<Event>, c: ClientId)
    decreases |es|
  {
    es != [] && Enabled(net, es[0]) && (Announces(net, es[0], c) || AnnouncedIn(Step(net, es[0]), es[1..], c))
  }

  predicate Interrupts(e: Event, id: ClientId) {
    e == Stop(id) || e == Crash(id) || (e.Start? && e.id == id)
  }

  // Two views hold the same of a client.
  ghost predicate SameOf(v: View, v': View, c: ClientId) {
    && (c in v.stale <==> c in v'.stale)
    && (c in v.remote <==> c in v'.remote)
    && (c in v.remote && c in v'.remote ==> v.remote[c] == v'.remote[c])
  }

  lemma {:induction false} RetainedUpdates(self: ClientId, v: View, order: seq<ClientId>,
                                           retained: map<ClientId, map<Protocol, Blob>>, c: ClientId)
    requires forall id <- order :: id in retained
    requires c != self
    ensures var v' := SeeAll(self, v, Retained(order, retained));
      if c in order && MQTT in retained[c] then c !in v'.stale else SameOf(v, v', c)
    decreases |order|
  {
    if order != [] {
      var m := Message(order[0], Join(retained[order[0]]));
      assert Retained(order, retained)[1..] == Retained(order[1..], retained);
      assert order == [order[0]] + order[1..];
      RetainedUpdates(self, See(self, v, m), order[1..], retained, c);
    }
  }

  // Publishing and leaving of another client, seen from a settled view.
  lemma BroadcastSeen(net: Net, nodes: map<ClientId, Node>, m: Message, id: ClientId, retained: map<ClientId, map<Protocol, Blob>>)
    requires id in Online(net) && id in nodes && nodes[id].online
    requires nodes[id].view == net.nodes[id].view && nodes[id].queue == net.nodes[id].queue
    ensures var net' := Net(Broadcast(nodes, m), retained);
      id in Online(net') && Settled(net', id) == See(id, Settled(net, id), m)
  {
    SeeAllAppend(id, nodes[id].view, nodes[id].queue, m);
  }

  lemma LeftoverPublish(net: Net, net0: Net, from: ClientId, protocol: Protocol, blob: Blob, id: ClientId, c: ClientId)
    requires id in Online(net) && id in Online(net0) && from in net0.nodes && c != id
    requires net0.nodes[id].view == net.nodes[id].view && net0.nodes[id].queue == net.nodes[id].queue
    ensures var net' := Publish(net0, from, protocol, blob);
      && id in Online(net')
      && if from == c && (protocol == MQTT || MQTT in net0.nodes[from].blobs) then c !in Settled(net', id).stale
         else SameOf(Settled(net, id), Settled(net', id), c)
  {
    var blobs := net0.nodes[from].blobs[protocol := blob];
    BroadcastSeen(net, net0.nodes[from := net0.nodes[from].(blobs := blobs)], Message(from, Join(blobs)), id, net0.retained[from := blobs]);
  }

  lemma LeftoverLeave(net: Net, nodes: map<ClientId, Node>, from: ClientId, id: ClientId, c: ClientId)
    requires id in Online(net) && id in nodes && nodes[id] == net.nodes[id] && c != id && from != id
    ensures var m := Message(from, WillLeave);
      var once := Net(Broadcast(nodes, m), net.retained - {from});
      var twice := Net(Broadcast(Broadcast(nodes, m), m), net.retained - {from});
      && id in Online(once) && id in Online(twice)
      && (if from == c then c !in Settled(once, id).stale else SameOf(Settled(net, id), Settled(once, id), c))
      && (if from == c then c !in Settled(twice, id).stale else SameOf(Settled(net, id), Settled(twice, id), c))
  {
    var m := Message(from, WillLeave);
    BroadcastSeen(net, nodes, m, id, net.retained - {from});
    var once := Net(Broadcast(nodes, m), net.retained - {from});
    BroadcastSeen(once, once.nodes, m, id, net.retained - {from});
  }

  // While a node stays connected, what it has left over of a client goes exactly when the client
  // announces something.
  lemma LeftoverStep(net: Net, e: Event, id: ClientId, c: ClientId)
    requires Enabled(net, e) && id in Online(net) && c != id && !Interrupts(e, id)
    ensures var net' := Step(net, e);
      && id in Online(net')
      && if Announces(net, e, c) then c !in Settled(net', id).stale else SameOf(Settled(net, id), Settled(net', id), c)
  {
    match e
    case Subscribe(from, h, topic) =>
      var my := net.nodes[from].my[h := topic];
      LeftoverPublish(net, net.(nodes := net.nodes[from := net.nodes[from].(my := my)]), from, MQTT, TopicsOf(my), id, c);
    case Unsubscribe(from, h) =>
      var my := net.nodes[from].my - {h};
      LeftoverPublish(net, net.(nodes := net.nodes[from := net.nodes[from].(my := my)]), from, MQTT, TopicsOf(my), id, c);
    case UpdateOther(from, protocol, blob) => LeftoverPublish(net, net, from, protocol, blob, id, c);
    case Stop(from) => LeftoverLeave(net, net.nodes[from := net.nodes[from].(online := false, queue := [])], from, id, c);
    case Crash(from) => LeftoverLeave(net, net.nodes - {from}, from, id, c);
    case Start(other, order) => assert Step(net, e).nodes[id] == net.nodes[id];
    case Deliver(other) => assert Settled(Step(net, e), id) == Settled(net, id);
  }

  lemma {:induction false} LeftoverRun(net: Net, es: seq<Event>, net': Net, id: ClientId, c: ClientId)
    requires Run(net, es, net') && id in Online(net) && c != id
    requires forall e <- es :: !Interrupts(e, id)
    ensures id in Online(net')
    ensures var v, v' := Settled(net, id), Settled(net', id);
      && (c in v'.stale ==> SameOf(v, v', c))
      && (c in v.stale ==> (c in v'.stale <==> !AnnouncedIn(net, es, c)))
      && (c !in v.stale ==> c !in v'.stale)
    decreases |es|
  {
    if es != [] {
      assert es[0] in es && forall e <- es[1..] :: e in es;
      LeftoverStep(net, es[0], id, c);
      LeftoverRun(Step(net, es[0]), es[1..], net', id, c);
    }
  }

  // What a node knew of a client when it last connected, if the broker retained nothing of it then.
  ghost predicate KnewGone(before: Net, id: ClientId, c: ClientId) {
    && id in before.nodes && c in before.nodes[id].view.remote
    && !(c in before.retained && MQTT in before.retained[c])
  }

  // The leftovers of a node that has received everything since it last connected: the clients it
  // knew then, that were gone then, and that have announced nothing since. It holds of them what
  // it held then.
  lemma Leftovers(es0: seq<Event>, before: Net, order: seq<ClientId>, es: seq<Event>, net: Net, id: ClientId, c: ClientId)
    requires Run(Net(map[], map[]), es0, before) && Enabled(before, Start(id, order))
    requires Run(Step(before, Start(id, order)), es, net) && forall e <- es :: !Interrupts(e, id)
    ensures id in Online(net)
    ensures net.nodes[id].queue == [] ==>
      var v := net.nodes[id].view;
      && (c in v.stale <==> KnewGone(before, id, c) && !AnnouncedIn(Step(before, Start(id, order)), es, c))
      && (c in v.stale ==> c in v.remote && v.remote[c] == before.nodes[id].view.remote[c])
  {
    RunKeeps(Net(map[], map[]), es0, before);
    var started := Step(before, Start(id, order));
    assert OwnAbsent(before, id);
    if c == id {
      StepKeeps(before, Start(id, order));
      OwnNeverStale(started, es, net, id);
    } else {
      RetainedUpdates(id, started.nodes[id].view, order, before.retained, c);
      LeftoverRun(started, es, net, id, c);
    }
  }

  // A node holds nothing of itself.
  lemma {:induction false} OwnNeverStale(net: Net, es: seq<Event>, net': Net, id: ClientId)
    requires Run(net, es, net') && id in Online(net) && forall e <- es :: !Interrupts(e, id)
    requires id !in net.nodes[id].view.stale
    ensures id in Online(net') && id !in net'.nodes[id].view.stale
    decreases |es|
  {
    if es != [] {
      assert es[0] in es && forall e <- es[1..] :: e in es;
      OwnNeverStale(Step(net, es[0]), es[1..], net', id);
    }
  }

  // A filter of such a client matches.
  ghost predicate LeftoverFits(before: Net, started: Net, es: seq<Event>, id: ClientId, c: ClientId, fits: Topic -> bool) {
    KnewGone(before, id, c) && !AnnouncedIn(started, es, c) && CountFits(before.nodes[id].view.remote[c], fits) > 0
  }

  // ---------------------------------------------------------------- who is silent

  lemma SilentStep(net: Net, e: Event, c: ClientId)
    requires Consistent(net) && Enabled(net, e) && c in Online(net) && !Interrupts(e, c)
    ensures var net' := Step(net, e);
      c in Online(net') && (c in Silent(net') <==> c in Silent(net) && !Announces(net, e, c))
  {
    assert Publisher(net, c);
  }

  lemma {:induction false} SilentRun(net: Net, es: seq<Event>, net': Net, c: ClientId)
    requires Consistent(net) && Run(net, es, net') && c in Online(net)
    requires forall e <- es :: !Interrupts(e, c)
    ensures c in Online(net')
    ensures c in Silent(net') <==> c in Silent(net) && !AnnouncedIn(net, es, c)
    decreases |es|
  {
    if es != [] {
      assert es[0] in es && forall e <- es[1..] :: e in es;
      SilentStep(net, es[0], c);
      StepKeeps(net, es[0]);
      SilentRun(Step(net, es[0]), es[1..], net', c);
    }
  }

  // A connected client is silent exactly when it has announced nothing since it last connected.
  lemma SilentIff(es0: seq<Event>, before: Net, order: seq<ClientId>, es: seq<Event>, net: Net, c: ClientId)
    requires Run(Net(map[], map[]), es0, before) && Enabled(before, Start(c, order))
    requires Run(Step(before, Start(c, order)), es, net) && forall e <- es :: !Interrupts(e, c)
    ensures c in Online(net)
    ensures c in Silent(net) <==> !AnnouncedIn(Step(before, Start(c, order)), es, c)
  {
    RunKeeps(Net(map[], map[]), es0, before);
    StepKeeps(before, Start(c, order));
    assert Publisher(before, c);
    SilentRun(Step(before, Start(c, order)), es, net, c);
  }

  // A filter of another client that is silent matches.
  ghost predicate SilentFits(net: Net, id: ClientId, c: ClientId, fits: Topic -> bool) {
    c != id && c in Silent(net) && CountFits(TopicsOf(net.nodes[c].my), fits) > 0
  }

  lemma SilentTotal(net: Net, id: ClientId, fits: Topic -> bool)
    ensures Total(Unannounced(net, id), fits) == 0 <==> forall c :: !SilentFits(net, id, c, fits)
  {
    var held := Unannounced(net, id);
    TotalZero(held, fits);
    forall c ensures SilentFits(net, id, c, fits) <==> c in held && CountFits(held[c], fits) > 0 {
    }
  }

  // So, when no filter of another silent client matches, the count is never too small, and it is
  // exact exactly when no filter of a leftover client matches; and the other way round.
  lemma CountIsExactIff(es0: seq<Event>, before: Net, order: seq<ClientId>, es: seq<Event>, net: Net, id: ClientId, fits: Topic -> bool)
    requires Run(Net(map[], map[]), es0, before) && Enabled(before, Start(id, order))
    requires Run(Step(before, Start(id, order)), es, net) && forall e <- es :: !Interrupts(e, id)
    ensures id in Online(net)
    ensures net.nodes[id].queue == [] ==>
      var noneLeft := forall c :: !LeftoverFits(before, Step(before, Start(id, order)), es, id, c, fits);
      var noneSilent := forall c :: !SilentFits(net, id, c, fits);
      var counted, actual := Count(net, id, fits), Total(Subscriptions(net), fits);
      && (noneSilent ==> counted >= actual && (counted == actual <==> noneLeft))
      && (noneLeft ==> counted <= actual && (counted == actual <==> noneSilent))
  {
    var started := Step(before, Start(id, order));
    Leftovers(es0, before, order, es, net, id, id);
    if net.nodes[id].queue == [] {
      RunJoins(Net(map[], map[]), es0, before, Start(id, order), es, net);
      Convergence(es0 + [Start(id, order)] + es, net, id, fits);
      SilentTotal(net, id, fits);
      StaleTotal(net.nodes[id].view, fits);
      forall c ensures LeftoverFits(before, started, es, id, c, fits) <==> StaleFits(net.nodes[id].view, c, fits) {
        Leftovers(es0, before, order, es, net, id, c);
      }
    }
  }

  ghost predicate StaleFits(v: View, c: ClientId, fits: Topic -> bool) {
    c in v.stale && c in v.remote && CountFits(v.remote[c], fits) > 0
  }

  lemma StaleTotal(v: View, fits: Topic -> bool)
    ensures Total(Only(v.remote, v.stale), fits) == 0 <==> forall c :: !StaleFits(v, c, fits)
  {
    var only := Only(v.remote, v.stale);
    TotalZero(only, fits);
    forall c ensures StaleFits(v, c, fits) <==> c in only && CountFits(only[c], fits) > 0 {
    }
  }

  lemma {:induction false} RunJoins(net: Net, es0: seq<Event>, before: Net, e: Event, es: seq<Event>, net': Net)
    requires Run(net, es0, before) && Enabled(before, e) && Run(Step(before, e), es, net')
    ensures Run(net, es0 + [e] + es, net')
    decreases |es0|
  {
    var all := es0 + [e] + es;
    if es0 == [] {
      assert all[0] == e && all[1..] == es;
    } else {
      assert all[1..] == es0[1..] + [e] + es;
      RunJoins(Step(net, es0[0]), es0[1..], before, e, es, net');
    }
  }

  // ---------------------------------------------------------------- a run with a leftover

  function Fresh(view: View, queue: seq<Message>): Node {
    Node(map[], map[], view, true, queue)
  }

  predicate Any(t: Topic) {
    true
  }

  // `a` hears of a subscription of `b` and stops; `b` goes; `a` connects again and counts one
  // subscription, while no connected node has any.
  lemma LeftoverRunExists(a: ClientId, b: ClientId, h: Handle, topic: Topic)
    requires a != b
    ensures
      var es := [Start(a, []), Start(b, []), Subscribe(b, h, topic), Deliver(a), Stop(a), Crash(b), Start(a, [])];
      exists net :: Run(Net(map[], map[]), es, net) && CountsLeftover(net, a)
  {
    var last, rest := RestartedAlone(a, b, topic), [Stop(a), Crash(b), Start(a, [])];
    AloneCounts(a, b, topic);
    RestartSteps(a, b, h, topic);
    MeetRun(a, b, h, topic, rest, last);
    assert [Start(a, []), Start(b, []), Subscribe(b, h, topic), Deliver(a)] + rest
        == [Start(a, []), Start(b, []), Subscribe(b, h, topic), Deliver(a), Stop(a), Crash(b), Start(a, [])];
  }

  // A run that begins with `a` hearing of a subscription of `b`.
  lemma MeetRun(a: ClientId, b: ClientId, h: Handle, topic: Topic, rest: seq<Event>, last: Net)
    requires a != b && Run(Knowing(a, b, h, topic), rest, last)
    ensures Run(Net(map[], map[]), [Start(a, []), Start(b, []), Subscribe(b, h, topic), Deliver(a)] + rest, last)
  {
    MeetSteps(a, b, h, topic);
    SubscribeStep(a, b, h, topic);
    var es3, es2 := [Deliver(a)] + rest, [Subscribe(b, h, topic)] + ([Deliver(a)] + rest);
    var es1 := [Start(b, [])] + es2;
    RunOf(Told(a, b, h, topic), Knowing(a, b, h, topic), Deliver(a), rest, last);
    RunOf(Both(a, b), Told(a, b, h, topic), Subscribe(b, h, topic), es3, last);
    RunOf(One(a), Both(a, b), Start(b, []), es2, last);
    RunOf(Net(map[], map[]), One(a), Start(a, []), es1, last);
    assert [Start(a, [])] + es1 == [Start(a, []), Start(b, []), Subscribe(b, h, topic), Deliver(a)] + rest;
  }

  ghost predicate CountsLeftover(net: Net, a: ClientId) {
    && a in Online(net) && net.nodes[a].queue == []
    && Count(net, a, Any) == 1 && Total(Subscriptions(net), Any) == 0
  }

  const NoView := View(map[], {})

  function Publishing(h: Handle, topic: Topic): Node {
    Node(map[h := topic], map[MQTT := [topic]], NoView, true, [])
  }

  function One(a: ClientId): Net {
    Net(map[a := Fresh(NoView, [])], map[])
  }

  function Both(a: ClientId, b: ClientId): Net {
    Net(map[a := Fresh(NoView, []), b := Fresh(NoView, [])], map[])
  }

  function Told(a: ClientId, b: ClientId, h: Handle, topic: Topic): Net {
    var m := Message(b, Join(map[MQTT := [topic]]));
    Net(map[a := Fresh(NoView, [m]), b := Publishing(h, topic).(queue := [m])], map[b := map[MQTT := [topic]]])
  }

  function Knowing(a: ClientId, b: ClientId, h: Handle, topic: Topic): Net {
    var told := Told(a, b, h, topic);
    told.(nodes := told.nodes[a := Fresh(View(map[b := [topic]], {}), [])])
  }

  function StoppedAlone(a: ClientId, b: ClientId, topic: Topic): Net {
    Net(map[a := Node(map[], map[], View(map[b := [topic]], {}), false, [])], map[])
  }

  function RestartedAlone(a: ClientId, b: ClientId, topic: Topic): Net {
    Net(map[a := Fresh(View(map[b := [topic]], {b}), [])], map[])
  }

  lemma RunOf(net: Net, net': Net, e: Event, es: seq<Event>, last: Net)
    requires Enabled(net, e) && net' == Step(net, e) && Run(net', es, last)
    ensures Run(net, [e] + es, last)
  {
    assert ([e] + es)[1..] == es;
  }

  lemma OneTopic(h: Handle, topic: Topic)
    ensures TopicsOf(map[h := topic]) == [topic]
  {
    var table := map[h := topic];
    assert table.Keys == {h};
    assert table - {h} == map[];
    assert TopicsOf(table) == [table[h]] + TopicsOf(table - {h});
  }

  lemma MeetSteps(a: ClientId, b: ClientId, h: Handle, topic: Topic)
    requires a != b
    ensures Enabled(Net(map[], map[]), Start(a, [])) && Step(Net(map[], map[]), Start(a, [])) == One(a)
    ensures Enabled(One(a), Start(b, [])) && Step(One(a), Start(b, [])) == Both(a, b)
    ensures Enabled(Told(a, b, h, topic), Deliver(a)) && Step(Told(a, b, h, topic), Deliver(a)) == Knowing(a, b, h, topic)
  {
    var none: map<ClientId, Blob> := map[];
    assert none[b := [topic]] == map[b := [topic]];
    assert Step(Net(map[], map[]), Start(a, [])).nodes == One(a).nodes;
    assert Step(One(a), Start(b, [])).nodes == Both(a, b).nodes;
    var told, knowing := Told(a, b, h, topic), Knowing(a, b, h, topic);
    assert Step(told, Deliver(a)).nodes[a] == knowing.nodes[a];
    assert Step(told, Deliver(a)).nodes == knowing.nodes;
  }

  lemma SubscribeStep(a: ClientId, b: ClientId, h: Handle, topic: Topic)
    requires a != b
    ensures Enabled(Both(a, b), Subscribe(b, h, topic)) && Step(Both(a, b), Subscribe(b, h, topic)) == Told(a, b, h, topic)
  {
    OneTopic(h, topic);
    var my: map<Handle, Topic> := map[];
    var blobs: map<Protocol, Blob> := map[];
    assert my[h := topic] == map[h := topic] && blobs[MQTT := [topic]] == map[MQTT := [topic]];
    var both, told := Both(a, b), Told(a, b, h, topic);
    var next := Step(both, Subscribe(b, h, topic));
    assert next.retained == told.retained;
    assert next.nodes[a] == told.nodes[a];
    assert next.nodes[b].my == told.nodes[b].my && next.nodes[b].blobs == told.nodes[b].blobs;
    assert next.nodes[b].queue == told.nodes[b].queue && next.nodes[b].view == told.nodes[b].view;
    assert next.nodes.Keys == {a, b} == told.nodes.Keys;
    assert next.nodes == told.nodes;
  }

  lemma RestartSteps(a: ClientId, b: ClientId, h: Handle, topic: Topic)
    requires a != b
    ensures Run(Knowing(a, b, h, topic), [Stop(a), Crash(b), Start(a, [])], RestartedAlone(a, b, topic))
  {
    var knowing, stopped, last := Knowing(a, b, h, topic), StoppedAlone(a, b, topic), RestartedAlone(a, b, topic);
    var leaving := Step(knowing, Stop(a));
    CrashStep(leaving, a, b, topic);
    RestartStep(a, b, topic);
    RunOf(stopped, last, Start(a, []), [], last);
    RunOf(leaving, stopped, Crash(b), [Start(a, [])], last);
    RunOf(knowing, leaving, Stop(a), [Crash(b), Start(a, [])], last);
  }

  lemma CrashStep(net: Net, a: ClientId, b: ClientId, topic: Topic)
    requires a != b && net.nodes.Keys == {a, b} && net.retained.Keys == {b}
    requires net.nodes[a] == StoppedAlone(a, b, topic).nodes[a] && net.nodes[b].online
    ensures Enabled(net, Crash(b)) && Step(net, Crash(b)) == StoppedAlone(a, b, topic)
  {
    assert Step(net, Crash(b)).nodes == StoppedAlone(a, b, topic).nodes;
  }

  lemma RestartStep(a: ClientId, b: ClientId, topic: Topic)
    requires a != b
    ensures Enabled(StoppedAlone(a, b, topic), Start(a, []))
    ensures Step(StoppedAlone(a, b, topic), Start(a, [])) == RestartedAlone(a, b, topic)
  {
    assert map[b := [topic]].Keys == {b};
  }

  lemma AloneCounts(a: ClientId, b: ClientId, topic: Topic)
    requires a != b
    ensures CountsLeftover(RestartedAlone(a, b, topic), a)
  {
    var net := RestartedAlone(a, b, topic);
    var remote: map<ClientId, Blob> := map[b := [topic]];
    TotalRemove(remote, Any, b);
    assert remote - {b} == map[] && CountFits([topic], Any) == 1;
    assert Subscriptions(net) == map[a := []];
    TotalRemove(Subscriptions(net), Any, a);
    assert Subscriptions(net) - {a} == map[];
  }

  // ---------------------------------------------------------------- a run with a silent node

  // `b` subscribes, stops with its subscription and connects again: `a` counts nothing, though `b`
  // is connected and has a subscription.
  lemma SilentRunExists(a: ClientId, b: ClientId, h: Handle, topic: Topic)
    requires a != b
    ensures
      var es := [Start(a, []), Start(b, []), Subscribe(b, h, topic), Deliver(a), Stop(b), Deliver(a), Deliver(a), Start(b, [])];
      exists net :: Run(Net(map[], map[]), es, net) && MissesSilent(net, a)
  {
    var last, rest := Silenced(a, b, h, topic), [Stop(b), Deliver(a), Deliver(a), Start(b, [])];
    SilencedCounts(a, b, h, topic);
    SilenceSteps(a, b, h, topic);
    MeetRun(a, b, h, topic, rest, last);
    assert [Start(a, []), Start(b, []), Subscribe(b, h, topic), Deliver(a)] + rest
        == [Start(a, []), Start(b, []), Subscribe(b, h, topic), Deliver(a), Stop(b), Deliver(a), Deliver(a), Start(b, [])];
  }

  ghost predicate MissesSilent(net: Net, a: ClientId) {
    && a in Online(net) && net.nodes[a].queue == []
    && Count(net, a, Any) == 0 && Total(Subscriptions(net), Any) == 1
  }

  function Silenced(a: ClientId, b: ClientId, h: Handle, topic: Topic): Net {
    Net(map[a := Fresh(NoView, []), b := Publishing(h, topic)], map[])
  }

  function Resting(a: ClientId, b: ClientId, h: Handle, topic: Topic, queue: seq<Message>, view: View): Net {
    Net(map[a := Fresh(view, queue), b := Publishing(h, topic).(online := false)], map[])
  }

  lemma SilenceSteps(a: ClientId, b: ClientId, h: Handle, topic: Topic)
    requires a != b
    ensures Run(Knowing(a, b, h, topic), [Stop(b), Deliver(a), Deliver(a), Start(b, [])], Silenced(a, b, h, topic))
  {
    var m, knows := Message(b, WillLeave), View(map[b := [topic]], {});
    var n5 := Resting(a, b, h, topic, [m, m], knows);
    var n6 := Resting(a, b, h, topic, [m], NoView);
    var n7 := Resting(a, b, h, topic, [], NoView);
    var n8 := Silenced(a, b, h, topic);
    StopStep(a, b, h, topic);
    ForgetSteps(a, b, h, topic);
    RestartSilent(a, b, h, topic);
    RunOf(n7, n8, Start(b, []), [], n8);
    RunOf(n6, n7, Deliver(a), [Start(b, [])], n8);
    RunOf(n5, n6, Deliver(a), [Deliver(a), Start(b, [])], n8);
    RunOf(Knowing(a, b, h, topic), n5, Stop(b), [Deliver(a), Deliver(a), Start(b, [])], n8);
  }

  lemma StopStep(a: ClientId, b: ClientId, h: Handle, topic: Topic)
    requires a != b
    ensures var m := Message(b, WillLeave);
      && Enabled(Knowing(a, b, h, topic), Stop(b))
      && Step(Knowing(a, b, h, topic), Stop(b)) == Resting(a, b, h, topic, [m, m], View(map[b := [topic]], {}))
  {
    var m := Message(b, WillLeave);
    var net, rests := Step(Knowing(a, b, h, topic), Stop(b)), Resting(a, b, h, topic, [m, m], View(map[b := [topic]], {}));
    assert [] + [m] + [m] == [m, m];
    assert net.nodes[a] == rests.nodes[a] && net.nodes[b] == rests.nodes[b];
    assert net.nodes == rests.nodes && net.retained == rests.retained;
  }

  lemma ForgetSteps(a: ClientId, b: ClientId, h: Handle, topic: Topic)
    requires a != b
    ensures var m, knows := Message(b, WillLeave), View(map[b := [topic]], {});
      var n5, n6, n7 := Resting(a, b, h, topic, [m, m], knows), Resting(a, b, h, topic, [m], NoView), Resting(a, b, h, topic, [], NoView);
      Enabled(n5, Deliver(a)) && Step(n5, Deliver(a)) == n6 && Enabled(n6, Deliver(a)) && Step(n6, Deliver(a)) == n7
  {
    var m, knows := Message(b, WillLeave), View(map[b := [topic]], {});
    assert knows.remote - {b} == map[] && NoView.remote - {b} == map[];
    var n5, n6 := Resting(a, b, h, topic, [m, m], knows), Resting(a, b, h, topic, [m], NoView);
    assert [m, m][1..] == [m] && [m][1..] == [];
    assert Step(n5, Deliver(a)).nodes[a] == n6.nodes[a];
    assert Step(n5, Deliver(a)).nodes == n6.nodes;
    assert Step(n6, Deliver(a)).nodes == Resting(a, b, h, topic, [], NoView).nodes;
  }

  lemma RestartSilent(a: ClientId, b: ClientId, h: Handle, topic: Topic)
    requires a != b
    ensures var n7 := Resting(a, b, h, topic, [], NoView);
      Enabled(n7, Start(b, [])) && Step(n7, Start(b, [])) == Silenced(a, b, h, topic)
  {
    var n7 := Resting(a, b, h, topic, [], NoView);
    assert Step(n7, Start(b, [])).nodes[b] == Publishing(h, topic);
    assert Step(n7, Start(b, [])).nodes == Silenced(a, b, h, topic).nodes;
  }

  lemma SilencedCounts(a: ClientId, b: ClientId, h: Handle, topic: Topic)
    requires a != b
    ensures MissesSilent(Silenced(a, b, h, topic), a)
  {
    var net := Silenced(a, b, h, topic);
    OneTopic(h, topic);
    var all := Subscriptions(net);
    assert all == map[a := [], b := [topic]];
    TotalRemove(all, Any, b);
    var none: map<ClientId, Blob> := map[a := []];
    assert all - {b} == none && CountFits([topic], Any) == 1;
    TotalZero(none, Any);
  }
}
