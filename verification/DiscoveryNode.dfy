/**
 * One node's part in discovery: the MQTT discovery handler (src/MQDiscoveryHandler.cc) on top of
 * the dispatcher (common/AittDiscovery.cc), shown to play its part in the network of module
 * DiscoveryNetwork. So what is proved of all runs of the network holds of nodes running this code.
 */
module DiscoveryNode {
  import opened Results
  import opened Handles
  import opened Discovery
  import DiscoveryNetwork

  type Net = DiscoveryNetwork.Net

  class Participant {
    const id: ClientId
    const discovery: AittDiscovery
    const handler: MQDiscoveryHandler
    const callback: int   // under which the handler is registered with the dispatcher

    ghost predicate Valid() reads discovery {
      && discovery.Valid() && handler.id == id && id != ""
      && Registered(callback, MQTT) in discovery.callbacks
    }

    // This object and the network agree on the connected node.
    ghost predicate Plays(net: Net) reads discovery, handler {
      && id in DiscoveryNetwork.Online(net)
      && net.nodes[id].my == handler.mySubscribeTable
      && net.nodes[id].blobs == discovery.discoveryMap
      && net.nodes[id].view.remote == handler.remoteSubscribeTable
    }

    // The same while it is not connected; a node the network has never seen holds nothing.
    ghost predicate Rests(net: Net) reads discovery, handler {
      && id !in DiscoveryNetwork.Online(net) && discovery.callbackHandle == None
      && if id in net.nodes then
           && net.nodes[id].my == handler.mySubscribeTable
           && net.nodes[id].blobs == discovery.discoveryMap
           && net.nodes[id].view.remote == handler.remoteSubscribeTable
         else handler.mySubscribeTable == map[] && discovery.discoveryMap == map[] && handler.remoteSubscribeTable == map[]
    }

    // The constructor of the handler registers its callback.
    constructor (id: ClientId, callback: int)
      requires id != ""
      ensures Valid() && this.id == id && this.callback == callback && fresh(discovery) && fresh(handler)
      ensures forall net: Net :: id !in net.nodes ==> Rests(net)
    {
      this.id, this.callback := id, callback;
      discovery := new AittDiscovery(id);
      handler := new MQDiscoveryHandler(id);
      new;
      discovery.AddDiscoveryCB(MQTT, callback);
    }

    method Start(handle: Handle, ghost net: Net, ghost order: seq<ClientId>)
      requires Valid() && Rests(net) && DiscoveryNetwork.Enabled(net, DiscoveryNetwork.Start(id, order))
      modifies discovery`isRunning, discovery`callbackHandle
      ensures Valid() && discovery.isRunning && Plays(DiscoveryNetwork.Step(net, DiscoveryNetwork.Start(id, order)))
    {
      discovery.Start(handle);
    }

    // The result is the retained message that the network's broker then holds for this node.
    method Subscribe(handle: Handle, topic: Topic, ghost net: Net) returns (r: Result<Payload>)
      requires Valid() && Plays(net)
      modifies handler`mySubscribeTable, discovery`discoveryMap
      ensures Valid()
      ensures handle in old(handler.mySubscribeTable) ==> r == Err(Already) && Plays(net)
      ensures handle !in old(handler.mySubscribeTable) ==>
        && DiscoveryNetwork.Enabled(net, DiscoveryNetwork.Subscribe(id, handle, topic))
        && var net' := DiscoveryNetwork.Step(net, DiscoveryNetwork.Subscribe(id, handle, topic));
           Plays(net') && id in net'.retained && r == Ok(Join(net'.retained[id]))
    {
      var blob := handler.Subscribe(handle, topic);
      if blob.Err? {
        return Err(blob.error);
      }
      var published := discovery.UpdateDiscoveryMsg(MQTT, blob.value);
      return Ok(published);
    }

    method Unsubscribe(handle: Handle, ghost net: Net) returns (r: Result<Payload>)
      requires Valid() && Plays(net)
      modifies handler`mySubscribeTable, discovery`discoveryMap
      ensures Valid()
      ensures handle !in old(handler.mySubscribeTable) ==> r == Err(NoData) && Plays(net)
      ensures handle in old(handler.mySubscribeTable) ==>
        && DiscoveryNetwork.Enabled(net, DiscoveryNetwork.Unsubscribe(id, handle))
        && var net' := DiscoveryNetwork.Step(net, DiscoveryNetwork.Unsubscribe(id, handle));
           Plays(net') && id in net'.retained && r == Ok(Join(net'.retained[id]))
    {
      var blob := handler.Unsubscribe(handle);
      if blob.Err? {
        return Err(blob.error);
      }
      var published := discovery.UpdateDiscoveryMsg(MQTT, blob.value);
      return Ok(published);
    }

    // Another transport announces something.
    method UpdateOther(protocol: Protocol, blob: Blob, ghost net: Net) returns (published: Payload)
      requires Valid() && Plays(net) && protocol != MQTT
      modifies discovery`discoveryMap
      ensures Valid()
      ensures var net' := DiscoveryNetwork.Step(net, DiscoveryNetwork.UpdateOther(id, protocol, blob));
        Plays(net') && id in net'.retained && published == Join(net'.retained[id])
    {
      published := discovery.UpdateDiscoveryMsg(protocol, blob);
    }

    // Every other connected node is sent what is published.
    method Stop(ghost net: Net) returns (published: seq<Payload>)
      requires Valid() && Plays(net)
      modifies discovery`isRunning, discovery`callbackHandle
      ensures Valid() && !discovery.isRunning
      ensures var net' := DiscoveryNetwork.Step(net, DiscoveryNetwork.Stop(id));
        && Rests(net') && id !in net'.retained
        && forall other <- DiscoveryNetwork.Online(net') ::
             other in net.nodes && net'.nodes[other].queue == net.nodes[other].queue + Sent(published)
    {
      published := discovery.Stop();
    }

    ghost function Sent(published: seq<Payload>): seq<DiscoveryNetwork.Message> {
      seq(|published|, k requires 0 <= k < |published| => DiscoveryNetwork.Message(id, published[k]))
    }

    // The next discovery message, dispatched to the handler.
    method Deliver(from: ClientId, payload: Payload, ghost net: Net)
      requires Valid() && Plays(net)
      requires net.nodes[id].queue != [] && net.nodes[id].queue[0] == DiscoveryNetwork.Message(from, payload)
      modifies handler`remoteSubscribeTable
      ensures Valid()
      ensures from == "" ==> Plays(net)   // a message without a client is dropped
      ensures from != "" ==> Plays(DiscoveryNetwork.Step(net, DiscoveryNetwork.Deliver(id)))
    {
      var calls := discovery.DiscoveryMessageCallback(from, payload);
      ghost var mine := Invocation(callback, from, payload);
      ghost var was := handler.remoteSubscribeTable;
      for i := 0 to |calls|
        invariant handler.remoteSubscribeTable == if mine in calls[..i] then Taken(was, from, payload) else was
      {
        assert calls[..i+1] == calls[..i] + [calls[i]];
        assert calls[i] in calls;
        if calls[i].callback == callback {
          assert from != "" && multiset(calls)[mine] > 0;
          handler.DiscoveryMessageCallback(from, payload);
        }
      }
      assert calls[..|calls|] == calls;
      assert from != "" ==> (mine in calls <==> payload.WillLeave? || MQTT in payload.blobs);
    }

    // What the handler makes of a message; a second time changes nothing.
    ghost function Taken(remote: map<ClientId, Blob>, from: ClientId, payload: Payload): map<ClientId, Blob> {
      if from == id then remote else Heard(remote, from, payload)
    }

    method CountSubscriber(fits: Topic -> bool, ghost net: Net) returns (count: nat)
      requires Valid() && Plays(net)
      ensures count == DiscoveryNetwork.Count(net, id, fits)
    {
      count := handler.CountSubscriber(fits);
    }
  }
}
