/**
 * What one node does for discovery: the blob table of common/AittDiscovery.cc and the MQTT
 * subscription tables of src/MQDiscoveryHandler.cc. FlexBuffers are taken as lossless, so a blob
 * is the topic list it encodes.
 */
module Discovery {
  import opened Results
  import opened Handles
  import opened Totals

  type Topic = string
  type ClientId = string
  type Protocol = string
  type Blob = seq<Topic>

  const MQTT: Protocol := "MQTT"

  // A retained discovery message: empty, or a map from protocols to blobs ("connected").
  datatype Payload = WillLeave | Join(blobs: map<Protocol, Blob>)

  ghost function Least(s: set<Handle>): (least: Handle)
    requires s != {}
    ensures least in s && forall h <- s :: least <= h
    decreases |s|
  {
    var h :| h in s;
    if s == {h} then h
    else
      var other := Least(s - {h});
      assert s == (s - {h}) + {h};
      if h < other then h else other
  }

  // The topics of a table in the order of its handles.
  ghost function TopicsOf(table: map<Handle, Topic>): seq<Topic>
    decreases |table|
  {
    if table == map[] then []
    else
      var h := Least(table.Keys);
      [table[h]] + TopicsOf(table - {h})
  }

  ghost function Fitting(table: map<Handle, Topic>, fits: Topic -> bool): set<Handle> {
    set h | h in table && fits(table[h])
  }

  lemma {:induction false} CountIsHandles(table: map<Handle, Topic>, fits: Topic -> bool)
    ensures CountFits(TopicsOf(table), fits) == |Fitting(table, fits)|
    decreases |table|
  {
    if table == map[] {
      assert Fitting(table, fits) == {};
    } else {
      var h := Least(table.Keys);
      var rest := table - {h};
      CountIsHandles(rest, fits);
      assert TopicsOf(table)[0] == table[h] && TopicsOf(table)[1..] == TopicsOf(rest);
      if fits(table[h]) {
        assert Fitting(table, fits) == Fitting(rest, fits) + {h};
      } else {
        assert Fitting(table, fits) == Fitting(rest, fits);
      }
    }
  }

  // What a discovery message from another client does to the table of remote subscriptions.
  function Heard(remote: map<ClientId, Blob>, from: ClientId, payload: Payload): map<ClientId, Blob> {
    match payload
    case WillLeave => remote - {from}
    case Join(blobs) => if MQTT in blobs then remote[from := blobs[MQTT]] else remote
  }

  class MQDiscoveryHandler {
    const id: ClientId
    var mySubscribeTable: map<Handle, Topic>
    var remoteSubscribeTable: map<ClientId, Blob>

    constructor (id: ClientId)
      ensures this.id == id && mySubscribeTable == map[] && remoteSubscribeTable == map[]
    {
      this.id := id;
      mySubscribeTable, remoteSubscribeTable := map[], map[];
    }

    // Returns the blob that is published.
    method Subscribe(handle: Handle, topic: Topic) returns (r: Result<Blob>)
      modifies this`mySubscribeTable
      ensures handle in old(mySubscribeTable) ==> r == Err(Already) && mySubscribeTable == old(mySubscribeTable)
      ensures handle !in old(mySubscribeTable) ==>
        mySubscribeTable == old(mySubscribeTable)[handle := topic] && r == Ok(TopicsOf(mySubscribeTable))
    {
      if handle in mySubscribeTable {
        return Err(Already);
      }
      mySubscribeTable := mySubscribeTable[handle := topic];
      var blob := UpdateDiscoveryMsg();
      return Ok(blob);
    }

    method Unsubscribe(handle: Handle) returns (r: Result<Blob>)
      modifies this`mySubscribeTable
      ensures handle !in old(mySubscribeTable) ==> r == Err(NoData) && mySubscribeTable == old(mySubscribeTable)
      ensures handle in old(mySubscribeTable) ==>
        mySubscribeTable == old(mySubscribeTable) - {handle} && r == Ok(TopicsOf(mySubscribeTable))
    {
      if handle !in mySubscribeTable {
        return Err(NoData);
      }
      mySubscribeTable := mySubscribeTable - {handle};
      var blob := UpdateDiscoveryMsg();
      return Ok(blob);
    }

    method UpdateDiscoveryMsg() returns (blob: Blob)
      ensures blob == TopicsOf(mySubscribeTable)
    {
      blob := [];
      var rest := mySubscribeTable;
      while rest != map[]
        invariant blob + TopicsOf(rest) == TopicsOf(mySubscribeTable)
        decreases |rest|
      {
        ghost var least := Least(rest.Keys);
        var h :| h in rest.Keys && forall x <- rest.Keys :: h <= x;
        assert h == least;
        blob := blob + [rest[h]];
        rest := rest - {h};
      }
    }

    method DiscoveryMessageCallback(from: ClientId, payload: Payload)
      requires payload.Join? ==> MQTT in payload.blobs   // called for blobs of its own protocol only
      modifies this`remoteSubscribeTable
      ensures remoteSubscribeTable == if from == id then old(remoteSubscribeTable) else Heard(old(remoteSubscribeTable), from, payload)
    {
      if from == id {
        return;
      }
      match payload {
        case WillLeave =>
          remoteSubscribeTable := remoteSubscribeTable - {from};
        case Join(blobs) =>
          var topics := [];
          for i := 0 to |blobs[MQTT]|
            invariant topics == blobs[MQTT][..i]
          {
            topics := topics + [blobs[MQTT][i]];
          }
          assert topics == blobs[MQTT];
          remoteSubscribeTable := remoteSubscribeTable[from := topics];
      }
    }

    method CountSubscriber(fits: Topic -> bool) returns (count: nat)
      ensures count == CountFits(TopicsOf(mySubscribeTable), fits) + Total(remoteSubscribeTable, fits)
    {
      count := 0;
      var mine := mySubscribeTable;
      while mine != map[]
        invariant count + CountFits(TopicsOf(mine), fits) == CountFits(TopicsOf(mySubscribeTable), fits)
        decreases |mine|
      {
        ghost var least := Least(mine.Keys);
        var h :| h in mine.Keys && forall x <- mine.Keys :: h <= x;
        assert h == least;
        assert TopicsOf(mine)[1..] == TopicsOf(mine - {h});
        if fits(mine[h]) {
          count := count + 1;
        }
        mine := mine - {h};
      }
      var remote := remoteSubscribeTable;
      while remote != map[]
        invariant count + Total(remote, fits) == CountFits(TopicsOf(mySubscribeTable), fits) + Total(remoteSubscribeTable, fits)
        decreases |remote|
      {
        var client :| client in remote;
        TotalRemove(remote, fits, client);
        ghost var before := count;
        for i := 0 to |remote[client]|
          invariant count + CountFits(remote[client][i..], fits) == before + CountFits(remote[client], fits)
        {
          assert remote[client][i..][0] == remote[client][i] && remote[client][i..][1..] == remote[client][i+1..];
          if fits(remote[client][i]) {
            count := count + 1;
          }
        }
        assert remote[client][|remote[client]|..] == [];
        remote := remote - {client};
      }
      assert Total(remote, fits) == 0;
    }
  }

  // A registered callback, and one call made by the dispatcher.
  datatype Registered = Registered(id: int, protocol: Protocol)
  datatype Invocation = Invocation(callback: int, from: ClientId, payload: Payload)

  class AittDiscovery {
    const id: ClientId
    var discoveryMap: map<Protocol, Blob>
    var callbacks: seq<Registered>
    var isRunning: bool
    var callbackHandle: Option<Handle>

    ghost predicate Valid() reads this {
      forall i, j :: 0 <= i < j < |callbacks| ==> callbacks[i].id < callbacks[j].id
    }

    constructor (id: ClientId)
      ensures Valid() && this.id == id && discoveryMap == map[] && callbacks == [] && !isRunning && callbackHandle == None
    {
      this.id := id;
      discoveryMap, callbacks, isRunning, callbackHandle := map[], [], false, None;
    }

    // `callbackId` is the next value of a counter shared by all instances.
    method AddDiscoveryCB(protocol: Protocol, callbackId: int)
      requires Valid() && forall r <- callbacks :: r.id < callbackId
      modifies this`callbacks
      ensures Valid() && callbacks == old(callbacks) + [Registered(callbackId, protocol)]
    {
      callbacks := callbacks + [Registered(callbackId, protocol)];
    }

    method RemoveDiscoveryCB(callbackId: int)
      requires Valid()
      modifies this`callbacks
      ensures Valid()
      ensures forall r :: r in callbacks <==> r in old(callbacks) && r.id != callbackId
    {
      var i := 0;
      while i < |callbacks|
        invariant 0 <= i <= |callbacks| && callbacks == old(callbacks)
        invariant forall k :: 0 <= k < i ==> callbacks[k].id != callbackId
      {
        if callbacks[i].id == callbackId {
          callbacks := callbacks[..i] + callbacks[i+1..];
          assert old(callbacks) == callbacks[..i] + [old(callbacks)[i]] + callbacks[i..];
          return;
        }
        i := i + 1;
      }
    }

    // Connects and subscribes to everybody's discovery messages, unless that is done already; the
    // blobs are those of before.
    method Start(handle: Handle)
      modifies this`isRunning, this`callbackHandle
      ensures old(callbackHandle).Some? ==> isRunning == old(isRunning) && callbackHandle == old(callbackHandle)
      ensures old(callbackHandle).None? ==> isRunning && callbackHandle == Some(handle)
    {
      if callbackHandle.Some? {
        return;
      }
      callbackHandle := Some(handle);
      isRunning := true;
    }

    // Returns the retained message that replaces the previous one at the broker.
    method UpdateDiscoveryMsg(protocol: Protocol, blob: Blob) returns (published: Payload)
      modifies this`discoveryMap
      ensures discoveryMap == old(discoveryMap)[protocol := blob]
      ensures published == Join(discoveryMap)
    {
      discoveryMap := discoveryMap[protocol := blob];
      published := Join(discoveryMap);
    }

    // The blobs stay: a later Start of the same object begins with what was published before.
    method Stop() returns (published: seq<Payload>)
      modifies this`isRunning, this`callbackHandle
      ensures !isRunning && callbackHandle == None
      ensures published == [WillLeave, WillLeave]
    {
      isRunning := false;
      published := [WillLeave];
      published := published + [WillLeave];
      callbackHandle := None;
    }

    // Each callback is called once if the message is for its protocol, and not at all otherwise; an
    // empty message is for all protocols.
    method DiscoveryMessageCallback(from: ClientId, payload: Payload) returns (calls: seq<Invocation>)
      requires Valid()
      ensures from == "" ==> calls == []
      ensures forall call <- calls :: Called(call, from, payload)
      ensures from != "" ==> forall r <- callbacks ::
        multiset(calls)[Invocation(r.id, from, payload)]
          == if payload.WillLeave? || (r.protocol in payload.blobs && r.protocol != "status") then 1 else 0
    {
      calls := [];
      if from == "" {
        return;
      }
      match payload {
        case WillLeave =>
          for i := 0 to |callbacks|
            invariant forall call <- calls :: Called(call, from, payload)
            invariant forall k :: 0 <= k < |callbacks| ==>
              multiset(calls)[Invocation(callbacks[k].id, from, payload)] == if k < i then 1 else 0
          {
            calls := calls + [Invocation(callbacks[i].id, from, payload)];
          }
        case Join(blobs) =>
          var keys := blobs.Keys - {"status"};
          ghost var done: set<Protocol> := {};
          while keys != {}
            invariant done + keys == blobs.Keys - {"status"} && done !! keys
            invariant forall call <- calls :: Called(call, from, payload)
            invariant forall r <- callbacks ::
              multiset(calls)[Invocation(r.id, from, payload)] == if r.protocol in done then 1 else 0
            decreases |keys|
          {
            var key :| key in keys;
            calls := InvokeProtocol(key, from, payload, calls);
            done := done + {key};
            keys := keys - {key};
          }
      }
    }

    ghost predicate Called(call: Invocation, from: ClientId, payload: Payload) reads this {
      call == Invocation(call.callback, from, payload) && exists r <- callbacks :: r.id == call.callback
    }

    method InvokeProtocol(key: Protocol, from: ClientId, payload: Payload, before: seq<Invocation>) returns (calls: seq<Invocation>)
      requires Valid()
      requires forall call <- before :: Called(call, from, payload)
      ensures forall call <- calls :: Called(call, from, payload)
      ensures forall r <- callbacks ::
        multiset(calls)[Invocation(r.id, from, payload)]
          == multiset(before)[Invocation(r.id, from, payload)] + if r.protocol == key then 1 else 0
    {
      calls := before;
      for i := 0 to |callbacks|
        invariant forall call <- calls :: Called(call, from, payload)
        invariant forall k :: 0 <= k < |callbacks| ==>
          multiset(calls)[Invocation(callbacks[k].id, from, payload)]
            == multiset(before)[Invocation(callbacks[k].id, from, payload)] + if k < i && callbacks[k].protocol == key then 1 else 0
      {
        if callbacks[i].protocol == key {
          calls := calls + [Invocation(callbacks[i].id, from, payload)];
        }
      }
    }
  }
}
