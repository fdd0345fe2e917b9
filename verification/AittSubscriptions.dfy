/**
 * The subscription bookkeeping of src/AITTImpl.cc: the list of subscriptions handed to users, the
 * MQTT client's subscriber list and the discovery table must name the same MQTT handles.
 * User callbacks run on the main loop, so these calls never come from inside a dispatch.
 */
module AittSubscriptions {
  import opened Results
  import opened Handles
  import opened Sequences
  import opened MessageDispatch
  import opened Discovery
  import opened ReplyTopics
  import opened Decimals

  datatype AittProtocol = Mqtt | Tcp | SecureTcp | Unknown

  // The address of a SubscribeInfo, which is what the user gets as AittSubscribeID.
  datatype InfoPtr = InfoPtr(address: nat)
  datatype SubscribeInfo = SubscribeInfo(protocol: AittProtocol, handle: Handle)

  // What memory allocation yields for a new subscription: the record, the transport's handle, and
  // the capacity of the client's vector if that has to grow.
  datatype Allocation = Allocation(info: InfoPtr, transportHandle: Handle, room: nat)

  // All tables together. `given` is the user data passed to Subscribe, `owner` the subscription
  // a handle was made for, `vector` what the client keeps besides its subscribers, `transports`
  // what the TCP modules hold.
  datatype Books = Books(
    list: seq<InfoPtr>, infos: map<InfoPtr, SubscribeInfo>,
    given: map<InfoPtr, int>, owner: map<SubscribeInfo, InfoPtr>,
    subscribers: seq<SubscribeData>, nextHandle: Handle, vector: Vector, topics: map<Handle, string>,
    transports: map<SubscribeInfo, int>, replyId: nat)

  // A listed subscription owns the handle it holds.
  ghost predicate ListedOk(b: Books, i: InfoPtr) {
    i in b.list ==>
      && i in b.infos && i in b.given
      && b.infos[i] in b.owner && b.owner[b.infos[i]] == i
  }

  // An owned handle is held by a listed subscription and known where it came from, with the user
  // data given for it.
  ghost predicate OwnedOk(b: Books, s: SubscribeInfo) {
    s in b.owner ==>
      var i := b.owner[s];
      && i in b.list && i in b.infos && b.infos[i] == s && i in b.given
      && match s.protocol
         case Mqtt =>
           s.handle in b.topics && Subscribes(b.subscribers, SubscribeData(s.handle, b.topics[s.handle], b.given[i]))
         case Unknown => false
         case _ => s in b.transports && b.transports[s] == b.given[i]
  }

  predicate Subscribes(subscribers: seq<SubscribeData>, x: SubscribeData) {
    x in subscribers
  }

  // A subscriber of the MQTT client is in the discovery table.
  ghost predicate SubscriberOk(b: Books, x: SubscribeData) {
    Subscribes(b.subscribers, x) ==> x.handle in b.topics && b.topics[x.handle] == x.topic
  }

  ghost predicate TopicOk(b: Books, h: Handle) {
    h in b.topics ==> SubscribeInfo(Mqtt, h) in b.owner && h < b.nextHandle
  }

  ghost predicate TransportOk(b: Books, s: SubscribeInfo) {
    s in b.transports ==> s in b.owner && s.protocol != Mqtt
  }

  // The tables hold the same handles, each once.
  ghost predicate Agree(b: Books) {
    && Distinct(b.subscribers)
    && NoDup(b.list)
    && (forall i :: ListedOk(b, i))
    && (forall s :: OwnedOk(b, s))
    && (forall x :: SubscriberOk(b, x))
    && (forall h :: TopicOk(b, h))
    && (forall s :: TransportOk(b, s))
  }

  // ---------------------------------------------------------------- the two table updates

  function Subscribed(b: Books, i: InfoPtr, s: SubscribeInfo, topic: string, userData: int, room: nat): Books {
    var common := b.(list := b.list + [i], infos := b.infos[i := s], given := b.given[i := userData], owner := b.owner[s := i]);
    if s.protocol == Mqtt then
      common.(subscribers := b.subscribers + [SubscribeData(s.handle, topic, userData)],
              nextHandle := b.nextHandle + 1, vector := Pushed(b.vector, |b.subscribers|, room),
              topics := b.topics[s.handle := topic])
    else common.(transports := b.transports[s := userData])
  }

  function Unsubscribed(b: Books, i: InfoPtr): Books
    requires i in b.infos
  {
    var s := b.infos[i];
    var common := b.(list := Dropped(b.list, i), infos := b.infos - {i}, given := b.given - {i}, owner := b.owner - {s});
    if s.protocol == Mqtt then
      common.(subscribers := Without(b.subscribers, s.handle), topics := b.topics - {s.handle},
              vector := Erased(b.vector, Find(b.subscribers, s.handle)))
    else common.(transports := b.transports - {s})
  }

  // What a new subscription needs: an address not in use, the client's next handle or a new one
  // of the transport.
  ghost predicate Unused(b: Books, i: InfoPtr, s: SubscribeInfo) {
    i !in b.infos && if s.protocol == Mqtt then s.handle == b.nextHandle else s !in b.transports
  }

  lemma SubscribedAgrees(b: Books, i: InfoPtr, s: SubscribeInfo, topic: string, userData: int, room: nat)
    requires Agree(b) && Unused(b, i, s) && s.protocol != Unknown
    ensures Agree(Subscribed(b, i, s, topic, userData, room))
  {
    var b' := Subscribed(b, i, s, topic, userData, room);
    assert OwnedOk(b, s) && TopicOk(b, s.handle) && ListedOk(b, i);
    assert s !in b.owner && i !in b.list;
    if s.protocol == Mqtt {
      forall y | y in b.subscribers ensures y.handle != s.handle {
        assert Subscribes(b.subscribers, y) && SubscriberOk(b, y) && TopicOk(b, y.handle);
      }
    }
    forall j ensures ListedOk(b', j) {
      assert ListedOk(b, j);
    }
    SubscribedOwned(b, i, s, topic, userData, room);
    forall x ensures SubscriberOk(b', x) {
      assert SubscriberOk(b, x);
    }
    forall h ensures TopicOk(b', h) {
      assert TopicOk(b, h);
    }
    forall o ensures TransportOk(b', o) {
      assert TransportOk(b, o);
    }
  }

  lemma SubscribedOwned(b: Books, i: InfoPtr, s: SubscribeInfo, topic: string, userData: int, room: nat)
    requires Agree(b) && Unused(b, i, s) && s.protocol != Unknown && s !in b.owner && i !in b.list
    ensures forall o :: OwnedOk(Subscribed(b, i, s, topic, userData, room), o)
  {
    var b' := Subscribed(b, i, s, topic, userData, room);
    forall o ensures OwnedOk(b', o) {
      assert OwnedOk(b, o);
      if o in b.owner {
        assert b.owner[o] != i;
        if o.protocol == Mqtt && s.protocol == Mqtt {
          assert o.handle != s.handle;
        }
      }
    }
  }

  lemma UnsubscribedAgrees(b: Books, i: InfoPtr)
    requires Agree(b) && i in b.list && i in b.infos
    ensures Agree(Unsubscribed(b, i))
  {
    var s := b.infos[i];
    var b' := Unsubscribed(b, i);
    assert ListedOk(b, i) && OwnedOk(b, s);
    DroppedOne(b.list, i);
    WithoutKeeps(b.subscribers, s.handle);
    forall j ensures ListedOk(b', j) {
      assert ListedOk(b, j);
    }
    UnsubscribedOwned(b, i);
    forall x ensures SubscriberOk(b', x) {
      assert SubscriberOk(b, x);
    }
    forall h ensures TopicOk(b', h) {
      assert TopicOk(b, h);
    }
    forall o ensures TransportOk(b', o) {
      assert TransportOk(b, o);
    }
  }

  lemma UnsubscribedOwned(b: Books, i: InfoPtr)
    requires Agree(b) && i in b.list && i in b.infos
    ensures forall o :: OwnedOk(Unsubscribed(b, i), o)
  {
    var s := b.infos[i];
    var b' := Unsubscribed(b, i);
    assert ListedOk(b, i) && OwnedOk(b, s);
    DroppedOne(b.list, i);
    WithoutKeeps(b.subscribers, s.handle);
    forall o ensures OwnedOk(b', o) {
      assert OwnedOk(b, o);
      if o in b.owner && o != s {
        assert b.owner[o] != i;
      }
    }
  }

  // ---------------------------------------------------------------- what agreement means

  // The MQTT handles of the listed subscriptions, in list order.
  function MqttHandles(list: seq<InfoPtr>, infos: map<InfoPtr, SubscribeInfo>): seq<Handle> {
    if list == [] then []
    else
      (if list[0] in infos && infos[list[0]].protocol == Mqtt then [infos[list[0]].handle] else [])
      + MqttHandles(list[1..], infos)
  }

  lemma {:induction false} MqttHandlesMembers(list: seq<InfoPtr>, infos: map<InfoPtr, SubscribeInfo>, h: Handle)
    ensures h in MqttHandles(list, infos) <==> exists i <- list :: i in infos && infos[i] == SubscribeInfo(Mqtt, h)
  {
    if list != [] {
      assert list == [list[0]] + list[1..];
      MqttHandlesMembers(list[1..], infos, h);
    }
  }

  function HandleSet(hs: seq<Handle>): set<Handle> {
    set h | h in hs
  }

  function HandlesOf(s: seq<SubscribeData>): seq<Handle> {
    if s == [] then [] else [s[0].handle] + HandlesOf(s[1..])
  }

  // Every listed subscription owns what it holds, so no handle is held twice.
  lemma {:induction false} MqttHandlesOnce(list: seq<InfoPtr>, infos: map<InfoPtr, SubscribeInfo>, owner: map<SubscribeInfo, InfoPtr>)
    requires NoDup(list) && forall i <- list :: i in infos && infos[i] in owner && owner[infos[i]] == i
    ensures |MqttHandles(list, infos)| == |HandleSet(MqttHandles(list, infos))|
  {
    if list != [] {
      var first, rest := list[0], list[1..];
      assert forall k :: 0 <= k < |rest| ==> rest[k] == list[k + 1];
      MqttHandlesOnce(rest, infos, owner);
      if infos[first].protocol == Mqtt {
        var h := infos[first].handle;
        assert infos[first] == SubscribeInfo(Mqtt, h);
        MqttHandlesMembers(rest, infos, h);
        OneMore(h, MqttHandles(rest, infos));
        assert MqttHandles(list, infos) == [h] + MqttHandles(rest, infos);
      } else {
        assert MqttHandles(list, infos) == MqttHandles(rest, infos);
      }
    }
  }

  lemma OneMore(h: Handle, tail: seq<Handle>)
    requires h !in tail && |tail| == |HandleSet(tail)|
    ensures |[h] + tail| == |HandleSet([h] + tail)|
  {
    assert HandleSet([h] + tail) == HandleSet(tail) + {h};
  }

  lemma {:induction false} HandlesMembers(s: seq<SubscribeData>, h: Handle)
    ensures h in HandlesOf(s) <==> exists x <- s :: x.handle == h
  {
    if s != [] {
      assert s == [s[0]] + s[1..];
      HandlesMembers(s[1..], h);
    }
  }

  lemma {:induction false} SubscribersOnce(s: seq<SubscribeData>)
    requires Distinct(s)
    ensures |s| == |HandlesOf(s)| == |HandleSet(HandlesOf(s))|
  {
    if s != [] {
      var rest := s[1..];
      assert forall k :: 0 <= k < |rest| ==> rest[k] == s[k + 1];
      SubscribersOnce(rest);
      HandlesMembers(rest, s[0].handle);
      OneMore(s[0].handle, HandlesOf(rest));
    }
  }

  // The three tables hold the same handles, each of them once.
  lemma AgreeingTables(b: Books)
    requires Agree(b)
    ensures HandleSet(MqttHandles(b.list, b.infos)) == HandleSet(HandlesOf(b.subscribers)) == b.topics.Keys
    ensures |MqttHandles(b.list, b.infos)| == |b.subscribers| == |b.topics|
  {
    forall h ensures h in MqttHandles(b.list, b.infos) <==> h in b.topics {
      MqttHandlesMembers(b.list, b.infos, h);
      var s := SubscribeInfo(Mqtt, h);
      assert TopicOk(b, h) && OwnedOk(b, s);
      if h in MqttHandles(b.list, b.infos) {
        var i :| i in b.list && i in b.infos && b.infos[i] == s;
        assert ListedOk(b, i);
      }
    }
    forall h ensures h in HandlesOf(b.subscribers) <==> h in b.topics {
      SubscribedHandle(b, h);
    }
    forall i | i in b.list ensures i in b.infos && b.infos[i] in b.owner && b.owner[b.infos[i]] == i {
      assert ListedOk(b, i);
    }
    MqttHandlesOnce(b.list, b.infos, b.owner);
    SubscribersOnce(b.subscribers);
    assert |b.topics| == |b.topics.Keys|;
  }

  lemma SubscribedHandle(b: Books, h: Handle)
    requires Agree(b)
    ensures h in HandlesOf(b.subscribers) <==> h in b.topics
  {
    HandlesMembers(b.subscribers, h);
    var s := SubscribeInfo(Mqtt, h);
    assert TopicOk(b, h) && OwnedOk(b, s);
    if h in b.topics {
      var x := SubscribeData(h, b.topics[h], b.given[b.owner[s]]);
      assert Subscribes(b.subscribers, x);
    }
    forall x | x in b.subscribers ensures x.handle in b.topics {
      assert Subscribes(b.subscribers, x) && SubscriberOk(b, x);
    }
  }

  // The user data of a listed subscription is found where its handle leads.
  lemma OwnsItsData(b: Books, i: InfoPtr)
    requires Agree(b) && i in b.list && i in b.infos
    ensures i in b.given
    ensures var s := b.infos[i];
      if s.protocol == Mqtt then
        var k := Find(b.subscribers, s.handle);
        k < |b.subscribers| && b.subscribers[k].userData == b.given[i] && s.handle in b.topics
      else s in b.transports && b.transports[s] == b.given[i]
  {
    var s := b.infos[i];
    assert ListedOk(b, i) && OwnedOk(b, s);
    if s.protocol == Mqtt {
      var x := SubscribeData(s.handle, b.topics[s.handle], b.given[i]);
      assert Subscribes(b.subscribers, x);
    }
  }

  // ---------------------------------------------------------------- the calls on values

  function AfterSubscribe(b: Books, topic: string, userData: int, protocol: AittProtocol, brokerOk: bool,
                          a: Allocation): (Books, Result<InfoPtr>)
  {
    match protocol
    case Unknown => (b, Err(InvalidArgument))
    case Mqtt =>
      if brokerOk then (Subscribed(b, a.info, SubscribeInfo(Mqtt, b.nextHandle), topic, userData, a.room), Ok(a.info))
      else (b, Err(MqttError))
    case _ => (Subscribed(b, a.info, SubscribeInfo(protocol, a.transportHandle), topic, userData, a.room), Ok(a.info))
  }

  // What the client, the discovery table and the transports are asked for one subscription: the
  // client drops its entry before the broker is asked, and an error stops before the discovery table.
  function Released(b: Books, s: SubscribeInfo, brokerOk: bool): (Books, Result<int>) {
    if s.protocol == Mqtt then
      var k := Find(b.subscribers, s.handle);
      var dropped := b.(subscribers := Without(b.subscribers, s.handle), vector := Erased(b.vector, k));
      if k == |b.subscribers| then (b, Err(NoData))
      else if !brokerOk then (dropped, Err(MqttError))
      else if s.handle !in b.topics then (dropped, Err(NoData))
      else (dropped.(topics := b.topics - {s.handle}), Ok(b.subscribers[k].userData))
    else (b.(transports := b.transports - {s}), Ok(if s in b.transports then b.transports[s] else 0))
  }

  // The record is deleted.
  function Deleted(b: Books, i: InfoPtr): Books
    requires i in b.infos
  {
    b.(infos := b.infos - {i}, given := b.given - {i}, owner := b.owner - {b.infos[i]})
  }

  function AfterUnsubscribe(b: Books, i: InfoPtr, brokerOk: bool): (Books, Result<int>)
    requires i in b.list ==> i in b.infos
  {
    if i !in b.list then (b, Err(NoData))
    else
      var (released, r) := Released(b, b.infos[i], brokerOk);
      if r.Err? then (released, r)
      else (Deleted(released, i).(list := Dropped(b.list, i)), r)
  }

  // The list is emptied at the end; an error leaves it as it was.
  function AfterUnsubscribeAll(b: Books, pending: seq<InfoPtr>, answers: seq<bool>): (Books, Result<int>)
    requires NoDup(pending) && |answers| == |pending| && forall i <- pending :: i in b.infos
    decreases |pending|
  {
    if pending == [] then (b.(list := []), Ok(0))
    else
      var (released, r) := Released(b, b.infos[pending[0]], answers[0]);
      if r.Err? then (released, r)
      else AfterUnsubscribeAll(Deleted(released, pending[0]), pending[1..], answers[1..])
  }

  // Unsubscribing returns the user data given at subscription. It fails exactly when the broker
  // refuses, and then the tables no longer agree.
  lemma UnsubscribeAgrees(b: Books, i: InfoPtr, brokerOk: bool)
    requires Agree(b) && i in b.list
    ensures ListedOk(b, i)
    ensures var (b', r) := AfterUnsubscribe(b, i, brokerOk);
      if b.infos[i].protocol == Mqtt && !brokerOk then r == Err(MqttError) && !Agree(b')
      else r == Ok(b.given[i]) && b' == Unsubscribed(b, i) && Agree(b')
  {
    assert ListedOk(b, i);
    OwnsItsData(b, i);
    if b.infos[i].protocol == Mqtt && !brokerOk {
      HalfReleased(b, i, b.list, AfterUnsubscribe(b, i, brokerOk).0.vector);
    } else {
      UnsubscribedAgrees(b, i);
    }
  }

  // With the client's entry gone but the discovery table as before, the tables disagree.
  lemma HalfReleased(b: Books, i: InfoPtr, list: seq<InfoPtr>, v: Vector)
    requires Agree(b) && i in b.list && i in b.infos && b.infos[i].protocol == Mqtt
    ensures !Agree(b.(subscribers := Without(b.subscribers, b.infos[i].handle), list := list, vector := v))
  {
    var s := b.infos[i];
    var b' := b.(subscribers := Without(b.subscribers, s.handle), list := list, vector := v);
    assert ListedOk(b, i) && OwnedOk(b, s);
    WithoutKeeps(b.subscribers, s.handle);
    assert !OwnedOk(b', s);
  }

  predicate Refuses(b: Books, i: InfoPtr, brokerOk: bool) {
    i in b.infos && b.infos[i].protocol == Mqtt && !brokerOk
  }

  // Unsubscribing everything empties all tables unless the broker refuses one of the requests;
  // then the list still names what was released and the tables disagree.
  lemma {:induction false} UnsubscribeAllEmpties(b: Books, pending: seq<InfoPtr>, answers: seq<bool>)
    requires Agree(b.(list := pending)) && |answers| == |pending|
    ensures NoDup(pending) && forall i <- pending :: i in b.infos
    ensures var (b', r) := AfterUnsubscribeAll(b, pending, answers);
      if exists k :: 0 <= k < |pending| && Refuses(b, pending[k], answers[k]) then
        r == Err(MqttError) && b'.list == b.list && !Agree(b')
      else r.Ok? && Agree(b') && b'.list == [] && b'.subscribers == [] && b'.topics == map[] && b'.transports == map[]
    decreases |pending|
  {
    var c := b.(list := pending);
    forall i | i in pending ensures i in b.infos {
      assert ListedOk(c, i);
    }
    if pending == [] {
      NothingListed(c);
    } else {
      var i, rest := pending[0], pending[1..];
      OwnsItsData(c, i);
      if Refuses(b, i, answers[0]) {
        HalfReleased(c, i, b.list, AfterUnsubscribeAll(b, pending, answers).0.vector);
        assert Refuses(b, pending[0], answers[0]);
      } else {
        UnsubscribedAgrees(c, i);
        var b1 := Deleted(Released(b, b.infos[i], answers[0]).0, i);
        assert b1.(list := rest) == Unsubscribed(c, i);
        UnsubscribeAllEmpties(b1, rest, answers[1..]);
        RefusalsShift(b, b1, pending, answers);
      }
    }
  }

  lemma RefusalsShift(b: Books, b1: Books, pending: seq<InfoPtr>, answers: seq<bool>)
    requires pending != [] && |answers| == |pending| && NoDup(pending) && pending[0] in b.infos
    requires b1.infos == b.infos - {pending[0]} && !Refuses(b, pending[0], answers[0])
    ensures (exists k :: 0 <= k < |pending| && Refuses(b, pending[k], answers[k]))
       <==> (exists k :: 0 <= k < |pending[1..]| && Refuses(b1, pending[1..][k], answers[1..][k]))
  {
    forall k | 0 <= k < |pending[1..]|
      ensures Refuses(b1, pending[1..][k], answers[1..][k]) <==> Refuses(b, pending[k + 1], answers[k + 1])
    {
      assert pending[1..][k] == pending[k + 1] && pending[k + 1] != pending[0];
    }
    if k :| 0 <= k < |pending| && Refuses(b, pending[k], answers[k]) {
      assert k > 0;
      assert Refuses(b1, pending[1..][k - 1], answers[1..][k - 1]);
    }
  }

  lemma NothingListed(b: Books)
    requires Agree(b) && b.list == []
    ensures b.subscribers == [] && b.topics == map[] && b.transports == map[]
  {
    forall s ensures s !in b.owner {
      assert OwnedOk(b, s);
    }
    forall h ensures h !in b.topics {
      assert TopicOk(b, h);
    }
    forall s ensures s !in b.transports {
      assert TransportOk(b, s);
    }
    if b.subscribers != [] {
      var x := b.subscribers[0];
      assert Subscribes(b.subscribers, x) && SubscriberOk(b, x);
    }
  }

  // ---------------------------------------------------------------- messages

  // The subscribers a message reaches, when their callbacks only queue calls.
  function Invoked(b: Books, fits: SubscribeData -> bool): seq<SubscribeData> {
    Visit(Cursor(b.subscribers, 0, b.vector.updated), Registry(b.subscribers, [], b.nextHandle), [], fits, NoRequests).log
  }

  function Dispatched(b: Books): Books {
    b.(vector := Walked(b.vector, |b.subscribers|))
  }

  // The tables as the client's dispatch needs them.
  lemma DispatchesWell(b: Books)
    requires Agree(b)
    ensures WellFormed(Registry(b.subscribers, [], b.nextHandle))
  {
    forall x | x in b.subscribers ensures x.handle < b.nextHandle {
      assert Subscribes(b.subscribers, x) && SubscriberOk(b, x) && TopicOk(b, x.handle);
    }
  }

  // The matching subscribers are called, the first of them once more if the flag was left set.
  lemma InvokedTurns(b: Books, fits: SubscribeData -> bool)
    requires Agree(b)
    ensures var again := if b.vector.updated && b.subscribers != [] && fits(b.subscribers[0]) then [b.subscribers[0]] else [];
      Invoked(b, fits) == again + Chosen(b.subscribers, fits)
  {
    DispatchesWell(b);
    var c := Cursor(b.subscribers, 0, b.vector.updated);
    SilentVisit(c, Registry(b.subscribers, [], b.nextHandle), fits);
    if b.vector.updated && b.subscribers != [] {
      var turns := [b.subscribers[0]] + b.subscribers;
      assert turns[0] == b.subscribers[0] && turns[1..] == b.subscribers;
    }
  }

  lemma {:induction false} ChosenOnce(s: seq<SubscribeData>, fits: SubscribeData -> bool, x: SubscribeData)
    requires Distinct(s)
    ensures multiset(Chosen(s, fits))[x] == if x in s && fits(x) then 1 else 0
  {
    if s != [] {
      var rest := s[1..];
      assert s == [s[0]] + rest;
      assert forall i :: 0 <= i < |rest| ==> rest[i] == s[i + 1];
      ChosenOnce(rest, fits, x);
    }
  }

  // Every matching subscriber is called exactly once, and nobody else, if and only if the flag is
  // clear or the first subscriber does not match.
  lemma CalledOnceIff(b: Books, fits: SubscribeData -> bool)
    requires Agree(b)
    ensures (forall x :: multiset(Invoked(b, fits))[x] == if x in b.subscribers && fits(x) then 1 else 0)
       <==> !b.vector.updated || b.subscribers == [] || !fits(b.subscribers[0])
  {
    InvokedTurns(b, fits);
    var once := Chosen(b.subscribers, fits);
    forall x ensures multiset(once)[x] == if x in b.subscribers && fits(x) then 1 else 0 {
      ChosenOnce(b.subscribers, fits, x);
    }
    assert [] + once == once;
    if b.vector.updated && b.subscribers != [] && fits(b.subscribers[0]) {
      var first := b.subscribers[0];
      assert multiset(Invoked(b, fits))[first] == 2;
    }
  }

  // ---------------------------------------------------------------- whole runs

  // PublishWithReply subscribes to a reply topic; a final reply unsubscribes from it.
  datatype Call =
    | CallSubscribe(topic: string, userData: int, protocol: AittProtocol, brokerOk: bool, a: Allocation)
    | CallUnsubscribe(id: InfoPtr, brokerOk: bool)
    | CallPublishWithReply(topic: string, userData: int, protocol: AittProtocol, brokerOk: bool, a: Allocation)
    | CallReply(id: InfoPtr, end: bool, brokerOk: bool)
    | CallUnsubscribeAll(answers: seq<bool>)

  function AfterPublishWithReply(b: Books, topic: string, userData: int, protocol: AittProtocol, brokerOk: bool,
                                 a: Allocation): (Books, Result<InfoPtr>)
  {
    AfterSubscribe(b.(replyId := Advance(b.replyId, 1)), ReplyTopic(topic, b.replyId), userData, protocol, brokerOk, a)
  }

  ghost predicate WellNamed(b: Books) {
    NoDup(b.list) && forall i <- b.list :: i in b.infos
  }

  function After(b: Books, call: Call): Books
    requires WellNamed(b)
    requires call.CallUnsubscribeAll? ==> |call.answers| == |b.list|
  {
    match call
    case CallSubscribe(topic, userData, protocol, ok, a) =>
      AfterSubscribe(b, topic, userData, protocol, ok, a).0
    case CallUnsubscribe(id, ok) => AfterUnsubscribe(b, id, ok).0
    case CallPublishWithReply(topic, userData, protocol, ok, a) =>
      AfterPublishWithReply(b, topic, userData, protocol, ok, a).0
    case CallReply(id, end, ok) => if end then AfterUnsubscribe(b, id, ok).0 else b
    case CallUnsubscribeAll(answers) => AfterUnsubscribeAll(b, b.list, answers).0
  }

  // New records get unused addresses.
  predicate Allocates(b: Books, protocol: AittProtocol, a: Allocation) {
    a.info !in b.infos && SubscribeInfo(protocol, a.transportHandle) !in b.transports
  }

  // UnsubscribeAll asks once per listed subscription.
  ghost predicate Possible(b: Books, call: Call) {
    match call
    case CallSubscribe(_, _, protocol, _, a) => Allocates(b, protocol, a)
    case CallPublishWithReply(_, _, protocol, _, a) => Allocates(b, protocol, a)
    case CallUnsubscribeAll(answers) => |answers| == |b.list|
    case _ => true
  }

  // The broker refuses to unsubscribe something the call releases.
  ghost predicate Refused(b: Books, call: Call) {
    match call
    case CallUnsubscribe(id, ok) => id in b.list && Refuses(b, id, ok)
    case CallReply(id, end, ok) => end && id in b.list && Refuses(b, id, ok)
    case CallUnsubscribeAll(answers) =>
      |answers| == |b.list| && exists k :: 0 <= k < |b.list| && Refuses(b, b.list[k], answers[k])
    case _ => false
  }

  lemma AgreeIsWellNamed(b: Books)
    requires Agree(b)
    ensures WellNamed(b)
  {
    forall i | i in b.list ensures i in b.infos {
      assert ListedOk(b, i);
    }
  }

  // A call keeps the tables in agreement exactly when the broker refuses no unsubscription.
  lemma CallAgrees(b: Books, call: Call)
    requires Agree(b) && Possible(b, call)
    ensures WellNamed(b)
    ensures Agree(After(b, call)) <==> !Refused(b, call)
  {
    AgreeIsWellNamed(b);
    match call
    case CallSubscribe(topic, userData, protocol, ok, a) =>
      SubscribeAgrees(b, topic, userData, protocol, ok, a);
    case CallUnsubscribe(id, ok) =>
      if id in b.list {
        UnsubscribeAgrees(b, id, ok);
      }
    case CallPublishWithReply(topic, userData, protocol, ok, a) =>
      var b1 := b.(replyId := Advance(b.replyId, 1));
      OtherCounters(b, Advance(b.replyId, 1), b.vector);
      SubscribeAgrees(b1, ReplyTopic(topic, b.replyId), userData, protocol, ok, a);
    case CallReply(id, end, ok) =>
      if end && id in b.list {
        UnsubscribeAgrees(b, id, ok);
      }
    case CallUnsubscribeAll(answers) =>
      assert b.(list := b.list) == b;
      UnsubscribeAllEmpties(b, b.list, answers);
  }

  lemma OtherCounters(b: Books, n: nat, v: Vector)
    requires Agree(b)
    ensures Agree(b.(replyId := n, vector := v))
  {
    var b' := b.(replyId := n, vector := v);
    forall i ensures ListedOk(b', i) {
      assert ListedOk(b, i);
    }
    forall s ensures OwnedOk(b', s) && TransportOk(b', s) {
      assert OwnedOk(b, s) && TransportOk(b, s);
    }
    forall x ensures SubscriberOk(b', x) {
      assert SubscriberOk(b, x);
    }
    forall h ensures TopicOk(b', h) {
      assert TopicOk(b, h);
    }
  }

  lemma SubscribeAgrees(b: Books, topic: string, userData: int, protocol: AittProtocol, brokerOk: bool, a: Allocation)
    requires Agree(b) && Allocates(b, protocol, a)
    ensures Agree(AfterSubscribe(b, topic, userData, protocol, brokerOk, a).0)
  {
    if protocol != Unknown && (protocol == Mqtt ==> brokerOk) {
      var s := SubscribeInfo(protocol, if protocol == Mqtt then b.nextHandle else a.transportHandle);
      SubscribedAgrees(b, a.info, s, topic, userData, a.room);
    }
  }

  // A run in which the broker refuses no unsubscription.
  ghost predicate Smooth(b: Books, calls: seq<Call>)
    decreases |calls|
  {
    calls != [] ==>
      && WellNamed(b) && Possible(b, calls[0]) && !Refused(b, calls[0])
      && Smooth(After(b, calls[0]), calls[1..])
  }

  ghost function AfterAll(b: Books, calls: seq<Call>): Books
    requires Smooth(b, calls)
    decreases |calls|
  {
    if calls == [] then b else AfterAll(After(b, calls[0]), calls[1..])
  }

  // After any such run the tables agree.
  lemma {:induction false} RunAgrees(b: Books, calls: seq<Call>)
    requires Agree(b) && Smooth(b, calls)
    ensures Agree(AfterAll(b, calls))
    decreases |calls|
  {
    if calls != [] {
      CallAgrees(b, calls[0]);
      RunAgrees(After(b, calls[0]), calls[1..]);
    }
  }

  ghost predicate Kept(b: Books, b': Books, i: InfoPtr) {
    && i in b.given && i in b'.given && b'.given[i] == b.given[i]
    && i in b.infos && i in b'.infos && b'.infos[i] == b.infos[i]
    && (b.infos[i].protocol == Mqtt ==>
          var h := b.infos[i].handle; h in b.topics && h in b'.topics && b'.topics[h] == b.topics[h])
  }

  // A handle that has been given back does not reappear with the next call.
  lemma GoneAfterCall(b: Books, call: Call, h: Handle)
    requires Agree(b) && Possible(b, call) && !Refused(b, call)
    requires h !in b.topics && h < b.nextHandle
    ensures WellNamed(b)
    ensures h !in After(b, call).topics && h < After(b, call).nextHandle
  {
    AgreeIsWellNamed(b);
    if call.CallUnsubscribeAll? {
      GoneAfterAll(b, call.answers);
    }
  }

  // Nor ever, since handles are not reused.
  lemma {:induction false} GoneStaysGone(b: Books, calls: seq<Call>, h: Handle)
    requires Agree(b) && Smooth(b, calls) && h !in b.topics && h < b.nextHandle
    ensures h !in AfterAll(b, calls).topics && h !in HandlesOf(AfterAll(b, calls).subscribers)
    decreases |calls|
  {
    if calls == [] {
      SubscribedHandle(b, h);
    } else {
      CallAgrees(b, calls[0]);
      GoneAfterCall(b, calls[0], h);
      GoneStaysGone(After(b, calls[0]), calls[1..], h);
    }
  }

  lemma GoneAfterAll(b: Books, answers: seq<bool>)
    requires Agree(b) && WellNamed(b) && |answers| == |b.list| && !Refused(b, CallUnsubscribeAll(answers))
    ensures var b' := AfterUnsubscribeAll(b, b.list, answers).0; b'.topics == map[] && b'.nextHandle == b.nextHandle
  {
    assert b.(list := b.list) == b;
    UnsubscribeAllEmpties(b, b.list, answers);
    AllKeepCounters(b, b.list, answers);
  }

  lemma {:induction false} AllKeepCounters(b: Books, pending: seq<InfoPtr>, answers: seq<bool>)
    requires NoDup(pending) && |answers| == |pending| && forall i <- pending :: i in b.infos
    ensures var b' := AfterUnsubscribeAll(b, pending, answers).0; b'.nextHandle == b.nextHandle && b'.replyId == b.replyId
    decreases |pending|
  {
    if pending != [] {
      var (released, r) := Released(b, b.infos[pending[0]], answers[0]);
      if r.Ok? {
        assert WellNamed(b.(list := pending));
        TailWellNamed(b, pending);
        AllKeepCounters(Deleted(released, pending[0]), pending[1..], answers[1..]);
      }
    }
  }

  // Between a subscription and the call that removes it, nothing changes the user data it returns.
  lemma OthersKeepData(b: Books, call: Call, i: InfoPtr)
    requires Agree(b) && Possible(b, call) && !Refused(b, call) && i in b.list
    ensures WellNamed(b)
    ensures var b' := After(b, call);
      && (i in b'.list <==> !Removes(call, i))
      && (i in b'.list ==> Kept(b, b', i))
  {
    AgreeIsWellNamed(b);
    assert ListedOk(b, i) && OwnedOk(b, b.infos[i]) && TopicOk(b, b.infos[i].handle);
    match call
    case CallUnsubscribe(id, ok) =>
      OthersStay(b, id, i, ok);
    case CallReply(id, end, ok) =>
      if end {
        OthersStay(b, id, i, ok);
      }
    case CallUnsubscribeAll(answers) =>
      assert b.(list := b.list) == b;
      UnsubscribeAllEmpties(b, b.list, answers);
    case _ =>
  }

  predicate Removes(call: Call, i: InfoPtr) {
    match call
    case CallUnsubscribe(id, _) => id == i
    case CallReply(id, end, _) => end && id == i
    case CallUnsubscribeAll(_) => true
    case _ => false
  }

  // After any calls that do not remove it, unsubscribing returns the user data given long before.
  lemma {:induction false} DataComesBack(b: Books, calls: seq<Call>, i: InfoPtr)
    requires Agree(b) && Smooth(b, calls) && i in b.list && i in b.given
    requires forall call <- calls :: !Removes(call, i)
    ensures var b' := AfterAll(b, calls);
      && i in b'.list && i in b'.infos
      && AfterUnsubscribe(b', i, true).1 == Ok(b.given[i])
    decreases |calls|
  {
    if calls == [] {
      UnsubscribeAgrees(b, i, true);
    } else {
      assert calls[0] in calls && forall call <- calls[1..] :: call in calls;
      CallAgrees(b, calls[0]);
      OthersKeepData(b, calls[0], i);
      DataComesBack(After(b, calls[0]), calls[1..], i);
    }
  }

  // Whatever the protocol: a subscription succeeds exactly if the protocol is known and, for MQTT, the
  // broker accepts it, and after any calls that do not remove it, unsubscribing returns the user data
  // it was made with.
  lemma SubscribedDataComesBack(b: Books, topic: string, userData: int, protocol: AittProtocol, brokerOk: bool,
                                a: Allocation, calls: seq<Call>)
    requires Agree(b) && Allocates(b, protocol, a)
    requires Smooth(AfterSubscribe(b, topic, userData, protocol, brokerOk, a).0, calls)
    requires forall call <- calls :: !Removes(call, a.info)
    ensures var (b', r) := AfterSubscribe(b, topic, userData, protocol, brokerOk, a);
      && (r.Ok? <==> protocol != Unknown && (protocol == Mqtt ==> brokerOk))
      && (r.Err? ==> b' == b)
      && (r.Ok? ==>
            && r.value == a.info && a.info !in b.list
            && var later := AfterAll(b', calls);
               && a.info in later.list && a.info in later.infos && later.infos[a.info].protocol == protocol
               && AfterUnsubscribe(later, a.info, true).1 == Ok(userData))
  {
    var (b', r) := AfterSubscribe(b, topic, userData, protocol, brokerOk, a);
    SubscribeAgrees(b, topic, userData, protocol, brokerOk, a);
    assert ListedOk(b, a.info);
    if r.Ok? {
      assert ListedOk(b', a.info);
      DataComesBack(b', calls, a.info);
      InfoStays(b', calls, a.info);
    }
  }

  lemma {:induction false} InfoStays(b: Books, calls: seq<Call>, i: InfoPtr)
    requires Agree(b) && Smooth(b, calls) && i in b.list && i in b.infos
    requires forall call <- calls :: !Removes(call, i)
    ensures i in AfterAll(b, calls).infos && AfterAll(b, calls).infos[i] == b.infos[i]
    decreases |calls|
  {
    if calls != [] {
      assert calls[0] in calls && forall call <- calls[1..] :: call in calls;
      CallAgrees(b, calls[0]);
      OthersKeepData(b, calls[0], i);
      InfoStays(After(b, calls[0]), calls[1..], i);
    }
  }

  lemma OthersStay(b: Books, id: InfoPtr, i: InfoPtr, ok: bool)
    requires Agree(b) && i in b.list && !(id in b.list && Refuses(b, id, ok))
    ensures id in b.list ==> id in b.infos
    ensures var b' := AfterUnsubscribe(b, id, ok).0;
      && (i in b'.list <==> id != i)
      && (i in b'.list ==> Kept(b, b', i))
  {
    assert ListedOk(b, i) && OwnedOk(b, b.infos[i]);
    if id in b.list {
      assert ListedOk(b, id) && OwnedOk(b, b.infos[id]);
      UnsubscribeAgrees(b, id, ok);
      DroppedOne(b.list, id);
    }
  }

  // ---------------------------------------------------------------- the code

  // A published request (src/MosquittoMQ.cc:272-297).
  datatype Request = Request(topic: string, replyTopic: string, correlation: string)

  class Impl {
    const mq: MosquittoMQ
    const handler: MQDiscoveryHandler
    var subscribedList: seq<InfoPtr>
    var infos: map<InfoPtr, SubscribeInfo>
    var transports: map<SubscribeInfo, int>
    var replyId: nat
    ghost var given: map<InfoPtr, int>
    ghost var owner: map<SubscribeInfo, InfoPtr>

    ghost predicate Sound() reads this, mq, handler {
      && mq.Valid() && !mq.subscribersIterating
      && replyId < COUNTER_SIZE
      && (forall h <- handler.mySubscribeTable :: h < mq.nextHandle)
    }

    ghost predicate Valid() reads this, mq, handler {
      Sound() && WellNamed(State())
    }

    ghost function State(): Books reads this, mq, handler {
      Books(subscribedList, infos, given, owner, mq.subscribers, mq.nextHandle, mq.Kept(),
            handler.mySubscribeTable, transports, replyId)
    }

    constructor (id: ClientId)
      ensures Valid() && Agree(State()) && fresh(mq) && fresh(handler)
      ensures subscribedList == [] && replyId == 0
    {
      mq := new MosquittoMQ();
      handler := new MQDiscoveryHandler(id);
      subscribedList, infos, transports, given, owner := [], map[], map[], map[], map[];
      replyId := 0;
    }

    method Subscribe(topic: string, userData: int, protocol: AittProtocol, brokerOk: bool, a: Allocation)
      returns (r: Result<InfoPtr>)
      requires Valid() && Allocates(State(), protocol, a)
      modifies this`subscribedList, this`infos, this`transports, this`given, this`owner, mq, handler`mySubscribeTable
      ensures Valid()
      ensures (State(), r) == AfterSubscribe(old(State()), topic, userData, protocol, brokerOk, a)
      ensures r == if protocol == Unknown then Err(InvalidArgument)
                   else if protocol == Mqtt && !brokerOk then Err(MqttError) else Ok(a.info)
      ensures r.Err? ==> State() == old(State())
      ensures r.Ok? ==>
        && subscribedList == old(subscribedList) + [a.info]
        && infos == old(infos)[a.info := SubscribeInfo(protocol, if protocol == Mqtt then old(mq.nextHandle) else a.transportHandle)]
      ensures r.Ok? && protocol == Mqtt ==>
        && mq.subscribers == old(mq.subscribers) + [SubscribeData(old(mq.nextHandle), topic, userData)]
        && handler.mySubscribeTable == old(handler.mySubscribeTable)[old(mq.nextHandle) := topic]
        && transports == old(transports)
      ensures r.Ok? && protocol != Mqtt ==>
        && transports == old(transports)[SubscribeInfo(protocol, a.transportHandle) := userData]
        && mq.subscribers == old(mq.subscribers) && handler.mySubscribeTable == old(handler.mySubscribeTable)
    {
      var handle: Handle;
      match protocol {
        case Mqtt =>
          var subscribed := SubscribeMQ(topic, userData, brokerOk, a.room);
          if subscribed.Err? {
            return Err(subscribed.error);
          }
          handle := subscribed.value;
        case Tcp =>
          handle := SubscribeTCP(protocol, userData, a.transportHandle);
        case SecureTcp =>
          handle := SubscribeTCP(protocol, userData, a.transportHandle);
        case Unknown =>
          return Err(InvalidArgument);
      }
      var s := SubscribeInfo(protocol, handle);
      infos := infos[a.info := s];
      subscribedList := subscribedList + [a.info];
      given := given[a.info := userData];
      owner := owner[s := a.info];
      return Ok(a.info);
    }

    method SubscribeMQ(topic: string, userData: int, brokerOk: bool, room: nat) returns (r: Result<Handle>)
      requires Valid()
      modifies mq, handler`mySubscribeTable
      ensures Valid()
      ensures r == if brokerOk then Ok(old(mq.nextHandle)) else Err(MqttError)
      ensures brokerOk ==>
        && mq.subscribers == old(mq.subscribers) + [SubscribeData(r.value, topic, userData)]
        && mq.nextHandle == old(mq.nextHandle) + 1
        && mq.Kept() == Pushed(old(mq.Kept()), |old(mq.subscribers)|, room)
        && handler.mySubscribeTable == old(handler.mySubscribeTable)[r.value := topic]
      ensures !brokerOk ==> State() == old(State())
    {
      r := mq.Subscribe(topic, userData, brokerOk, room);
      if r.Ok? {
        var _ := handler.Subscribe(r.value, topic);
      }
    }

    method SubscribeTCP(protocol: AittProtocol, userData: int, transportHandle: Handle) returns (handle: Handle)
      modifies this`transports
      ensures handle == transportHandle
      ensures transports == old(transports)[SubscribeInfo(protocol, handle) := userData]
    {
      transports := transports[SubscribeInfo(protocol, transportHandle) := userData];
      return transportHandle;
    }

    // The switch of Unsubscribe and UnsubscribeAll.
    method Release(s: SubscribeInfo, brokerOk: bool) returns (r: Result<int>)
      requires Sound()
      modifies this`transports, mq, handler`mySubscribeTable
      ensures Sound()
      ensures (State(), r) == Released(old(State()), s, brokerOk)
    {
      match s.protocol {
        case Mqtt =>
          r := mq.Unsubscribe(s.handle, brokerOk);
          if r.Ok? {
            var removed := handler.Unsubscribe(s.handle);
            if removed.Err? {
              r := Err(removed.error);
            }
          }
        case _ =>
          r := Ok(if s in transports then transports[s] else 0);
          transports := transports - {s};
      }
    }

    method Unsubscribe(id: InfoPtr, brokerOk: bool) returns (r: Result<int>)
      requires Valid()
      modifies this`subscribedList, this`infos, this`transports, this`given, this`owner, mq, handler`mySubscribeTable
      ensures Valid()
      ensures (State(), r) == AfterUnsubscribe(old(State()), id, brokerOk)
      ensures id !in old(subscribedList) ==> r == Err(NoData) && State() == old(State())
      ensures r.Err? ==> subscribedList == old(subscribedList)
    {
      var it := IndexOf(subscribedList, id);
      if it == |subscribedList| {
        return Err(NoData);
      }
      var s := infos[id];
      r := Release(s, brokerOk);
      if r.Err? {
        return;
      }
      DroppedAt(subscribedList, it);
      DroppedOne(subscribedList, id);
      subscribedList := subscribedList[..it] + subscribedList[it+1..];
      infos, given, owner := infos - {id}, given - {id}, owner - {s};
    }

    // One turn of UnsubscribeAll's loop.
    method ReleaseNext(id: InfoPtr, brokerOk: bool, ghost pending: seq<InfoPtr>, ghost answers: seq<bool>) returns (r: Result<int>)
      requires Sound() && WellNamed(State().(list := pending)) && |answers| == |pending|
      requires pending != [] && pending[0] == id && answers[0] == brokerOk
      modifies this`infos, this`transports, this`given, this`owner, mq, handler`mySubscribeTable
      ensures Sound()
      ensures r.Ok? ==>
        && WellNamed(State().(list := pending[1..]))
        && AfterUnsubscribeAll(State(), pending[1..], answers[1..]) == old(AfterUnsubscribeAll(State(), pending, answers))
      ensures r.Err? ==> (State(), r) == old(AfterUnsubscribeAll(State(), pending, answers))
    {
      TailWellNamed(State(), pending);
      var s := infos[id];
      r := Release(s, brokerOk);
      if r.Ok? {
        infos, given, owner := infos - {id}, given - {id}, owner - {s};
      }
    }

    // `answers` are the broker's, one per listed subscription. After an error the list names
    // deleted records, so the object must not be used any further.
    method UnsubscribeAll(answers: seq<bool>) returns (r: Result<int>)
      requires Valid() && |answers| == |subscribedList|
      modifies this`subscribedList, this`infos, this`transports, this`given, this`owner, mq, handler`mySubscribeTable
      ensures r.Ok? ==> Valid()
      ensures (State(), r) == AfterUnsubscribeAll(old(State()), old(subscribedList), answers)
    {
      var i := 0;
      assert subscribedList[0..] == subscribedList && answers[0..] == answers;
      while i < |subscribedList|
        invariant 0 <= i <= |subscribedList| == |answers| && subscribedList == old(subscribedList)
        invariant Sound() && WellNamed(State().(list := subscribedList[i..]))
        invariant AfterUnsubscribeAll(State(), subscribedList[i..], answers[i..])
               == AfterUnsubscribeAll(old(State()), subscribedList, answers)
      {
        ghost var pending, rest := subscribedList[i..], answers[i..];
        r := ReleaseNext(subscribedList[i], answers[i], pending, rest);
        if r.Err? {
          return;
        }
        assert pending[1..] == subscribedList[i+1..] && rest[1..] == answers[i+1..];
        i := i + 1;
      }
      assert subscribedList[i..] == [];
      subscribedList := [];
      return Ok(0);
    }

    // A broker that refuses the publication leaves the subscription to the reply topic in place.
    method PublishWithReply(topic: string, userData: int, protocol: AittProtocol, correlation: string,
                            brokerOk: bool, publishOk: bool, a: Allocation)
      returns (r: Result<Request>)
      requires Valid() && Allocates(State(), protocol, a)
      modifies this, mq, handler`mySubscribeTable
      ensures Valid()
      ensures var (after, subscribed) :=
          AfterPublishWithReply(old(State()), topic, userData, protocol, brokerOk, a);
        && State() == after
        && r == if subscribed.Err? then Err(subscribed.error)
                else if !publishOk then Err(MqttError)
                else Ok(Request(topic, ReplyTopic(topic, old(replyId)), correlation))
      ensures ReplyTopic(topic, old(replyId)) == topic + "_AittRe_" + ToString(old(replyId))
      ensures replyId == if old(replyId) == 65535 then 0 else old(replyId) + 1
    {
      var replyTopic := topic + RESPONSE_POSTFIX + ToString(replyId);
      replyId := (replyId + 1) % COUNTER_SIZE;
      var id := Subscribe(replyTopic, userData, protocol, brokerOk, a);
      if id.Err? {
        return Err(id.error);
      }
      if !publishOk {
        return Err(MqttError);
      }
      return Ok(Request(topic, replyTopic, correlation));
    }

    // A message for the client, whose callbacks only queue calls for the main loop.
    method MessageCB(fits: SubscribeData -> bool) returns (invoked: seq<SubscribeData>)
      requires Valid()
      modifies mq
      ensures Valid()
      ensures invoked == Invoked(old(State()), fits) && State() == Dispatched(old(State()))
    {
      invoked := SilentMessage(mq, fits);
    }

    // The callback PublishWithReply registers; errors of Unsubscribe are only logged.
    method ReplyCallback(id: InfoPtr, end: bool, brokerOk: bool)
      requires Valid()
      modifies this`subscribedList, this`infos, this`transports, this`given, this`owner, mq, handler`mySubscribeTable
      ensures Valid()
      ensures State() == After(old(State()), CallReply(id, end, brokerOk))
      ensures !end || id !in old(subscribedList) ==> State() == old(State())
    {
      if end {
        var _ := Unsubscribe(id, brokerOk);
      }
    }
  }

  lemma TailWellNamed(b: Books, pending: seq<InfoPtr>)
    requires pending != [] && WellNamed(b.(list := pending))
    ensures WellNamed(b.(list := pending[1..], infos := b.infos - {pending[0]}))
  {
    var rest := pending[1..];
    assert forall k :: 0 <= k < |rest| ==> rest[k] == pending[k + 1];
  }
}
