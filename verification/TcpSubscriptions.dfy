/**
 * The subscribing side of the TCP transport (modules/tcp/Module.cc): one listening server per
 * topic, its callbacks, its accepted connections, and the descriptors the main loop watches.
 * Addresses of callback and server records stand for the records.
 */
module TcpSubscriptions {
  import opened Results
  import opened Sequences

  type Topic = string
  datatype CbPtr = CbPtr(address: nat)
  datatype ServerPtr = ServerPtr(address: nat)
  datatype Fd = Fd(number: int)

  datatype Server = Server(topic: Topic, cbList: seq<CbPtr>, clientList: seq<Fd>, listenFd: Fd)

  // What the main loop keeps for a descriptor.
  datatype Watch = Accepting(server: ServerPtr) | Receiving(server: ServerPtr)

  datatype Tables = Tables(
    servers: map<ServerPtr, Server>,
    handles: map<CbPtr, ServerPtr>,
    watches: map<Fd, Watch>)

  // A handle maps to a server whose list holds it.
  ghost predicate HandleOk(t: Tables, h: CbPtr) {
    h in t.handles ==> t.handles[h] in t.servers && h in t.servers[t.handles[h]].cbList
  }

  // A server has callbacks, each once and each mapped to it.
  ghost predicate CallbacksOk(t: Tables, s: ServerPtr) {
    s in t.servers ==>
      var list := t.servers[s].cbList;
      list != [] && NoDup(list) && forall cb <- list :: cb in t.handles && t.handles[cb] == s
  }

  // A server's descriptors are watched for it, each client once.
  ghost predicate ClientsOk(t: Tables, s: ServerPtr) {
    s in t.servers ==>
      var server := t.servers[s];
      && server.listenFd in t.watches && t.watches[server.listenFd] == Accepting(s)
      && NoDup(server.clientList)
      && forall fd <- server.clientList :: fd in t.watches && t.watches[fd] == Receiving(s)
  }

  // A watched descriptor belongs to a server.
  ghost predicate WatchOk(t: Tables, fd: Fd) {
    fd in t.watches ==>
      var w := t.watches[fd];
      w.server in t.servers &&
      if w.Accepting? then t.servers[w.server].listenFd == fd else fd in t.servers[w.server].clientList
  }

  ghost predicate TopicOk(t: Tables, s: ServerPtr, s': ServerPtr) {
    s in t.servers && s' in t.servers && t.servers[s].topic == t.servers[s'].topic ==> s == s'
  }

  ghost predicate HandlesAgree(t: Tables) {
    (forall h :: HandleOk(t, h)) && (forall s :: CallbacksOk(t, s))
  }

  ghost predicate OneServerPerTopic(t: Tables) {
    forall s, s' :: TopicOk(t, s, s')
  }

  ghost predicate WatchesAgree(t: Tables) {
    (forall s :: ClientsOk(t, s)) && (forall fd :: WatchOk(t, fd))
  }

  ghost predicate Conserved(t: Tables) {
    HandlesAgree(t) && OneServerPerTopic(t) && WatchesAgree(t)
  }

  // ---------------------------------------------------------------- counting

  ghost function Sum<K(!new)>(m: map<K, nat>): nat
    decreases |m|
  {
    if m == map[] then 0
    else
      var k :| k in m;
      m[k] + Sum(m - {k})
  }

  lemma {:induction false} SumRemove<K(!new)>(m: map<K, nat>, k: K)
    requires k in m
    ensures Sum(m) == m[k] + Sum(m - {k})
    decreases |m|
  {
    var first :| first in m && Sum(m) == m[first] + Sum(m - {first});
    if first != k {
      SumRemove(m - {first}, k);
      SumRemove(m - {k}, first);
      assert m - {first} - {k} == m - {k} - {first};
    }
  }

  lemma SumUpdate<K(!new)>(m: map<K, nat>, k: K, v: nat)
    ensures Sum(m[k := v]) + (if k in m then m[k] else 0) == Sum(m) + v
  {
    SumRemove(m[k := v], k);
    assert m[k := v] - {k} == m - {k};
    if k in m {
      SumRemove(m, k);
    } else {
      assert m - {k} == m;
    }
  }

  function Lengths(servers: map<ServerPtr, Server>): map<ServerPtr, nat> {
    map s | s in servers :: |servers[s].cbList|
  }

  function CallbacksOf(servers: map<ServerPtr, Server>, s: ServerPtr): set<CbPtr>
    requires s in servers
  {
    set cb | cb in servers[s].cbList
  }

  lemma WithoutServer(servers: map<ServerPtr, Server>, handles: map<CbPtr, ServerPtr>, s: ServerPtr)
    requires HandlesAgree(Tables(servers, handles, map[])) && s in servers
    ensures HandlesAgree(Tables(servers - {s}, handles - CallbacksOf(servers, s), map[]))
    ensures |handles| == |servers[s].cbList| + |handles - CallbacksOf(servers, s)|
  {
    var own := CallbacksOf(servers, s);
    var t, t' := Tables(servers, handles, map[]), Tables(servers - {s}, handles - own, map[]);
    assert CallbacksOk(t, s);
    forall h ensures HandleOk(t', h) {
      assert HandleOk(t, h);
    }
    forall x ensures CallbacksOk(t', x) {
      assert CallbacksOk(t, x);
    }
    NoDupSize(servers[s].cbList);
    forall cb | cb in own ensures cb in handles {}
    assert own <= handles.Keys && (handles - own).Keys == handles.Keys - own;
  }

  // Every handle lies in exactly one callback list, so the lists together are as long as the handle table.
  lemma {:induction false} HandlesAreCallbacks(servers: map<ServerPtr, Server>, handles: map<CbPtr, ServerPtr>)
    requires HandlesAgree(Tables(servers, handles, map[]))
    ensures |handles| == Sum(Lengths(servers))
    decreases |servers|
  {
    if servers == map[] {
      assert handles == map[] by {
        forall h ensures h !in handles {
          assert HandleOk(Tables(servers, handles, map[]), h);
        }
      }
    } else {
      var s :| s in servers;
      WithoutServer(servers, handles, s);
      HandlesAreCallbacks(servers - {s}, handles - CallbacksOf(servers, s));
      LengthsDropped(servers, s);
    }
  }

  lemma LengthsDropped(servers: map<ServerPtr, Server>, s: ServerPtr)
    requires s in servers
    ensures Sum(Lengths(servers)) == |servers[s].cbList| + Sum(Lengths(servers - {s}))
  {
    SumRemove(Lengths(servers), s);
    assert Lengths(servers) - {s} == Lengths(servers - {s});
  }

  // Connections belong to one server each: client lists are disjoint, and together with the
  // listening descriptors they are exactly what is watched.
  lemma ConnectionsPartitioned(t: Tables)
    requires Conserved(t)
    ensures forall s <- t.servers, s' <- t.servers :: s != s' ==>
      forall fd <- t.servers[s].clientList :: fd !in t.servers[s'].clientList
    ensures t.watches.Keys ==
      (set s | s in t.servers :: t.servers[s].listenFd) + (set s, fd | s in t.servers && fd in t.servers[s].clientList :: fd)
  {
    forall s, s' | s in t.servers && s' in t.servers && s != s'
      ensures forall fd <- t.servers[s].clientList :: fd !in t.servers[s'].clientList
    {
      assert ClientsOk(t, s) && ClientsOk(t, s');
    }
    var all := (set s | s in t.servers :: t.servers[s].listenFd) + (set s, fd | s in t.servers && fd in t.servers[s].clientList :: fd);
    forall fd ensures fd in t.watches <==> fd in all {
      assert WatchOk(t, fd);
      if s :| s in t.servers && (t.servers[s].listenFd == fd || fd in t.servers[s].clientList) {
        assert ClientsOk(t, s);
      }
    }
  }

  // ---------------------------------------------------------------- what each operation does

  function Joined(t: Tables, s: ServerPtr, cb: CbPtr): Tables
    requires s in t.servers
  {
    var server := t.servers[s];
    t.(servers := t.servers[s := server.(cbList := server.cbList + [cb])], handles := t.handles[cb := s])
  }

  function Opened(t: Tables, s: ServerPtr, topic: Topic, cb: CbPtr, fd: Fd): Tables {
    Tables(t.servers[s := Server(topic, [cb], [], fd)], t.handles[cb := s], t.watches[fd := Accepting(s)])
  }

  function Left(t: Tables, cb: CbPtr): Tables
    requires cb in t.handles && t.handles[cb] in t.servers
  {
    var s := t.handles[cb];
    var server := t.servers[s];
    t.(servers := t.servers[s := server.(cbList := Dropped(server.cbList, cb))], handles := t.handles - {cb})
  }

  function Closed(t: Tables, cb: CbPtr): Tables
    requires cb in t.handles && t.handles[cb] in t.servers
  {
    var s := t.handles[cb];
    var clients := set fd | fd in t.servers[s].clientList;
    Tables(t.servers - {s}, t.handles - {cb}, t.watches - clients - {t.servers[s].listenFd})
  }

  function Accepted(t: Tables, s: ServerPtr, fd: Fd): Tables
    requires s in t.servers
  {
    var server := t.servers[s];
    t.(servers := t.servers[s := server.(clientList := server.clientList + [fd])], watches := t.watches[fd := Receiving(s)])
  }

  function Disconnected(t: Tables, fd: Fd): Tables
    requires fd in t.watches && t.watches[fd].server in t.servers
  {
    var s := t.watches[fd].server;
    var server := t.servers[s];
    t.(servers := t.servers[s := server.(clientList := Dropped(server.clientList, fd))], watches := t.watches - {fd})
  }

  lemma JoinedConserves(t: Tables, s: ServerPtr, cb: CbPtr)
    requires Conserved(t) && s in t.servers && cb !in t.handles
    ensures Conserved(Joined(t, s, cb))
  {
    var t' := Joined(t, s, cb);
    assert CallbacksOk(t, s);
    forall h ensures HandleOk(t', h) {
      assert HandleOk(t, h);
    }
    forall x ensures CallbacksOk(t', x) {
      assert CallbacksOk(t, x);
    }
    forall x, y ensures TopicOk(t', x, y) {
      assert TopicOk(t, x, y);
    }
    forall x ensures ClientsOk(t', x) {
      assert ClientsOk(t, x);
    }
    forall f ensures WatchOk(t', f) {
      assert WatchOk(t, f);
    }
  }

  lemma OpenedConserves(t: Tables, s: ServerPtr, topic: Topic, cb: CbPtr, fd: Fd)
    requires Conserved(t) && s !in t.servers && cb !in t.handles && fd !in t.watches
    requires forall s' <- t.servers :: t.servers[s'].topic != topic
    ensures Conserved(Opened(t, s, topic, cb, fd))
  {
    var t' := Opened(t, s, topic, cb, fd);
    forall h ensures HandleOk(t', h) {
      assert HandleOk(t, h);
    }
    forall x ensures CallbacksOk(t', x) {
      assert CallbacksOk(t, x);
    }
    forall x, y ensures TopicOk(t', x, y) {
      assert TopicOk(t, x, y);
    }
    forall x ensures ClientsOk(t', x) {
      assert ClientsOk(t, x);
    }
    forall f ensures WatchOk(t', f) {
      assert WatchOk(t, f);
    }
  }

  lemma LeftConserves(t: Tables, cb: CbPtr)
    requires Conserved(t) && cb in t.handles && t.handles[cb] in t.servers && |t.servers[t.handles[cb]].cbList| > 1
    ensures Conserved(Left(t, cb))
  {
    var t' := Left(t, cb);
    assert HandleOk(t, cb) && CallbacksOk(t, t.handles[cb]);
    DroppedOne(t.servers[t.handles[cb]].cbList, cb);
    forall h ensures HandleOk(t', h) {
      assert HandleOk(t, h);
    }
    forall x ensures CallbacksOk(t', x) {
      assert CallbacksOk(t, x);
    }
    forall x, y ensures TopicOk(t', x, y) {
      assert TopicOk(t, x, y);
    }
    forall x ensures ClientsOk(t', x) {
      assert ClientsOk(t, x);
    }
    forall f ensures WatchOk(t', f) {
      assert WatchOk(t, f);
    }
  }

  lemma ClosedConserves(t: Tables, cb: CbPtr)
    requires Conserved(t) && cb in t.handles && t.handles[cb] in t.servers && |t.servers[t.handles[cb]].cbList| <= 1
    ensures Conserved(Closed(t, cb))
  {
    var t' := Closed(t, cb);
    var s := t.handles[cb];
    assert HandleOk(t, cb) && CallbacksOk(t, s) && ClientsOk(t, s);
    assert t.servers[s].cbList == [cb];
    forall h ensures HandleOk(t', h) {
      assert HandleOk(t, h);
    }
    forall x ensures CallbacksOk(t', x) {
      assert CallbacksOk(t, x);
    }
    forall x, y ensures TopicOk(t', x, y) {
      assert TopicOk(t, x, y);
    }
    forall x ensures ClientsOk(t', x) {
      assert ClientsOk(t, x);
    }
    forall f ensures WatchOk(t', f) {
      assert WatchOk(t, f);
    }
  }

  lemma AcceptedConserves(t: Tables, s: ServerPtr, fd: Fd)
    requires Conserved(t) && s in t.servers && fd !in t.watches
    ensures Conserved(Accepted(t, s, fd))
  {
    var t' := Accepted(t, s, fd);
    assert ClientsOk(t, s);
    forall h ensures HandleOk(t', h) {
      assert HandleOk(t, h);
    }
    forall x ensures CallbacksOk(t', x) {
      assert CallbacksOk(t, x);
    }
    forall x, y ensures TopicOk(t', x, y) {
      assert TopicOk(t, x, y);
    }
    forall x ensures ClientsOk(t', x) {
      assert ClientsOk(t, x);
    }
    forall f ensures WatchOk(t', f) {
      assert WatchOk(t, f);
    }
  }

  lemma DisconnectedConserves(t: Tables, fd: Fd)
    requires Conserved(t) && fd in t.watches && t.watches[fd].Receiving? && t.watches[fd].server in t.servers
    ensures Conserved(Disconnected(t, fd))
  {
    var t' := Disconnected(t, fd);
    assert WatchOk(t, fd) && ClientsOk(t, t.watches[fd].server);
    DroppedOne(t.servers[t.watches[fd].server].clientList, fd);
    forall h ensures HandleOk(t', h) {
      assert HandleOk(t, h);
    }
    forall x ensures CallbacksOk(t', x) {
      assert CallbacksOk(t, x);
    }
    forall x, y ensures TopicOk(t', x, y) {
      assert TopicOk(t, x, y);
    }
    forall x ensures ClientsOk(t', x) {
      assert ClientsOk(t, x);
    }
    forall f ensures WatchOk(t', f) {
      assert WatchOk(t, f);
    }
  }

  // ---------------------------------------------------------------- what stays

  // One element has gone, the others keep their order.
  ghost predicate LosesOne<T(!new)>(was: seq<T>, now: seq<T>, x: T) {
    exists k :: 0 <= k < |was| && was[k] == x && now == was[..k] + was[k+1..]
  }

  // A new callback comes behind the others of the server of its topic, or with a server of its own
  // that listens on a new descriptor.
  ghost predicate TakesCallback(t: Tables, t': Tables, topic: Topic, cb: CbPtr, s: ServerPtr, server: ServerPtr, listenFd: Option<Fd>) {
    && t'.handles == t.handles[cb := s]
    && if s in t.servers then
         && t.servers[s].topic == topic && t'.watches == t.watches
         && t'.servers == t.servers[s := t.servers[s].(cbList := t.servers[s].cbList + [cb])]
       else
         && s == server && listenFd.Some? && (forall x <- t.servers :: t.servers[x].topic != topic)
         && t'.watches == t.watches[listenFd.value := Accepting(s)]
         && t'.servers == t.servers[s := Server(topic, [cb], [], listenFd.value)]
  }

  // A callback beside others goes alone. With the last one go its server and what is watched for it.
  ghost predicate GoneFrom(t: Tables, t': Tables, cb: CbPtr, s: ServerPtr)
    requires s in t.servers
  {
    && t'.handles == t.handles - {cb}
    && if |t.servers[s].cbList| > 1 then
         && t'.watches == t.watches && s in t'.servers
         && t'.servers == t.servers[s := t.servers[s].(cbList := t'.servers[s].cbList)]
         && LosesOne(t.servers[s].cbList, t'.servers[s].cbList, cb)
       else
         && t'.servers == t.servers - {s}
         && (forall fd :: fd in t'.watches <==> fd in t.watches && t.watches[fd].server != s)
         && (forall fd <- t'.watches :: t'.watches[fd] == t.watches[fd])
  }

  lemma DroppedLoses<T(!new)>(was: seq<T>, x: T)
    requires x in was && NoDup(was)
    ensures LosesOne(was, Dropped(was, x), x)
  {
    var k := IndexOf(was, x);
    DroppedAt(was, k);
  }

  lemma LeavingFrames(t: Tables, cb: CbPtr)
    requires Conserved(t) && cb in t.handles && t.handles[cb] in t.servers
    ensures var s := t.handles[cb];
      GoneFrom(t, if |t.servers[s].cbList| > 1 then Left(t, cb) else Closed(t, cb), cb, s)
  {
    var s := t.handles[cb];
    assert HandleOk(t, cb) && CallbacksOk(t, s) && ClientsOk(t, s);
    DroppedLoses(t.servers[s].cbList, cb);
    if |t.servers[s].cbList| <= 1 {
      forall fd ensures fd in Closed(t, cb).watches <==> fd in t.watches && t.watches[fd].server != s {
        assert WatchOk(t, fd);
      }
    }
  }

  ghost predicate LosesClient(was: map<ServerPtr, Server>, now: map<ServerPtr, Server>, s: ServerPtr, fd: Fd) {
    && s in was && s in now
    && now == was[s := was[s].(clientList := now[s].clientList)]
    && LosesOne(was[s].clientList, now[s].clientList, fd)
  }

  lemma ClientFrame(t: Tables, fd: Fd)
    requires Conserved(t) && fd in t.watches && t.watches[fd].Receiving? && t.watches[fd].server in t.servers
    ensures LosesClient(t.servers, Disconnected(t, fd).servers, t.watches[fd].server, fd)
  {
    var s := t.watches[fd].server;
    assert WatchOk(t, fd) && ClientsOk(t, s);
    DroppedLoses(t.servers[s].clientList, fd);
  }

  // ---------------------------------------------------------------- the code

  // What was announced for each server, and by how much it exceeds what there is.
  ghost predicate Announces(announced: map<ServerPtr, nat>, servers: map<ServerPtr, Server>, excess: nat) {
    && announced.Keys == servers.Keys
    && (forall s <- announced :: |servers[s].cbList| <= announced[s])
    && Sum(announced) == Sum(Lengths(servers)) + excess
  }

  lemma LeftAnnounces(t: Tables, cb: CbPtr, announced: map<ServerPtr, nat>, excess: nat)
    requires Conserved(t) && cb in t.handles && t.handles[cb] in t.servers
    requires Announces(announced, t.servers, excess)
    ensures Announces(announced, Left(t, cb).servers, excess + 1)
  {
    LeftLengths(t, cb);
  }

  // Connections do not matter for it.
  lemma ClientsAnnounced(announced: map<ServerPtr, nat>, servers: map<ServerPtr, Server>, servers': map<ServerPtr, Server>, excess: nat)
    requires Announces(announced, servers, excess) && Lengths(servers') == Lengths(servers)
    ensures Announces(announced, servers', excess)
  {
    assert servers'.Keys == Lengths(servers').Keys == servers.Keys;
    forall s | s in servers ensures |servers'[s].cbList| == |servers[s].cbList| {
      assert Lengths(servers')[s] == Lengths(servers)[s];
    }
  }

  class Module {
    var subscribeTable: map<ServerPtr, Server>
    var subscribeHandles: map<CbPtr, ServerPtr>
    var cbData: map<CbPtr, int>              // the user data inside the callback records
    var watches: map<Fd, Watch>              // the main loop's watch table
    var announced: map<ServerPtr, nat>       // callback counts in the last discovery message
    ghost var unannounced: nat               // callbacks removed since without a new message

    function State(): Tables reads this {
      Tables(subscribeTable, subscribeHandles, watches)
    }

    ghost predicate Valid() reads this {
      && Conserved(State())
      && cbData.Keys == subscribeHandles.Keys
      && Announces(announced, subscribeTable, unannounced)
    }

    constructor ()
      ensures Valid() && State() == Tables(map[], map[], map[]) && unannounced == 0
    {
      subscribeTable, subscribeHandles, cbData, watches, announced := map[], map[], map[], map[], map[];
      unannounced := 0;
    }

    // One entry per server: its topic and port, and how many callbacks it has.
    method UpdateDiscoveryMsg()
      modifies this`announced, this`unannounced
      ensures announced == Lengths(subscribeTable) && unannounced == 0
    {
      announced := map[];
      var todo := subscribeTable.Keys;
      while todo != {}
        invariant todo <= subscribeTable.Keys && announced.Keys == subscribeTable.Keys - todo
        invariant forall s <- announced :: announced[s] == |subscribeTable[s].cbList|
        decreases |todo|
      {
        var s :| s in todo;
        todo := todo - {s};
        announced := announced[s := |subscribeTable[s].cbList|];
      }
      unannounced := 0;
    }

    method FindServer(topic: Topic) returns (r: Option<ServerPtr>)
      ensures r.Some? ==> r.value in subscribeTable && subscribeTable[r.value].topic == topic
      ensures r.None? ==> forall s <- subscribeTable :: subscribeTable[s].topic != topic
    {
      var todo := subscribeTable.Keys;
      while todo != {}
        invariant todo <= subscribeTable.Keys
        invariant forall s <- subscribeTable.Keys - todo :: subscribeTable[s].topic != topic
        decreases |todo|
      {
        var s :| s in todo;
        if subscribeTable[s].topic == topic {
          return Some(s);
        }
        todo := todo - {s};
      }
      return None;
    }

    // `cb`, `server` and `listenFd` are the records and the descriptor that get created; the socket
    // may fail to be, and then nothing has changed.
    method Subscribe(topic: Topic, data: int, cb: CbPtr, server: ServerPtr, listenFd: Option<Fd>) returns (ok: bool)
      requires Valid()
      requires cb !in subscribeHandles && server !in subscribeTable && (listenFd.Some? ==> listenFd.value !in watches)
      modifies this
      ensures Valid()
      ensures var found := exists s <- old(subscribeTable) :: old(subscribeTable)[s].topic == topic;
        && (ok <==> found || listenFd.Some?)
        && (ok && found ==> exists s <- old(subscribeTable) ::
              old(subscribeTable)[s].topic == topic && State() == Joined(old(State()), s, cb))
        && (ok && !found ==> listenFd.Some? && State() == Opened(old(State()), server, topic, cb, listenFd.value))
      ensures ok ==> unannounced == 0 && cbData == old(cbData)[cb := data]
      ensures ok ==> exists s <- subscribeTable :: TakesCallback(old(State()), State(), topic, cb, s, server, listenFd)
      ensures !ok ==> State() == old(State()) && cbData == old(cbData) && unannounced == old(unannounced)
    {
      var it := FindServer(topic);
      if it.Some? {
        JoinServer(it.value, data, cb);
        assert TakesCallback(old(State()), State(), topic, cb, it.value, server, listenFd);
      } else if listenFd.Some? {
        OpenServer(topic, data, cb, server, listenFd.value);
        assert TakesCallback(old(State()), State(), topic, cb, server, server, listenFd);
      } else {
        return false;
      }
      return true;
    }

    method JoinServer(listenInfo: ServerPtr, data: int, cb: CbPtr)
      requires Valid() && cb !in subscribeHandles && listenInfo in subscribeTable
      modifies this
      ensures Valid() && unannounced == 0 && cbData == old(cbData)[cb := data]
      ensures State() == Joined(old(State()), listenInfo, cb)
    {
      JoinedConserves(State(), listenInfo, cb);
      var info := subscribeTable[listenInfo];
      subscribeTable := subscribeTable[listenInfo := info.(cbList := info.cbList + [cb])];
      UpdateDiscoveryMsg();
      subscribeHandles := subscribeHandles[cb := listenInfo];
      cbData := cbData[cb := data];
    }

    method OpenServer(topic: Topic, data: int, cb: CbPtr, server: ServerPtr, listenFd: Fd)
      requires Valid() && cb !in subscribeHandles && server !in subscribeTable && listenFd !in watches
      requires forall s <- subscribeTable :: subscribeTable[s].topic != topic
      modifies this
      ensures Valid() && unannounced == 0 && cbData == old(cbData)[cb := data]
      ensures State() == Opened(old(State()), server, topic, cb, listenFd)
    {
      OpenedConserves(State(), server, topic, cb, listenFd);
      watches := watches[listenFd := Accepting(server)];
      subscribeTable := subscribeTable[server := Server(topic, [cb], [], listenFd)];
      UpdateDiscoveryMsg();
      subscribeHandles := subscribeHandles[cb := server];
      cbData := cbData[cb := data];
    }

    // While other callbacks remain, no new discovery message is published.
    method Unsubscribe(cb: CbPtr) returns (r: Option<int>)
      requires Valid()
      modifies this
      ensures Valid()
      ensures cb !in old(subscribeHandles) ==> r == None && State() == old(State()) && unannounced == old(unannounced)
      ensures cb in old(subscribeHandles) ==>
        && old(subscribeHandles)[cb] in old(subscribeTable)
        && r == Some(old(cbData)[cb]) && cbData == old(cbData) - {cb}
        && if |old(subscribeTable)[old(subscribeHandles)[cb]].cbList| > 1
           then State() == Left(old(State()), cb) && announced == old(announced) && unannounced == old(unannounced) + 1
           else State() == Closed(old(State()), cb) && unannounced == 0
      ensures cb in old(subscribeHandles) ==> GoneFrom(old(State()), State(), cb, old(subscribeHandles)[cb])
    {
      if cb !in subscribeHandles {
        return None;
      }
      assert HandleOk(State(), cb);
      LeavingFrames(State(), cb);
      var data := cbData[cb];
      if 1 < |subscribeTable[subscribeHandles[cb]].cbList| {
        LeaveServer(cb);
      } else {
        LeaveLast(cb);
      }
      return Some(data);
    }

    // One of several callbacks goes.
    method LeaveServer(cb: CbPtr)
      requires Valid() && cb in subscribeHandles && subscribeHandles[cb] in subscribeTable
      requires |subscribeTable[subscribeHandles[cb]].cbList| > 1
      modifies this
      ensures Valid() && State() == Left(old(State()), cb) && cbData == old(cbData) - {cb}
      ensures announced == old(announced) && unannounced == old(unannounced) + 1
    {
      LeftConserves(State(), cb);
      LeftAnnounces(State(), cb, announced, unannounced);
      var listenInfo := subscribeHandles[cb];
      subscribeHandles := subscribeHandles - {cb};
      cbData := cbData - {cb};
      var info := subscribeTable[listenInfo];
      subscribeTable := subscribeTable[listenInfo := info.(cbList := Dropped(info.cbList, cb))];
      unannounced := unannounced + 1;
      assert State() == Left(old(State()), cb);
    }

    // The last callback goes, and its server with it.
    method LeaveLast(cb: CbPtr)
      requires Valid() && cb in subscribeHandles && subscribeHandles[cb] in subscribeTable
      requires |subscribeTable[subscribeHandles[cb]].cbList| <= 1
      modifies this
      ensures Valid() && State() == Closed(old(State()), cb) && cbData == old(cbData) - {cb} && unannounced == 0
    {
      ClosedConserves(State(), cb);
      var listenInfo := subscribeHandles[cb];
      subscribeHandles := subscribeHandles - {cb};
      cbData := cbData - {cb};
      CloseServer(listenInfo);
    }

    method CloseServer(server: ServerPtr)
      requires server in subscribeTable
      modifies this`subscribeTable, this`watches, this`announced, this`unannounced
      ensures var info := old(subscribeTable)[server];
        watches == old(watches) - (set fd | fd in info.clientList) - {info.listenFd}
      ensures subscribeTable == old(subscribeTable) - {server}
      ensures announced == Lengths(subscribeTable) && unannounced == 0
    {
      var info := subscribeTable[server];
      RemoveClients(info.clientList);
      var _ := RemoveWatch(info.listenFd);
      subscribeTable := subscribeTable - {server};
      UpdateDiscoveryMsg();
    }

    method RemoveClients(clients: seq<Fd>)
      modifies this`watches
      ensures watches == old(watches) - set fd | fd in clients
    {
      for i := 0 to |clients|
        invariant watches == old(watches) - set fd | fd in clients[..i]
      {
        assert clients[..i+1] == clients[..i] + [clients[i]];
        var _ := RemoveWatch(clients[i]);
      }
      assert clients[..|clients|] == clients;
    }

    method RemoveWatch(fd: Fd) returns (r: Option<Watch>)
      modifies this`watches
      ensures watches == old(watches) - {fd}
      ensures r == if fd in old(watches) then Some(old(watches)[fd]) else None
    {
      if fd !in watches {
        return None;
      }
      r := Some(watches[fd]);
      watches := watches - {fd};
    }

    // A peer connects, or accepting it fails; returns whether the listening descriptor stays watched.
    method AcceptConnection(server: ServerPtr, client: Option<Fd>) returns (keep: bool)
      requires Valid() && (client.Some? ==> client.value !in watches)
      modifies this
      ensures Valid() && unannounced == old(unannounced)
      ensures keep <==> server in old(subscribeTable)
      ensures State() == if keep && client.Some? then Accepted(old(State()), server, client.value) else old(State())
      ensures keep && client.Some? ==>
        && subscribeHandles == old(subscribeHandles) && watches == old(watches)[client.value := Receiving(server)]
        && var was := old(subscribeTable)[server];
           subscribeTable == old(subscribeTable)[server := was.(clientList := was.clientList + [client.value])]
    {
      if server !in subscribeTable {
        return false;
      }
      if client.None? {
        return true;
      }
      var fd := client.value;
      AcceptedConserves(State(), server, fd);
      var info := subscribeTable[server];
      subscribeTable := subscribeTable[server := info.(clientList := info.clientList + [fd])];
      watches := watches[fd := Receiving(server)];
      ClientsAnnounced(announced, old(subscribeTable), subscribeTable, unannounced);
      return true;
    }

    // A peer has gone; a second report for the same descriptor changes nothing.
    method HandleClientDisconnect(client: Fd)
      requires Valid()
      requires client in watches ==> watches[client].Receiving?
      modifies this
      ensures Valid() && unannounced == old(unannounced)
      ensures client !in watches
      ensures client in old(watches) ==>
        old(watches)[client].server in old(subscribeTable) && State() == Disconnected(old(State()), client)
      ensures client !in old(watches) ==> State() == old(State())
      ensures watches == old(watches) - {client} && subscribeHandles == old(subscribeHandles)
      ensures client in old(watches) ==> LosesClient(old(subscribeTable), subscribeTable, old(watches)[client].server, client)
    {
      ghost var t := State();
      assert WatchOk(t, client);
      var data := RemoveWatch(client);
      if data.None? {
        assert t.watches - {client} == t.watches;
        return;
      }
      DisconnectedConserves(t, client);
      ClientFrame(t, client);
      var parent := data.value.server;
      var info := subscribeTable[parent];
      subscribeTable := subscribeTable[parent := info.(clientList := Dropped(info.clientList, client))];
      ClientsAnnounced(announced, old(subscribeTable), subscribeTable, unannounced);
    }
  }

  lemma LeftLengths(t: Tables, cb: CbPtr)
    requires Conserved(t) && cb in t.handles && t.handles[cb] in t.servers
    ensures Sum(Lengths(t.servers)) == Sum(Lengths(Left(t, cb).servers)) + 1
    ensures forall s <- t.servers :: |Left(t, cb).servers[s].cbList| <= |t.servers[s].cbList|
  {
    var s := t.handles[cb];
    assert HandleOk(t, cb) && CallbacksOk(t, s);
    DroppedOne(t.servers[s].cbList, cb);
    SumUpdate(Lengths(t.servers), s, |t.servers[s].cbList| - 1);
    assert Lengths(Left(t, cb).servers) == Lengths(t.servers)[s := |t.servers[s].cbList| - 1];
  }

  lemma {:induction false} SumPointwise<K(!new)>(a: map<K, nat>, b: map<K, nat>)
    requires a.Keys == b.Keys && forall k <- a :: a[k] <= b[k]
    ensures Sum(a) <= Sum(b)
    ensures Sum(a) == Sum(b) ==> a == b
    decreases |a|
  {
    if a == map[] {
      assert b == map[];
    } else {
      var k :| k in a;
      SumRemove(a, k);
      SumRemove(b, k);
      SumPointwise(a - {k}, b - {k});
      if Sum(a) == Sum(b) {
        assert a == (a - {k})[k := a[k]] && b == (b - {k})[k := b[k]];
      }
    }
  }

  // What other nodes are told: the announced callback counts add up to the number of handles
  // exactly when no callback was removed beside others since the last message.
  lemma AnnouncedCounts(m: Module)
    requires m.Valid()
    ensures Sum(m.announced) == |m.subscribeHandles| + m.unannounced
    ensures m.announced == Lengths(m.subscribeTable) <==> m.unannounced == 0
  {
    SumPointwise(Lengths(m.subscribeTable), m.announced);
    var t, t' := m.State(), Tables(m.subscribeTable, m.subscribeHandles, map[]);
    forall h ensures HandleOk(t', h) {
      assert HandleOk(t, h);
    }
    forall s ensures CallbacksOk(t', s) {
      assert CallbacksOk(t, s);
    }
    HandlesAreCallbacks(m.subscribeTable, m.subscribeHandles);
  }
}
