/**
 * What the tables of the subscribing side of the TCP transport hold after any sequence of
 * operations, said of the operations alone: which callbacks are subscribed, which servers are open,
 * and which connections are served.
 */
module TcpSubscriptionHistory {
  import opened Results
  import opened Sequences
  import opened Histories
  import opened TcpSubscriptions

  datatype Event =
    | Join(server: ServerPtr, cb: CbPtr)
    | Open(server: ServerPtr, topic: Topic, cb: CbPtr, listenFd: Fd)
    | Leave(cb: CbPtr)
    | Accept(server: ServerPtr, fd: Fd)
    | Disconnect(fd: Fd)

  const Empty := Tables(map[], map[], map[])

  // What the operations ask of the tables: new records and descriptors, a server per topic.
  ghost predicate Enabled(t: Tables, e: Event) {
    match e
    case Join(s, cb) => s in t.servers && cb !in t.handles
    case Open(s, topic, cb, fd) =>
      && s !in t.servers && cb !in t.handles && fd !in t.watches
      && forall x <- t.servers :: t.servers[x].topic != topic
    case Leave(cb) => cb in t.handles && t.handles[cb] in t.servers
    case Accept(s, fd) => s in t.servers && fd !in t.watches
    case Disconnect(fd) => fd in t.watches && t.watches[fd].Receiving? && t.watches[fd].server in t.servers
  }

  ghost function Step(t: Tables, e: Event): Option<Tables> {
    if !Enabled(t, e) then None
    else Some(match e
      case Join(s, cb) => Joined(t, s, cb)
      case Open(s, topic, cb, fd) => Opened(t, s, topic, cb, fd)
      case Leave(cb) => if |t.servers[t.handles[cb]].cbList| > 1 then Left(t, cb) else Closed(t, cb)
      case Accept(s, fd) => Accepted(t, s, fd)
      case Disconnect(fd) => Disconnected(t, fd))
  }

  // The tables after the first n operations.
  ghost function At(es: seq<Event>, n: nat): Option<Tables>
    requires n <= |es|
  {
    if n == 0 then Some(Empty)
    else
      var before := At(es, n - 1);
      if before.None? then None else Step(before.value, es[n-1])
  }

  ghost predicate Possible(es: seq<Event>, n: nat) {
    n <= |es| && At(es, n).Some?
  }

  lemma StepConserves(t: Tables, e: Event)
    requires Conserved(t) && Enabled(t, e)
    ensures Conserved(Step(t, e).value)
  {
    match e
    case Join(s, cb) => JoinedConserves(t, s, cb);
    case Open(s, topic, cb, fd) => OpenedConserves(t, s, topic, cb, fd);
    case Leave(cb) =>
      if |t.servers[t.handles[cb]].cbList| > 1 {
        LeftConserves(t, cb);
      } else {
        ClosedConserves(t, cb);
      }
    case Accept(s, fd) => AcceptedConserves(t, s, fd);
    case Disconnect(fd) => DisconnectedConserves(t, fd);
  }

  lemma {:induction false} RunConserves(es: seq<Event>, n: nat)
    requires Possible(es, n)
    ensures Conserved(At(es, n).value)
  {
    if n > 0 {
      RunConserves(es, n - 1);
      StepConserves(At(es, n - 1).value, es[n-1]);
    }
  }

  // ---------------------------------------------------------------- callbacks

  ghost function Subscribes(es: seq<Event>, cb: CbPtr, s: ServerPtr): iset<nat> {
    iset m: nat | m < |es| && (es[m] == Join(s, cb) || (es[m].Open? && es[m].server == s && es[m].cb == cb))
  }

  ghost function Unsubscribes(es: seq<Event>, cb: CbPtr): iset<nat> {
    iset m: nat | m < |es| && es[m] == Leave(cb)
  }

  // A callback is subscribed at a server exactly if it joined or opened it and has not left since.
  lemma {:induction false} SubscribedIff(es: seq<Event>, n: nat, cb: CbPtr, s: ServerPtr)
    requires Possible(es, n)
    ensures var t := At(es, n).value;
      cb in t.handles && t.handles[cb] == s <==> Since(Subscribes(es, cb, s), Unsubscribes(es, cb), n)
  {
    if n > 0 {
      SubscribedIff(es, n - 1, cb, s);
      SinceStep(Subscribes(es, cb, s), Unsubscribes(es, cb), n - 1);
      RunConserves(es, n - 1);
      SubscribedStep(At(es, n - 1).value, es[n-1], cb, s);
    }
  }

  lemma SubscribedStep(t: Tables, e: Event, cb: CbPtr, s: ServerPtr)
    requires Enabled(t, e) && Conserved(t)
    ensures var t' := Step(t, e).value;
      cb in t'.handles && t'.handles[cb] == s <==>
        e == Join(s, cb) || (e.Open? && e.server == s && e.cb == cb) || (cb in t.handles && t.handles[cb] == s && e != Leave(cb))
  {
  }

  // ---------------------------------------------------------------- servers

  ghost function Opens(es: seq<Event>, s: ServerPtr, topic: Topic, fd: Fd): iset<nat> {
    iset m: nat | m < |es| && es[m].Open? && es[m].server == s && es[m].topic == topic && es[m].listenFd == fd
  }

  // The last callback of the server leaves.
  ghost predicate ClosesAt(es: seq<Event>, m: nat, s: ServerPtr) {
    m < |es| && es[m].Leave? && Possible(es, m) && OnlyOne(At(es, m).value, es[m].cb, s)
  }

  ghost predicate OnlyOne(t: Tables, cb: CbPtr, s: ServerPtr) {
    cb in t.handles && t.handles[cb] == s && forall x <- t.handles :: t.handles[x] == s ==> x == cb
  }

  ghost function Closes(es: seq<Event>, s: ServerPtr): iset<nat> {
    iset m: nat | ClosesAt(es, m, s)
  }

  // The last callback is the only one mapped to its server.
  lemma OnlyOneIsLast(t: Tables, cb: CbPtr)
    requires Conserved(t) && cb in t.handles && t.handles[cb] in t.servers
    ensures |t.servers[t.handles[cb]].cbList| <= 1 <==> OnlyOne(t, cb, t.handles[cb])
  {
    var s := t.handles[cb];
    var list := t.servers[s].cbList;
    assert HandleOk(t, cb) && CallbacksOk(t, s);
    if |list| <= 1 {
      forall x | x in t.handles && t.handles[x] == s ensures x == cb {
        assert HandleOk(t, x);
      }
    } else {
      assert list[0] in list && list[1] in list;
      assert list[0] != list[1];
    }
  }

  // A server is open, with its topic and its descriptor, exactly if it was opened so and its last
  // callback has not left since.
  lemma {:induction false} OpenIff(es: seq<Event>, n: nat, s: ServerPtr, topic: Topic, fd: Fd)
    requires Possible(es, n)
    ensures var t := At(es, n).value;
      (s in t.servers && t.servers[s].topic == topic && t.servers[s].listenFd == fd) <==>
        Since(Opens(es, s, topic, fd), Closes(es, s), n)
  {
    if n > 0 {
      OpenIff(es, n - 1, s, topic, fd);
      SinceStep(Opens(es, s, topic, fd), Closes(es, s), n - 1);
      RunConserves(es, n - 1);
      OpenStep(At(es, n - 1).value, es[n-1], s, topic, fd);
    }
  }

  lemma OpenStep(t: Tables, e: Event, s: ServerPtr, topic: Topic, fd: Fd)
    requires Enabled(t, e) && Conserved(t)
    ensures var t' := Step(t, e).value;
      s in t'.servers && t'.servers[s].topic == topic && t'.servers[s].listenFd == fd <==>
        || (e.Open? && e.server == s && e.topic == topic && e.listenFd == fd)
        || (s in t.servers && t.servers[s].topic == topic && t.servers[s].listenFd == fd && !(e.Leave? && OnlyOne(t, e.cb, s)))
  {
    if e.Leave? {
      OnlyOneIsLast(t, e.cb);
    }
  }

  // ---------------------------------------------------------------- connections

  ghost function Accepts(es: seq<Event>, s: ServerPtr, fd: Fd): iset<nat> {
    iset m: nat | m < |es| && es[m] == Accept(s, fd)
  }

  ghost function Drops(es: seq<Event>, s: ServerPtr, fd: Fd): iset<nat> {
    iset m: nat | (m < |es| && es[m] == Disconnect(fd)) || ClosesAt(es, m, s)
  }

  // A connection is served exactly if it was accepted and neither has its peer gone nor has the last
  // callback of its server left since. In particular other callbacks may come and go.
  lemma {:induction false} ServedIff(es: seq<Event>, n: nat, s: ServerPtr, fd: Fd)
    requires Possible(es, n)
    ensures var t := At(es, n).value;
      && (fd in t.watches && t.watches[fd] == Receiving(s) <==> Since(Accepts(es, s, fd), Drops(es, s, fd), n))
      && (fd in t.watches && t.watches[fd] == Receiving(s) <==> s in t.servers && fd in t.servers[s].clientList)
  {
    RunConserves(es, n);
    assert ClientsOk(At(es, n).value, s) && WatchOk(At(es, n).value, fd);
    if n > 0 {
      ServedIff(es, n - 1, s, fd);
      SinceStep(Accepts(es, s, fd), Drops(es, s, fd), n - 1);
      RunConserves(es, n - 1);
      ServedStep(At(es, n - 1).value, es[n-1], s, fd);
    }
  }

  lemma ServedStep(t: Tables, e: Event, s: ServerPtr, fd: Fd)
    requires Enabled(t, e) && Conserved(t)
    ensures var t' := Step(t, e).value;
      fd in t'.watches && t'.watches[fd] == Receiving(s) <==>
        || e == Accept(s, fd)
        || (fd in t.watches && t.watches[fd] == Receiving(s) && e != Disconnect(fd) && !(e.Leave? && OnlyOne(t, e.cb, s)))
  {
    assert WatchOk(t, fd) && ClientsOk(t, s);
    if e.Leave? {
      OnlyOneIsLast(t, e.cb);
      assert ClientsOk(t, t.handles[e.cb]);
    }
  }
}
