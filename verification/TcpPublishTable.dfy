/**
 * Where a TCP publisher sends (modules/tcp/Module.cc): the table built from discovery messages.
 *
 * A discovery message only adds and updates topics, it never removes one. So the table is
 * described by its history: what a client last said about a topic since it last left.
 */
module TcpPublishTable {
  import opened Results

  type Topic = string
  type ClientId = string

  datatype ConnectInfo = ConnectInfo(port: nat, numOfCb: nat, key: nat)

  // What is kept for a topic and a client; `connected` says that a connection is cached.
  datatype PortInfo = PortInfo(info: ConnectInfo, connected: bool)

  type PublishMap = map<Topic, map<ClientId, PortInfo>>

  // One key of an announcement, with the number of elements of its vector.
  datatype Entry = Entry(topic: Topic, size: nat, port: nat, numOfCb: nat, key: nat)

  const CONN_INFO_MAX: nat := 4

  // The events that touch the table, one per announced topic.
  datatype Event =
    | Mention(client: ClientId, topic: Topic, info: ConnectInfo)
    | Leave(client: ClientId)
    | Connect(topic: Topic, client: ClientId)

  // Port and count are read as 16-bit values.
  function InfoOf(e: Entry): ConnectInfo {
    ConnectInfo(e.port % 0x1_0000, e.numOfCb % 0x1_0000, e.key)
  }

  // The entries that take effect: in secure mode the first malformed one ends the processing.
  function Mentions(secure: bool, client: ClientId, entries: seq<Entry>): seq<Event> {
    if entries == [] then []
    else if entries[0].topic == "host" then Mentions(secure, client, entries[1..])
    else if secure && entries[0].size != CONN_INFO_MAX then []
    else [Mention(client, entries[0].topic, InfoOf(entries[0]))] + Mentions(secure, client, entries[1..])
  }

  // ---------------------------------------------------------------- by history

  // The index of what the client last said about the topic since it last left.
  ghost predicate LastMention(history: seq<Event>, i: int, topic: Topic, client: ClientId) {
    && 0 <= i < |history|
    && history[i].Mention? && history[i].topic == topic && history[i].client == client
    && (forall k :: i < k < |history| ==> !Touches(history[k], topic, client))
  }

  predicate Touches(e: Event, topic: Topic, client: ClientId) {
    e == Leave(client) || (e.Mention? && e.topic == topic && e.client == client)
  }

  // A connection was made at j and nothing since has dropped it.
  ghost predicate ConnectedSince(history: seq<Event>, j: int, topic: Topic, client: ClientId) {
    && 0 <= j < |history| && history[j] == Connect(topic, client)
    && exists i :: LastMention(history[..j], i, topic, client) && SamePortAfter(history, j, topic, client, history[i].info.port)
  }

  ghost predicate SamePortAfter(history: seq<Event>, j: int, topic: Topic, client: ClientId, port: nat) {
    forall k :: 0 <= j < k < |history| && Touches(history[k], topic, client) ==> history[k].Mention? && history[k].info.port == port
  }

  // ---------------------------------------------------------------- the table

  function Get(table: PublishMap, topic: Topic, client: ClientId): Option<PortInfo> {
    if topic in table && client in table[topic] then Some(table[topic][client]) else None
  }

  function Updated(held: Option<PortInfo>, info: ConnectInfo): PortInfo {
    if held.Some? && held.value.info.port == info.port then held.value.(info := held.value.info.(numOfCb := info.numOfCb))
    else PortInfo(info, false)
  }

  function Step(table: PublishMap, e: Event): PublishMap {
    match e
    case Mention(client, topic, info) =>
      var hosts := if topic in table then table[topic] else map[];
      table[topic := hosts[client := Updated(Get(table, topic, client), info)]]
    case Leave(client) => map t | t in table :: table[t] - {client}
    case Connect(topic, client) =>
      if Get(table, topic, client).Some? then WithConnection(table, topic, client) else table
  }

  function WithConnection(table: PublishMap, topic: Topic, client: ClientId): PublishMap
    requires Get(table, topic, client).Some?
  {
    table[topic := table[topic][client := table[topic][client].(connected := true)]]
  }

  function Fold(table: PublishMap, history: seq<Event>): PublishMap {
    if history == [] then table
    else Step(Fold(table, history[..|history|-1]), history[|history|-1])
  }

  // The table holds, for every topic and client, the port and count of the last mention since
  // the client last left, and nothing when there is none.
  lemma {:induction false} TableIsHistory(history: seq<Event>, topic: Topic, client: ClientId)
    ensures var held := Get(Fold(map[], history), topic, client);
      && (held.Some? <==> exists i :: LastMention(history, i, topic, client))
      && (forall i :: LastMention(history, i, topic, client) ==>
            held.value.info.port == history[i].info.port && held.value.info.numOfCb == history[i].info.numOfCb)
    decreases |history|
  {
    if history != [] {
      var n := |history| - 1;
      var before, e := history[..n], history[n];
      TableIsHistory(before, topic, client);
      if Touches(e, topic, client) {
        if e.Mention? {
          assert LastMention(history, n, topic, client);
        }
        forall i | LastMention(history, i, topic, client) ensures i == n && e.Mention? {
        }
      } else {
        forall i ensures LastMention(history, i, topic, client) <==> LastMention(before, i, topic, client) {
          LastMentionLater(history, i, topic, client);
        }
      }
    }
  }

  lemma LastMentionLater(history: seq<Event>, i: int, topic: Topic, client: ClientId)
    requires history != []
    requires !Touches(history[|history|-1], topic, client)
    ensures LastMention(history, i, topic, client) <==> LastMention(history[..|history|-1], i, topic, client)
  {
    var n := |history| - 1;
    var before := history[..n];
    if LastMention(before, i, topic, client) {
      forall k | i < k < |history| ensures !Touches(history[k], topic, client) {
        assert k < n ==> before[k] == history[k];
      }
    }
    if LastMention(history, i, topic, client) {
      forall k | i < k < n ensures !Touches(before[k], topic, client) {
        assert before[k] == history[k];
      }
    }
  }

  // While only mentions with the same port follow, that port is the one held.
  lemma {:induction false} SamePortHeld(history: seq<Event>, j: int, i: int, topic: Topic, client: ClientId, port: nat)
    requires 0 <= j <= |history| && LastMention(history[..j], i, topic, client) && history[i].info.port == port
    requires SamePortAfter(history, j - 1, topic, client, port)
    ensures exists m :: LastMention(history, m, topic, client) && history[m].info.port == port
    decreases |history| - j
  {
    if |history| == j {
      assert history[..j] == history;
    } else {
      var n := |history| - 1;
      var e, before := history[n], history[..n];
      if Touches(e, topic, client) {
        assert LastMention(history, n, topic, client);
      } else {
        assert before[..j] == history[..j];
        forall k | 0 <= j - 1 < k < |before| && Touches(before[k], topic, client)
          ensures before[k].Mention? && before[k].info.port == port
        {
          assert before[k] == history[k];
        }
        SamePortHeld(before, j, i, topic, client, port);
        var m :| LastMention(before, m, topic, client) && before[m].info.port == port;
        LastMentionLater(history, m, topic, client);
      }
    }
  }

  // A connection made for the port held keeps existing under later events.
  lemma ConnectedLater(history: seq<Event>, j: int, topic: Topic, client: ClientId)
    requires history != [] && 0 <= j < |history| - 1
    ensures var n := |history| - 1;
      var before, e := history[..n], history[n];
      ConnectedSince(history, j, topic, client) <==>
        && ConnectedSince(before, j, topic, client)
        && (Touches(e, topic, client) ==>
              e.Mention? && exists m :: LastMention(before, m, topic, client) && before[m].info.port == e.info.port)
  {
    var n := |history| - 1;
    var before, e := history[..n], history[n];
    assert before[..j] == history[..j] && before[j] == history[j];
    if ConnectedSince(history, j, topic, client) {
      var i :| LastMention(history[..j], i, topic, client) && SamePortAfter(history, j, topic, client, history[i].info.port);
      SamePortBefore(history, j, i, topic, client);
    }
    if ConnectedSince(before, j, topic, client) {
      var i :| LastMention(before[..j], i, topic, client) && SamePortAfter(before, j, topic, client, before[i].info.port);
      SamePortStill(history, j, i, topic, client);
    }
  }

  lemma SamePortStill(history: seq<Event>, j: int, i: int, topic: Topic, client: ClientId)
    requires 0 <= j < |history| - 1 && !Touches(history[j], topic, client)
    requires LastMention(history[..j], i, topic, client)
    requires SamePortAfter(history[..|history|-1], j, topic, client, history[i].info.port)
    ensures var n := |history| - 1;
      var before, e := history[..n], history[n];
      (Touches(e, topic, client) ==>
         e.Mention? && exists m :: LastMention(before, m, topic, client) && before[m].info.port == e.info.port)
      ==> SamePortAfter(history, j, topic, client, history[i].info.port)
  {
    var n := |history| - 1;
    var before, e := history[..n], history[n];
    assert before[..j] == history[..j];
    PortWhileConnected(before, j, i, topic, client);
    var m :| LastMention(before, m, topic, client) && before[m].info.port == history[i].info.port;
    if Touches(e, topic, client) && e.Mention? {
      if x :| LastMention(before, x, topic, client) && before[x].info.port == e.info.port {
        OneLastMention(before, m, x, topic, client);
        forall k | 0 <= j < k < |history| && Touches(history[k], topic, client)
          ensures history[k].Mention? && history[k].info.port == history[i].info.port
        {
          assert k < n ==> before[k] == history[k];
        }
      }
    } else {
      forall k | 0 <= j < k < |history| && Touches(history[k], topic, client)
        ensures !Touches(e, topic, client) ==> history[k].Mention? && history[k].info.port == history[i].info.port
      {
        assert k < n ==> before[k] == history[k];
      }
    }
  }

  lemma OneLastMention(history: seq<Event>, i: int, m: int, topic: Topic, client: ClientId)
    requires LastMention(history, i, topic, client) && LastMention(history, m, topic, client)
    ensures i == m
  {
    assert Touches(history[i], topic, client) && Touches(history[m], topic, client);
  }

  lemma PortWhileConnected(history: seq<Event>, j: int, i: int, topic: Topic, client: ClientId)
    requires 0 <= j < |history| && !Touches(history[j], topic, client)
    requires LastMention(history[..j], i, topic, client) && SamePortAfter(history, j, topic, client, history[i].info.port)
    ensures exists m :: LastMention(history, m, topic, client) && history[m].info.port == history[i].info.port
  {
    var upTo := history[..j + 1];
    assert upTo[..j] == history[..j] && upTo[j] == history[j];
    LastMentionLater(upTo, i, topic, client);
    SamePortHeld(history, j + 1, i, topic, client, history[i].info.port);
  }

  lemma SamePortBefore(history: seq<Event>, j: int, i: int, topic: Topic, client: ClientId)
    requires 0 <= j < |history| - 1 && !Touches(history[j], topic, client)
    requires LastMention(history[..j], i, topic, client) && SamePortAfter(history, j, topic, client, history[i].info.port)
    ensures var before := history[..|history|-1];
      && SamePortAfter(before, j, topic, client, before[i].info.port)
      && exists m :: LastMention(before, m, topic, client) && before[m].info.port == history[i].info.port
  {
    var before := history[..|history|-1];
    assert before[..j] == history[..j];
    forall k | 0 <= j < k < |before| && Touches(before[k], topic, client)
      ensures before[k].Mention? && before[k].info.port == before[i].info.port
    {
      assert before[k] == history[k];
    }
    PortWhileConnected(before, j, i, topic, client);
  }

  // The cached connection survives exactly while the port is unchanged.
  lemma {:induction false} ConnectionIsHistory(history: seq<Event>, topic: Topic, client: ClientId)
    ensures var held := Get(Fold(map[], history), topic, client);
      held.Some? && held.value.connected <==> exists j :: ConnectedSince(history, j, topic, client)
    decreases |history|
  {
    if history != [] {
      var n := |history| - 1;
      ConnectionIsHistory(history[..n], topic, client);
      TableIsHistory(history[..n], topic, client);
      if Touches(history[n], topic, client) {
        ConnectionTouched(history, topic, client);
      } else {
        ConnectionUntouched(history, topic, client);
      }
    }
  }

  lemma ConnectionTouched(history: seq<Event>, topic: Topic, client: ClientId)
    requires history != [] && Touches(history[|history|-1], topic, client)
    requires var before := history[..|history|-1];
      var held := Get(Fold(map[], before), topic, client);
      && (held.Some? <==> exists i :: LastMention(before, i, topic, client))
      && (forall i :: LastMention(before, i, topic, client) ==> held.value.info.port == before[i].info.port)
      && (held.Some? && held.value.connected <==> exists j :: ConnectedSince(before, j, topic, client))
    ensures var held := Get(Fold(map[], history), topic, client);
      held.Some? && held.value.connected <==> exists j :: ConnectedSince(history, j, topic, client)
  {
    var n := |history| - 1;
    var before, e := history[..n], history[n];
    var held := Get(Fold(map[], before), topic, client);
    if j :| ConnectedSince(history, j, topic, client) {
      ConnectedLater(history, j, topic, client);
    }
    if j :| ConnectedSince(before, j, topic, client) {
      ConnectedLater(history, j, topic, client);
      var m :| LastMention(before, m, topic, client);
    }
  }

  lemma ConnectionUntouched(history: seq<Event>, topic: Topic, client: ClientId)
    requires history != [] && !Touches(history[|history|-1], topic, client)
    requires var before := history[..|history|-1];
      var held := Get(Fold(map[], before), topic, client);
      && (held.Some? <==> exists i :: LastMention(before, i, topic, client))
      && (held.Some? && held.value.connected <==> exists j :: ConnectedSince(before, j, topic, client))
    ensures var held := Get(Fold(map[], history), topic, client);
      held.Some? && held.value.connected <==> exists j :: ConnectedSince(history, j, topic, client)
  {
    var n := |history| - 1;
    UntouchedHeld(Fold(map[], history[..n]), history[n], topic, client);
    UntouchedSince(history, topic, client);
  }

  // What is held of a pair changes under an event that does not touch it only by a connection.
  lemma UntouchedHeld(table: PublishMap, e: Event, topic: Topic, client: ClientId)
    requires !Touches(e, topic, client)
    ensures var held, held' := Get(table, topic, client), Get(Step(table, e), topic, client);
      && (held'.Some? <==> held.Some?)
      && (held'.Some? && held'.value.connected <==> held.Some? && (held.value.connected || e == Connect(topic, client)))
  {
  }

  lemma UntouchedSince(history: seq<Event>, topic: Topic, client: ClientId)
    requires history != [] && !Touches(history[|history|-1], topic, client)
    ensures var before, e := history[..|history|-1], history[|history|-1];
      (exists j :: ConnectedSince(history, j, topic, client)) <==>
        (exists j :: ConnectedSince(before, j, topic, client))
        || (e == Connect(topic, client) && exists i :: LastMention(before, i, topic, client))
  {
    var n := |history| - 1;
    var before, e := history[..n], history[n];
    if j :| ConnectedSince(history, j, topic, client) {
      if j < n {
        ConnectedLater(history, j, topic, client);
      } else {
        var i :| LastMention(history[..j], i, topic, client);
        assert LastMention(before, i, topic, client);
      }
    }
    if j :| ConnectedSince(before, j, topic, client) {
      ConnectedLater(history, j, topic, client);
    }
    if e == Connect(topic, client) {
      if i :| LastMention(before, i, topic, client) {
        assert SamePortAfter(history, n, topic, client, history[i].info.port);
        assert ConnectedSince(history, n, topic, client);
      }
    }
  }

  // ---------------------------------------------------------------- the key

  // The mention that opened the stretch of mentions with one port in which the pair is now: the
  // client has not left since and has mentioned the topic only with that port, and before it the
  // pair was not held with that port.
  ghost predicate Opens(history: seq<Event>, i: int, topic: Topic, client: ClientId) {
    && 0 <= i < |history|
    && history[i].Mention? && history[i].topic == topic && history[i].client == client
    && SamePortAfter(history, i, topic, client, history[i].info.port)
    && !HeldWithPort(history[..i], topic, client, history[i].info.port)
  }

  ghost predicate HeldWithPort(history: seq<Event>, topic: Topic, client: ClientId, port: nat) {
    exists m :: LastMention(history, m, topic, client) && history[m].info.port == port
  }

  // An event that touches the pair neither opens a stretch nor ends one if it repeats the port held;
  // any other mention opens one.
  lemma OpensTouched(history: seq<Event>, i: int, topic: Topic, client: ClientId)
    requires history != [] && Touches(history[|history|-1], topic, client)
    ensures var n := |history| - 1;
      var before, e := history[..n], history[n];
      Opens(history, i, topic, client) <==>
        e.Mention? && if HeldWithPort(before, topic, client, e.info.port) then Opens(before, i, topic, client) else i == n
  {
    var n := |history| - 1;
    var before, e := history[..n], history[n];
    if 0 <= i < n && history[i].Mention? && history[i].topic == topic && history[i].client == client {
      assert before[..i] == history[..i] && before[i] == history[i];
      var port := history[i].info.port;
      SamePortSplits(history, i, topic, client, port);
      if SamePortAfter(before, i, topic, client, port) {
        StretchHolds(before, i, topic, client);
        if e.Mention? {
          OnlyPortHeld(before, topic, client, port, e.info.port);
        }
      }
    }
  }

  lemma SamePortSplits(history: seq<Event>, i: int, topic: Topic, client: ClientId, port: nat)
    requires 0 <= i < |history| - 1
    ensures var before, e := history[..|history|-1], history[|history|-1];
      SamePortAfter(history, i, topic, client, port) <==>
        SamePortAfter(before, i, topic, client, port) && (Touches(e, topic, client) ==> e.Mention? && e.info.port == port)
  {
    var n := |history| - 1;
    var before := history[..n];
    forall k | 0 <= i < k < n ensures before[k] == history[k] {
    }
    if SamePortAfter(before, i, topic, client, port) && (Touches(history[n], topic, client) ==> history[n].Mention? && history[n].info.port == port) {
      forall k | 0 <= i < k < |history| && Touches(history[k], topic, client)
        ensures history[k].Mention? && history[k].info.port == port
      {
        assert k < n ==> before[k] == history[k];
      }
    }
    if SamePortAfter(history, i, topic, client, port) {
      forall k | 0 <= i < k < |before| && Touches(before[k], topic, client)
        ensures before[k].Mention? && before[k].info.port == port
      {
        assert before[k] == history[k];
      }
    }
  }

  lemma OnlyPortHeld(history: seq<Event>, topic: Topic, client: ClientId, port: nat, other: nat)
    requires HeldWithPort(history, topic, client, port)
    ensures HeldWithPort(history, topic, client, other) <==> other == port
  {
    var m :| LastMention(history, m, topic, client) && history[m].info.port == port;
    if HeldWithPort(history, topic, client, other) {
      var x :| LastMention(history, x, topic, client) && history[x].info.port == other;
      OneLastMention(history, m, x, topic, client);
    }
  }

  // Throughout a stretch its port is held.
  lemma StretchHolds(history: seq<Event>, i: int, topic: Topic, client: ClientId)
    requires 0 <= i < |history|
    requires history[i].Mention? && history[i].topic == topic && history[i].client == client
    requires SamePortAfter(history, i, topic, client, history[i].info.port)
    ensures HeldWithPort(history, topic, client, history[i].info.port)
  {
    var upTo := history[..i + 1];
    assert upTo[i] == history[i] && LastMention(upTo, i, topic, client);
    SamePortHeld(history, i + 1, i, topic, client, history[i].info.port);
  }

  lemma OpensUntouched(history: seq<Event>, i: int, topic: Topic, client: ClientId)
    requires history != [] && !Touches(history[|history|-1], topic, client)
    ensures Opens(history, i, topic, client) <==> Opens(history[..|history|-1], i, topic, client)
  {
    var n := |history| - 1;
    var before := history[..n];
    if 0 <= i < n {
      assert before[..i] == history[..i] && before[i] == history[i];
      SamePortSplits(history, i, topic, client, if history[i].Mention? then history[i].info.port else 0);
    }
  }

  // The table holds the key of the mention that opened the current stretch, not of the last one.
  lemma {:induction false} KeyIsHistory(history: seq<Event>, topic: Topic, client: ClientId)
    ensures var held := Get(Fold(map[], history), topic, client);
      && (held.Some? <==> exists i :: Opens(history, i, topic, client))
      && (forall i :: Opens(history, i, topic, client) ==>
            held.value.info.key == history[i].info.key && held.value.info.port == history[i].info.port)
    decreases |history|
  {
    if history != [] {
      var n := |history| - 1;
      var before, e := history[..n], history[n];
      KeyIsHistory(before, topic, client);
      TableIsHistory(before, topic, client);
      if Touches(e, topic, client) {
        forall i ensures Opens(history, i, topic, client) <==>
          e.Mention? && if HeldWithPort(before, topic, client, e.info.port) then Opens(before, i, topic, client) else i == n
        {
          OpensTouched(history, i, topic, client);
        }
        HeldPort(before, topic, client);
        assert e.Mention? && !HeldWithPort(before, topic, client, e.info.port) ==> Opens(history, n, topic, client);
        if i :| Opens(before, i, topic, client) {
          assert Opens(history, i, topic, client) <==> e.Mention? && HeldWithPort(before, topic, client, e.info.port);
        }
      } else {
        forall i ensures Opens(history, i, topic, client) <==> Opens(before, i, topic, client) {
          OpensUntouched(history, i, topic, client);
        }
        UntouchedKey(Fold(map[], before), e, topic, client);
      }
    }
  }

  lemma HeldPort(history: seq<Event>, topic: Topic, client: ClientId)
    ensures var held := Get(Fold(map[], history), topic, client);
      forall port :: HeldWithPort(history, topic, client, port) <==> held.Some? && held.value.info.port == port
  {
    TableIsHistory(history, topic, client);
  }

  lemma UntouchedKey(table: PublishMap, e: Event, topic: Topic, client: ClientId)
    requires !Touches(e, topic, client)
    ensures var held, held' := Get(table, topic, client), Get(Step(table, e), topic, client);
      && (held'.Some? <==> held.Some?)
      && (held.Some? ==> held'.value.info == held.value.info)
  {
  }

  // So after any history a mention with a new port and another one with the same port leave the key
  // of the first of the two, although the second is what the client said last.
  lemma StaleKey(history: seq<Event>, topic: Topic, client: ClientId, first: ConnectInfo, second: ConnectInfo)
    requires first.port == second.port && !HeldWithPort(history, topic, client, first.port)
    ensures var after := history + [Mention(client, topic, first)] + [Mention(client, topic, second)];
      var held := Get(Fold(map[], after), topic, client);
      && LastMention(after, |after| - 1, topic, client) && after[|after| - 1].info == second
      && held.Some? && held.value.info == second.(key := first.key)
  {
    var once := history + [Mention(client, topic, first)];
    var after := once + [Mention(client, topic, second)];
    assert once[..|once| - 1] == history && after[..|after| - 1] == once;
    HeldPort(history, topic, client);
  }

  // ---------------------------------------------------------------- counting

  ghost function Pairs(table: PublishMap, topics: set<Topic>): set<(Topic, ClientId)> {
    set t, c | t in topics && t in table && c in table[t] :: (t, c)
  }

  // The topics of the table whose filter fits.
  ghost function Fitting(table: PublishMap, fits: Topic -> bool): set<Topic> {
    set t | t in table && fits(t)
  }

  ghost function SumCounts(table: PublishMap, pairs: set<(Topic, ClientId)>): nat
    requires forall p <- pairs :: Get(table, p.0, p.1).Some?
  {
    if pairs == {} then 0
    else
      var p :| p in pairs;
      Get(table, p.0, p.1).value.info.numOfCb + SumCounts(table, pairs - {p})
  }

  lemma {:induction false} SumCountsAdd(table: PublishMap, pairs: set<(Topic, ClientId)>, p: (Topic, ClientId))
    requires p in pairs && forall q <- pairs :: Get(table, q.0, q.1).Some?
    ensures SumCounts(table, pairs) == Get(table, p.0, p.1).value.info.numOfCb + SumCounts(table, pairs - {p})
    decreases |pairs|
  {
    var first :| first in pairs && SumCounts(table, pairs)
      == Get(table, first.0, first.1).value.info.numOfCb + SumCounts(table, pairs - {first});
    if first != p {
      SumCountsAdd(table, pairs - {first}, p);
      SumCountsAdd(table, pairs - {p}, first);
      assert pairs - {first} - {p} == pairs - {p} - {first};
    }
  }

  lemma {:induction false} SumCountsUnion(table: PublishMap, a: set<(Topic, ClientId)>, b: set<(Topic, ClientId)>)
    requires a !! b && forall q <- a + b :: Get(table, q.0, q.1).Some?
    ensures SumCounts(table, a + b) == SumCounts(table, a) + SumCounts(table, b)
    decreases |b|
  {
    if b == {} {
      assert a + b == a;
    } else {
      var p :| p in b;
      SumCountsAdd(table, a + b, p);
      SumCountsAdd(table, b, p);
      assert a + b - {p} == a + (b - {p});
      SumCountsUnion(table, a, b - {p});
    }
  }

  lemma OneMoreTopic(table: PublishMap, done: set<Topic>, t: Topic)
    requires t !in done
    ensures SumCounts(table, Pairs(table, done + {t})) == SumCounts(table, Pairs(table, done)) + SumCounts(table, Pairs(table, {t}))
  {
    SumCountsUnion(table, Pairs(table, done), Pairs(table, {t}));
    assert Pairs(table, done + {t}) == Pairs(table, done) + Pairs(table, {t});
  }

  // The pairs of topic and client that are mentioned, seen from the history: the i-th event counts
  // while it is the last mention of its pair.
  ghost predicate Current(history: seq<Event>, i: nat) {
    i < |history| && history[i].Mention? && LastMention(history, i, history[i].topic, history[i].client)
  }

  ghost predicate Counts(history: seq<Event>, i: nat, fits: Topic -> bool) {
    Current(history, i) && fits(history[i].topic)
  }

  // What the current mentions among the first n events add up to.
  ghost function CountedMentions(history: seq<Event>, n: nat, fits: Topic -> bool): nat
    requires n <= |history|
  {
    if n == 0 then 0
    else CountedMentions(history, n - 1, fits) + if Counts(history, n - 1, fits) then history[n-1].info.numOfCb else 0
  }

  ghost function MentionedPairs(history: seq<Event>, n: nat, fits: Topic -> bool): set<(Topic, ClientId)>
    requires n <= |history|
  {
    if n == 0 then {}
    else if Counts(history, n - 1, fits) then
      MentionedPairs(history, n - 1, fits) + {(history[n-1].topic, history[n-1].client)}
    else MentionedPairs(history, n - 1, fits)
  }

  lemma {:induction false} MentionedPairsAre(history: seq<Event>, n: nat, fits: Topic -> bool, p: (Topic, ClientId))
    requires n <= |history|
    ensures p in MentionedPairs(history, n, fits) <==>
      exists i: nat :: i < n && Counts(history, i, fits) && p == (history[i].topic, history[i].client)
  {
    if n > 0 {
      MentionedPairsAre(history, n - 1, fits, p);
    }
  }

  ghost predicate AllHeld(table: PublishMap, pairs: set<(Topic, ClientId)>) {
    forall q <- pairs :: Get(table, q.0, q.1).Some?
  }

  lemma {:induction false} MentionsAddUp(history: seq<Event>, n: nat, fits: Topic -> bool)
    requires n <= |history|
    ensures var table, pairs := Fold(map[], history), MentionedPairs(history, n, fits);
      AllHeld(table, pairs) && SumCounts(table, pairs) == CountedMentions(history, n, fits)
  {
    if n > 0 {
      MentionsAddUp(history, n - 1, fits);
      if Counts(history, n - 1, fits) {
        var table, before := Fold(map[], history), MentionedPairs(history, n - 1, fits);
        var p := (history[n-1].topic, history[n-1].client);
        NotCountedBefore(history, n - 1, fits);
        TableIsHistory(history, p.0, p.1);
        assert Get(table, p.0, p.1).Some? && Get(table, p.0, p.1).value.info.numOfCb == history[n-1].info.numOfCb;
        OneMorePair(table, before, p);
      }
    }
  }

  lemma OneMorePair(table: PublishMap, pairs: set<(Topic, ClientId)>, p: (Topic, ClientId))
    requires AllHeld(table, pairs) && p !in pairs && Get(table, p.0, p.1).Some?
    ensures AllHeld(table, pairs + {p})
    ensures SumCounts(table, pairs + {p}) == SumCounts(table, pairs) + Get(table, p.0, p.1).value.info.numOfCb
  {
    SumCountsAdd(table, pairs + {p}, p);
    assert pairs + {p} - {p} == pairs;
  }

  lemma NotCountedBefore(history: seq<Event>, n: nat, fits: Topic -> bool)
    requires n < |history| && Counts(history, n, fits)
    ensures (history[n].topic, history[n].client) !in MentionedPairs(history, n, fits)
  {
    var p := (history[n].topic, history[n].client);
    MentionedPairsAre(history, n, fits, p);
    if i: nat :| i < n && Counts(history, i, fits) && p == (history[i].topic, history[i].client) {
      OneLastMention(history, i, n, p.0, p.1);
    }
  }

  // The sum over the table is the sum over the last mentions.
  lemma CountIsHistory(history: seq<Event>, fits: Topic -> bool)
    ensures var table := Fold(map[], history);
      SumCounts(table, Pairs(table, Fitting(table, fits))) == CountedMentions(history, |history|, fits)
  {
    var table := Fold(map[], history);
    var pairs := MentionedPairs(history, |history|, fits);
    MentionsAddUp(history, |history|, fits);
    forall p: (Topic, ClientId) ensures p in pairs <==> p in Pairs(table, Fitting(table, fits)) {
      MentionedPairsAre(history, |history|, fits, p);
      TableIsHistory(history, p.0, p.1);
      if p in Pairs(table, Fitting(table, fits)) {
        var i :| LastMention(history, i, p.0, p.1);
        assert Counts(history, i, fits);
      }
    }
    assert pairs == Pairs(table, Fitting(table, fits));
  }

  // ---------------------------------------------------------------- the code

  lemma FoldOne(table: PublishMap, a: seq<Event>, e: Event)
    ensures Fold(table, a + [e]) == Step(Fold(table, a), e)
  {
    assert (a + [e])[..|a|] == a;
  }

  lemma Appends(a: seq<Event>, b: seq<Event>, c: seq<Event>)
    ensures a + b + c == a + (b + c)
  {
  }

  // A connection exists or can be made.
  predicate Reachable(info: PortInfo, t: Topic, c: ClientId, works: (Topic, ClientId) -> bool) {
    info.connected || works(t, c)
  }

  ghost predicate AllWork(hosts: map<ClientId, PortInfo>, t: Topic, works: (Topic, ClientId) -> bool) {
    forall c <- hosts :: Reachable(hosts[c], t, c, works)
  }

  // The hosts of one topic, some of them still to do.
  ghost predicate HostsSent(was: map<ClientId, PortInfo>, hosts: map<ClientId, PortInfo>, todo: set<ClientId>,
                            t: Topic, works: (Topic, ClientId) -> bool, sent: seq<(Topic, ClientId)>)
  {
    && hosts.Keys == was.Keys && todo <= hosts.Keys
    && (forall p <- sent :: p.0 == t && p.1 in hosts && p.1 !in todo)
    && (forall c <- hosts ::
          if c in todo then hosts[c] == was[c]
          else Reachable(was[c], t, c, works) && hosts[c] == was[c].(connected := true) && multiset(sent)[(t, c)] == 1)
  }

  lemma HostStep(was: map<ClientId, PortInfo>, hosts: map<ClientId, PortInfo>, todo: set<ClientId>,
                 t: Topic, works: (Topic, ClientId) -> bool, sent: seq<(Topic, ClientId)>, c: ClientId)
    requires HostsSent(was, hosts, todo, t, works, sent) && c in todo && Reachable(hosts[c], t, c, works)
    ensures HostsSent(was, hosts[c := hosts[c].(connected := true)], todo - {c}, t, works, sent + [(t, c)])
  {
    assert (t, c) !in sent;
    assert multiset(sent + [(t, c)]) == multiset(sent) + multiset{(t, c)};
  }

  // All topics, some of them still to do: those addressed have their hosts connected and sent the
  // message once each, the others are as they were and got nothing.
  ghost predicate TopicsSent(was: PublishMap, table: PublishMap, todo: set<Topic>, addressed: Topic -> bool,
                             works: (Topic, ClientId) -> bool, sent: seq<(Topic, ClientId)>)
  {
    && table.Keys == was.Keys && todo <= table.Keys
    && (forall p <- sent :: p.0 in table && p.0 !in todo && addressed(p.0))
    && (forall t <- table :: TopicSent(was, table, todo, addressed, works, sent, t))
  }

  ghost predicate TopicSent(was: PublishMap, table: PublishMap, todo: set<Topic>, addressed: Topic -> bool,
                            works: (Topic, ClientId) -> bool, sent: seq<(Topic, ClientId)>, t: Topic)
    requires t in was && t in table
  {
    if t in todo || !addressed(t) then table[t] == was[t]
    else HostsSent(was[t], table[t], {}, t, works, Of(sent, t))
  }

  lemma SameElsewhere(was: PublishMap, table: PublishMap, t: Topic, before: map<ClientId, PortInfo>, hosts: map<ClientId, PortInfo>)
    requires t in was && table == was[t := before][t := hosts]
    ensures table == was[t := hosts]
  {
  }

  // The part of a list of recipients that concerns one topic.
  ghost function Of(sent: seq<(Topic, ClientId)>, t: Topic): seq<(Topic, ClientId)> {
    if sent == [] then []
    else if sent[0].0 == t then [sent[0]] + Of(sent[1..], t)
    else Of(sent[1..], t)
  }

  lemma {:induction false} OfConcat(a: seq<(Topic, ClientId)>, b: seq<(Topic, ClientId)>, t: Topic)
    ensures Of(a + b, t) == Of(a, t) + Of(b, t)
  {
    if a == [] {
      assert a + b == b;
    } else {
      var rest := a[1..] + b;
      assert (a + b)[1..] == rest && (a + b)[0] == a[0];
      OfConcat(a[1..], b, t);
      if a[0].0 == t {
        assert Of(a + b, t) == [a[0]] + Of(rest, t);
        assert [a[0]] + (Of(a[1..], t) + Of(b, t)) == [a[0]] + Of(a[1..], t) + Of(b, t);
      }
    }
  }

  lemma {:induction false} OfOnly(sent: seq<(Topic, ClientId)>, t: Topic)
    ensures (forall p <- sent :: p.0 == t) ==> Of(sent, t) == sent
    ensures (forall p <- sent :: p.0 != t) ==> Of(sent, t) == []
  {
    if sent != [] {
      assert forall p <- sent[1..] :: p in sent;
      OfOnly(sent[1..], t);
    }
  }

  // The recipients of one more topic leave those of the others as they were.
  lemma OfOneMore(sent: seq<(Topic, ClientId)>, part: seq<(Topic, ClientId)>, t: Topic, x: Topic)
    requires (forall p <- sent :: p.0 != t) && (forall p <- part :: p.0 == t)
    ensures Of(sent + part, x) == if x == t then part else Of(sent, x)
  {
    OfConcat(sent, part, x);
    OfOnly(part, x);
    OfOnly(sent, x);
  }

  // Recipients of one topic, each at most once.
  ghost predicate OnceEach(sent: seq<(Topic, ClientId)>, t: Topic, hosts: set<ClientId>) {
    && (forall p <- sent :: p.0 == t && p.1 in hosts)
    && (forall p :: multiset(sent)[p] <= 1)
  }

  lemma OnceMore(sent: seq<(Topic, ClientId)>, t: Topic, c: ClientId, hosts: set<ClientId>)
    requires OnceEach(sent, t, hosts) && (t, c) !in sent && c in hosts
    ensures OnceEach(sent + [(t, c)], t, hosts)
  {
    assert multiset(sent + [(t, c)]) == multiset(sent) + multiset{(t, c)};
  }

  lemma {:induction false} CountOf(sent: seq<(Topic, ClientId)>, p: (Topic, ClientId))
    ensures multiset(sent)[p] == multiset(Of(sent, p.0))[p]
  {
    if sent != [] {
      assert sent == [sent[0]] + sent[1..];
      CountOf(sent[1..], p);
      var rest := Of(sent[1..], p.0);
      assert multiset([sent[0]] + rest) == multiset{sent[0]} + multiset(rest);
    }
  }

  // What has been sent so far, with the part of the topic being served.
  lemma SentMore(was: PublishMap, before: PublishMap, todo: set<Topic>, addressed: Topic -> bool,
                 works: (Topic, ClientId) -> bool, sent: seq<(Topic, ClientId)>, t: Topic, part: seq<(Topic, ClientId)>)
    requires TopicsSent(was, before, todo, addressed, works, sent)
    requires part != [] ==> t in todo && addressed(t) && OnceEach(part, t, was[t].Keys)
    ensures forall p <- sent + part :: p.0 in was && addressed(p.0) && p.1 in was[p.0]
    ensures forall p :: multiset(sent + part)[p] <= 1
  {
    forall p | p in sent ensures p.1 in was[p.0] {
      RecipientOf(sent, p);
      assert TopicSent(was, before, todo, addressed, works, sent, p.0);
    }
    forall p: (Topic, ClientId) ensures multiset(sent + part)[p] <= 1 {
      assert multiset(sent + part) == multiset(sent) + multiset(part);
      AtMostOnce(was, before, todo, addressed, works, sent, p);
      assert part != [] && p.0 == t ==> p !in sent;
      assert part != [] && p.0 != t ==> p !in part;
    }
  }

  lemma {:induction false} RecipientOf(sent: seq<(Topic, ClientId)>, p: (Topic, ClientId))
    requires p in sent
    ensures p in Of(sent, p.0)
  {
    if sent[0] != p {
      assert sent == [sent[0]] + sent[1..];
      RecipientOf(sent[1..], p);
    }
  }

  lemma AtMostOnce(was: PublishMap, table: PublishMap, todo: set<Topic>, addressed: Topic -> bool,
                   works: (Topic, ClientId) -> bool, sent: seq<(Topic, ClientId)>, p: (Topic, ClientId))
    requires TopicsSent(was, table, todo, addressed, works, sent)
    ensures multiset(sent)[p] <= 1
  {
    if p in sent {
      CountOf(sent, p);
      RecipientOf(sent, p);
      assert TopicSent(was, table, todo, addressed, works, sent, p.0);
    }
  }

  lemma TopicStep(was: PublishMap, before: PublishMap, table: PublishMap, todo: set<Topic>, addressed: Topic -> bool,
                  works: (Topic, ClientId) -> bool, sent: seq<(Topic, ClientId)>, t: Topic, part: seq<(Topic, ClientId)>)
    requires TopicsSent(was, before, todo, addressed, works, sent) && t in todo && addressed(t)
    requires t in table && table == before[t := table[t]]
    requires HostsSent(before[t], table[t], {}, t, works, part)
    ensures TopicsSent(was, table, todo - {t}, addressed, works, sent + part)
  {
    forall x | x in table ensures TopicSent(was, table, todo - {t}, addressed, works, sent + part, x) {
      assert x in before && TopicSent(was, before, todo, addressed, works, sent, x);
      OfOneMore(sent, part, t, x);
    }
  }

  // What is held once an announced port and callback count have taken effect: key and connection
  // stay as long as the port does.
  ghost predicate Announced(was: Option<PortInfo>, held: Option<PortInfo>, port: nat, numOfCb: nat, key: nat) {
    && held.Some? && held.value.info.port == port && held.value.info.numOfCb == numOfCb
    && if was.Some? && was.value.info.port == port then
         held.value.info.key == was.value.info.key && held.value.connected == was.value.connected
       else held.value.info.key == key && !held.value.connected
  }

  ghost predicate WellFormedTo(secure: bool, entries: seq<Entry>, n: nat) {
    secure ==> forall j :: 0 <= j < n && j < |entries| && entries[j].topic != "host" ==> entries[j].size == CONN_INFO_MAX
  }

  // In secure mode the first malformed entry ends the processing.
  ghost predicate TakesEffect(secure: bool, entries: seq<Entry>, k: nat)
    requires k < |entries|
  {
    entries[k].topic != "host" && WellFormedTo(secure, entries, k + 1)
  }

  ghost predicate DistinctTopics(entries: seq<Entry>) {
    forall i, j :: 0 <= i < j < |entries| ==> entries[i].topic != entries[j].topic
  }

  // The first n entries have taken effect.
  ghost predicate EntriesTaken(was: PublishMap, now: PublishMap, secure: bool, client: ClientId, entries: seq<Entry>, n: nat) {
    forall k :: 0 <= k < n && k < |entries| && TakesEffect(secure, entries, k) ==> EntryHeld(was, now, client, entries[k])
  }

  ghost predicate EntryHeld(was: PublishMap, now: PublishMap, client: ClientId, e: Entry) {
    Announced(Get(was, e.topic, client), Get(now, e.topic, client), e.port % 0x1_0000, e.numOfCb % 0x1_0000, e.key)
  }

  // Nothing but what they name has changed.
  ghost predicate OthersKept(was: PublishMap, now: PublishMap, secure: bool, client: ClientId, entries: seq<Entry>, n: nat) {
    forall t, c :: Get(now, t, c) == Get(was, t, c) || (c == client && NamedBefore(secure, entries, n, t))
  }

  ghost predicate NamedBefore(secure: bool, entries: seq<Entry>, n: nat, t: Topic) {
    exists k :: 0 <= k < n && k < |entries| && TakesEffect(secure, entries, k) && entries[k].topic == t
  }

  // What an announcement has done after n entries.
  ghost predicate Progress(was: PublishMap, now: PublishMap, secure: bool, client: ClientId, entries: seq<Entry>, n: nat) {
    && (DistinctTopics(entries) ==> EntriesTaken(was, now, secure, client, entries, n))
    && OthersKept(was, now, secure, client, entries, n)
    && (n < |entries| ==> WellFormedTo(secure, entries, n))
  }

  lemma EntryTaken(was: PublishMap, before: PublishMap, now: PublishMap, secure: bool, client: ClientId, entries: seq<Entry>, n: nat)
    requires n < |entries| && TakesEffect(secure, entries, n) && Progress(was, before, secure, client, entries, n)
    requires EntryHeld(before, now, client, entries[n])
    requires forall t, c :: (t, c) != (entries[n].topic, client) ==> Get(now, t, c) == Get(before, t, c)
    ensures Progress(was, now, secure, client, entries, n + 1)
  {
    forall t, c ensures Get(now, t, c) == Get(was, t, c) || (c == client && NamedBefore(secure, entries, n + 1, t)) {
      if (t, c) != (entries[n].topic, client) {
        assert Get(before, t, c) == Get(was, t, c) || (c == client && NamedBefore(secure, entries, n, t));
      }
    }
    if DistinctTopics(entries) {
      assert Get(before, entries[n].topic, client) == Get(was, entries[n].topic, client);
      forall k | 0 <= k < n + 1 && TakesEffect(secure, entries, k) ensures EntryHeld(was, now, client, entries[k]) {
        if k < n {
          assert EntryHeld(was, before, client, entries[k]);
        }
      }
    }
  }

  lemma EntrySkipped(was: PublishMap, now: PublishMap, secure: bool, client: ClientId, entries: seq<Entry>, n: nat)
    requires n < |entries| && entries[n].topic == "host" && Progress(was, now, secure, client, entries, n)
    ensures Progress(was, now, secure, client, entries, n + 1)
  {
    forall t, c ensures Get(now, t, c) == Get(was, t, c) || (c == client && NamedBefore(secure, entries, n + 1, t)) {
      assert Get(now, t, c) == Get(was, t, c) || (c == client && NamedBefore(secure, entries, n, t));
    }
  }

  lemma RestIgnored(was: PublishMap, now: PublishMap, secure: bool, client: ClientId, entries: seq<Entry>, n: nat)
    requires n < |entries| && secure && entries[n].topic != "host" && entries[n].size != CONN_INFO_MAX
    requires Progress(was, now, secure, client, entries, n)
    ensures Progress(was, now, secure, client, entries, |entries|)
  {
    forall k | 0 <= k < |entries| && TakesEffect(secure, entries, k) ensures k < n {
    }
    forall t, c ensures Get(now, t, c) == Get(was, t, c) || (c == client && NamedBefore(secure, entries, |entries|, t)) {
      assert Get(now, t, c) == Get(was, t, c) || (c == client && NamedBefore(secure, entries, n, t));
    }
  }

  class Module {
    const secure: bool
    const matches: (Topic, Topic) -> bool   // discovery.CompareTopic
    var publishTable: PublishMap
    var clientTable: map<ClientId, string>
    ghost var history: seq<Event>           // everything that has touched the table

    ghost predicate Valid() reads this {
      publishTable == Fold(map[], history)
    }

    constructor (secure: bool, matches: (Topic, Topic) -> bool)
      ensures Valid() && this.secure == secure && this.matches == matches && clientTable == map[] && history == []
    {
      this.secure, this.matches, publishTable, clientTable, history := secure, matches, map[], map[], [];
    }

    method ClientLeft(client: ClientId)
      requires Valid()
      modifies this
      ensures Valid() && clientTable == old(clientTable) - {client}
      ensures history == old(history) + [Leave(client)]
    {
      FoldOne(map[], history, Leave(client));
      clientTable := clientTable - {client};
      publishTable := map t | t in publishTable :: publishTable[t] - {client};
      history := history + [Leave(client)];
    }

    method DiscoveryMessageCallback(client: ClientId, host: string, entries: seq<Entry>)
      requires Valid()
      modifies this
      ensures Valid() && clientTable == old(clientTable)[client := host]
      ensures history == old(history) + Mentions(secure, client, entries)
      // on the entries: each one but "host", in secure mode before the first malformed one, leaves its
      // port and count as 16-bit values and its key if the port is new; nothing else changes
      ensures DistinctTopics(entries) ==> EntriesTaken(old(publishTable), publishTable, secure, client, entries, |entries|)
      ensures OthersKept(old(publishTable), publishTable, secure, client, entries, |entries|)
    {
      if client !in clientTable || clientTable[client] != host {
        clientTable := clientTable[client := host];
      }
      for idx := 0 to |entries|
        invariant Valid() && clientTable == old(clientTable)[client := host]
        invariant history + Mentions(secure, client, entries[idx..]) == old(history) + Mentions(secure, client, entries)
        invariant Progress(old(publishTable), publishTable, secure, client, entries, idx)
      {
        var malformed := TakeEntry(client, entries, idx, old(publishTable));
        if malformed {
          return;
        }
      }
      assert entries[|entries|..] == [];
    }

    // One entry; in secure mode a malformed one ends the processing.
    method TakeEntry(client: ClientId, entries: seq<Entry>, idx: nat, ghost was: PublishMap) returns (malformed: bool)
      requires Valid() && idx < |entries| && Progress(was, publishTable, secure, client, entries, idx)
      modifies this`publishTable, this`history
      ensures Valid()
      ensures var rest := if malformed then [] else Mentions(secure, client, entries[idx+1..]);
        history + rest == old(history) + Mentions(secure, client, entries[idx..])
      ensures Progress(was, publishTable, secure, client, entries, if malformed then |entries| else idx + 1)
    {
      var entry := entries[idx];
      assert entries[idx..][0] == entry && entries[idx..][1..] == entries[idx+1..];
      if entry.topic == "host" {
        EntrySkipped(was, publishTable, secure, client, entries, idx);
        return false;
      }
      if secure && entry.size != CONN_INFO_MAX {
        RestIgnored(was, publishTable, secure, client, entries, idx);
        return true;
      }
      ghost var before := publishTable;
      UpdatePublishTable(entry.topic, client, InfoOf(entry));
      EntryTaken(was, before, publishTable, secure, client, entries, idx);
      return false;
    }

    // A connection is kept as long as the port is the same; then only the count changes.
    method UpdatePublishTable(topic: Topic, client: ClientId, info: ConnectInfo)
      requires Valid()
      modifies this`publishTable, this`history
      ensures Valid() && history == old(history) + [Mention(client, topic, info)]
      ensures Announced(Get(old(publishTable), topic, client), Get(publishTable, topic, client), info.port, info.numOfCb, info.key)
      ensures forall t, c :: (t, c) != (topic, client) ==> Get(publishTable, t, c) == Get(old(publishTable), t, c)
    {
      FoldOne(map[], history, Mention(client, topic, info));
      history := history + [Mention(client, topic, info)];
      if topic !in publishTable {
        publishTable := publishTable[topic := map[client := PortInfo(info, false)]];
        return;
      }
      var hosts := publishTable[topic];
      if client !in hosts {
        hosts := hosts[client := PortInfo(info, false)];
      } else {
        var portInfo := hosts[client];
        if portInfo.info.port == info.port {
          portInfo := portInfo.(info := portInfo.info.(numOfCb := info.numOfCb));
        } else {
          portInfo := PortInfo(info, false);
        }
        hosts := hosts[client := portInfo];
      }
      publishTable := publishTable[topic := hosts];
    }

    // One host of PublishFull: a missing connection is made, which may throw.
    method ConnectHost(topic: Topic, client: ClientId, works: bool) returns (ok: bool)
      requires Valid() && Get(publishTable, topic, client).Some?
      modifies this`publishTable, this`history
      ensures Valid()
      ensures ok <==> works || old(publishTable[topic][client].connected)
      ensures history == old(history) + (if ok && !old(publishTable[topic][client].connected) then [Connect(topic, client)] else [])
      ensures ok ==> publishTable == WithConnection(old(publishTable), topic, client)
      ensures !ok ==> publishTable == old(publishTable)
    {
      var info := publishTable[topic][client];
      if !info.connected {
        if !works {
          return false;
        }
        FoldOne(map[], history, Connect(topic, client));
        history := history + [Connect(topic, client)];
        publishTable := publishTable[topic := publishTable[topic][client := info.(connected := true)]];
      } else {
        assert publishTable[topic][client := info] == publishTable[topic];
      }
      return true;
    }

    // PublishFull: every host of every matching topic is connected if need be and sent the message,
    // until a connection cannot be made. `works` says which can.
    method PublishFull(topic: Topic, works: (Topic, ClientId) -> bool)
      returns (ok: bool, sent: seq<(Topic, ClientId)>, ghost connects: seq<Event>)
      requires Valid()
      modifies this`publishTable, this`history
      ensures Valid() && history == old(history) + connects
      ensures forall e <- connects :: e.Connect? && matches(e.topic, topic) && works(e.topic, e.client)
      ensures ok ==> TopicsSent(old(publishTable), publishTable, {}, t => matches(t, topic), works, sent)
      ensures !ok ==> exists t <- old(publishTable) :: matches(t, topic) && !AllWork(old(publishTable)[t], t, works)
      // also when it ends early
      ensures forall p <- sent :: p.0 in old(publishTable) && matches(p.0, topic) && p.1 in old(publishTable)[p.0]
      ensures forall p :: multiset(sent)[p] <= 1
    {
      ghost var addressed := t => matches(t, topic);
      sent, connects := [], [];
      var topics := publishTable.Keys;
      while topics != {}
        invariant Valid() && history == old(history) + connects
        invariant forall e <- connects :: e.Connect? && matches(e.topic, topic) && works(e.topic, e.client)
        invariant TopicsSent(old(publishTable), publishTable, topics, addressed, works, sent)
        decreases |topics|
      {
        var t :| t in topics;
        if matches(t, topic) {
          ghost var before := publishTable;
          var part;
          ghost var made;
          ok, part, made := SendToHosts(t, works);
          Appends(old(history), connects, made);
          connects := connects + made;
          SentMore(old(publishTable), before, topics, addressed, works, sent, t, part);
          if !ok {
            sent := sent + part;
            return;
          }
          TopicStep(old(publishTable), before, publishTable, topics, addressed, works, sent, t, part);
          sent := sent + part;
        }
        topics := topics - {t};
      }
      SentMore(old(publishTable), publishTable, {}, addressed, works, sent, topic, []);
      assert sent + [] == sent;
      ok := true;
    }

    // The inner loop.
    method SendToHosts(t: Topic, works: (Topic, ClientId) -> bool)
      returns (ok: bool, sent: seq<(Topic, ClientId)>, ghost connects: seq<Event>)
      requires Valid() && t in publishTable
      modifies this`publishTable, this`history
      ensures Valid() && history == old(history) + connects
      ensures forall e <- connects :: e.Connect? && e.topic == t && works(t, e.client)
      ensures t in publishTable && publishTable == old(publishTable)[t := publishTable[t]]
      ensures ok ==> HostsSent(old(publishTable[t]), publishTable[t], {}, t, works, sent)
      ensures !ok ==> !AllWork(old(publishTable[t]), t, works)
      ensures OnceEach(sent, t, old(publishTable[t]).Keys)
    {
      sent, connects := [], [];
      var hosts := publishTable[t].Keys;
      while hosts != {}
        invariant Valid() && history == old(history) + connects
        invariant forall e <- connects :: e.Connect? && e.topic == t && works(t, e.client)
        invariant t in publishTable && publishTable == old(publishTable)[t := publishTable[t]]
        invariant HostsSent(old(publishTable[t]), publishTable[t], hosts, t, works, sent)
        invariant OnceEach(sent, t, old(publishTable[t]).Keys)
        decreases |hosts|
      {
        var c :| c in hosts;
        ghost var before := publishTable[t];
        ok := ConnectHost(t, c, works(t, c));
        if !ok {
          return;
        }
        ghost var made := if before[c].connected then [] else [Connect(t, c)];
        Appends(old(history), connects, made);
        connects := connects + made;
        SameElsewhere(old(publishTable), publishTable, t, before, publishTable[t]);
        HostStep(old(publishTable[t]), before, hosts, t, works, sent, c);
        OnceMore(sent, t, c, old(publishTable[t]).Keys);
        sent := sent + [(t, c)];
        hosts := hosts - {c};
      }
      ok := true;
    }

    method CountSubscriber(fits: Topic -> bool) returns (count: nat)
      requires Valid()
      ensures count == SumCounts(publishTable, Pairs(publishTable, Fitting(publishTable, fits)))
      ensures count == CountedMentions(history, |history|, fits)
    {
      count := 0;
      ghost var done: set<Topic> := {};
      var topics := publishTable.Keys;
      while topics != {}
        invariant topics <= publishTable.Keys && done == Fitting(publishTable, fits) - topics
        invariant count == SumCounts(publishTable, Pairs(publishTable, done))
        decreases |topics|
      {
        var t :| t in topics;
        topics := topics - {t};
        if fits(t) {
          var n := CountHosts(t);
          OneMoreTopic(publishTable, done, t);
          count := count + n;
          done := done + {t};
        }
      }
      assert done == Fitting(publishTable, fits);
      CountIsHistory(history, fits);
    }

    method CountHosts(t: Topic) returns (count: nat)
      requires t in publishTable
      ensures count == SumCounts(publishTable, Pairs(publishTable, {t}))
    {
      count := 0;
      ghost var seen: set<(Topic, ClientId)> := {};
      var hosts := publishTable[t].Keys;
      while hosts != {}
        invariant hosts <= publishTable[t].Keys
        invariant seen == set p | p in Pairs(publishTable, {t}) && p.1 !in hosts
        invariant count == SumCounts(publishTable, seen)
        decreases |hosts|
      {
        var c :| c in hosts;
        hosts := hosts - {c};
        count := count + publishTable[t][c].info.numOfCb;
        assert (t, c) !in seen && Get(publishTable, t, c).Some?;
        OneMorePair(publishTable, seen, (t, c));
        seen := seen + {(t, c)};
      }
      assert seen == Pairs(publishTable, {t});
    }
  }
}
