/**
 * Requests and their replies from end to end. Any number of requests of one instance are
 * outstanding at a time. Responders number and publish their replies, the broker delivers in
 * order, the MQTT thread queues a call for every matching turn of the client's walk, and the main
 * loop unsubscribes at a final reply and calls the user back (src/AITTImpl.cc:218-253,292-327).
 * Every interleaving with other calls of the requester is a sequence of `Event`s.
 */
module ReplyStream {
  import opened Handles
  import opened Results
  import opened Runs
  import opened Sequences
  import opened Decimals
  import opened ReplyTopics
  import opened MessageDispatch
  import opened AittSubscriptions
  import opened Replies

  // One request: the subscription PublishWithReply made for it, what the responder answers in all
  // and still has to, the number in its request message, and what the user's callback has seen.
  datatype Session = Session(
    number: nat, topic: string, info: InfoPtr, handle: Handle, correlation: string,
    answers: seq<Answer>, unsent: seq<Answer>, sequence: nat, seen: seq<Reply>)

  // A message on its way, and the request it answers, which the requester is not told.
  datatype Sent = Sent(message: Message, from: nat)

  // A call queued for the main loop.
  datatype Pending = Pending(handle: Handle, reply: Reply)

  datatype State = State(
    matches: (string, string) -> bool,   // topic filter and topic
    sessions: seq<Session>, requests: nat,
    wire: seq<Sent>, idle: seq<Pending>, books: Books,
    mark: Handle)                        // older subscriptions were listed at the last message

  datatype Event =
    | MakeRequest(topic: string, userData: int, a: Allocation, correlation: string, answers: seq<Answer>)
    | Send(k: nat)
    | Deliver
    | Arrive(message: Message)
    | Handle
    | Other(call: Call)

  function TopicOf(e: Session): string {
    ReplyTopic(e.topic, Advance(0, e.number))
  }

  // Everything the callback of this request is to see.
  function All(e: Session): seq<Reply> {
    Numbered(0, e.correlation, e.answers)
  }

  predicate Open(e: Session) {
    e.seen != All(e)
  }

  // A filter without wildcards, as every topic that can be published on is.
  ghost predicate Literal(matches: (string, string) -> bool, filter: string) {
    forall topic :: matches(filter, topic) <==> topic == filter
  }

  // What can happen. A request may be made while fewer than 65536 were made since the oldest one
  // still open, and only its last reply is final. Messages with other topics than those of the open
  // requests arrive in between, all of them readable. Other calls are the requester's own: requests
  // that make no MQTT subscription among them, but no removal of an open request's subscription;
  // the broker refuses no unsubscription.
  ghost predicate Enabled(s: State, e: Event) {
    match e
    case MakeRequest(topic, userData, a, correlation, answers) =>
      && Possible(s.books, CallPublishWithReply(topic, userData, Mqtt, true, a))
      && OnlyLastFinal(answers) && |answers| <= INT_MAX
      && (forall k :: 0 <= k < |s.sessions| && Open(s.sessions[k]) ==> s.requests - s.sessions[k].number < COUNTER_SIZE)
      && Literal(s.matches, ReplyTopic(topic, s.books.replyId))
    case Send(k) => k < |s.sessions| && s.sessions[k].unsent != []
    case Deliver => s.wire != []
    case Arrive(m) =>
      && Read(m).Some?
      && (forall k :: 0 <= k < |s.sessions| && Open(s.sessions[k]) ==> m.topic != TopicOf(s.sessions[k]))
    case Handle => s.idle != []
    case Other(call) =>
      && Possible(s.books, call) && !Refused(s.books, call)
      && (call.CallPublishWithReply? ==> call.protocol != Mqtt || !call.brokerOk)
      && (forall k :: 0 <= k < |s.sessions| && Open(s.sessions[k]) ==> !Removes(call, s.sessions[k].info))
  }

  // ---------------------------------------------------------------- the steps

  function AfterRequest(s: State, topic: string, userData: int, a: Allocation, correlation: string, answers: seq<Answer>): State
  {
    s.(sessions := s.sessions + [Session(s.requests, topic, a.info, s.books.nextHandle, correlation, answers, answers, 0, [])],
       requests := s.requests + 1,
       books := AfterPublishWithReply(s.books, topic, userData, Mqtt, true, a).0)
  }

  function Answered(e: Session): Session
    requires e.unsent != []
  {
    e.(unsent := e.unsent[1..], sequence := NextSequence(e.sequence, e.unsent[0].end))
  }

  // The next reply of a responder.
  function NextReply(e: Session): Reply
    requires e.unsent != []
  {
    Reply(e.unsent[0].data, e.correlation, NextSequence(e.sequence, e.unsent[0].end), e.unsent[0].end)
  }

  function AfterSend(s: State, k: nat): State
    requires k < |s.sessions| && s.sessions[k].unsent != []
  {
    var e := s.sessions[k];
    s.(sessions := s.sessions[k := Answered(e)], wire := s.wire + [Sent(Written(TopicOf(e), NextReply(e)), k)])
  }

  function Fits(matches: (string, string) -> bool, topic: string): SubscribeData -> bool {
    (x: SubscribeData) => matches(x.topic, topic)
  }

  function Calls(invoked: seq<SubscribeData>, r: Reply): seq<Pending> {
    if invoked == [] then [] else [Pending(invoked[0].handle, r)] + Calls(invoked[1..], r)
  }

  // The calls queued for one message: one for every callback the client's walk invokes.
  function Queued(b: Books, matches: (string, string) -> bool, topic: string, r: Reply): seq<Pending> {
    Calls(Invoked(b, Fits(matches, topic)), r)
  }

  // A property that cannot be read throws before any callback.
  function AfterMessage(s: State, m: Message): State {
    match Read(m)
    case None => s
    case Some(r) =>
      s.(idle := s.idle + Queued(s.books, s.matches, m.topic, r), books := Dispatched(s.books), mark := s.books.nextHandle)
  }

  function AfterDelivery(s: State): State
    requires s.wire != []
  {
    AfterMessage(s.(wire := s.wire[1..]), s.wire[0].message)
  }

  // Which request a handle belongs to; those of other subscriptions belong to none.
  function SessionOf(sessions: seq<Session>, h: Handle): (k: nat)
    ensures k <= |sessions|
    ensures k < |sessions| ==> sessions[k].handle == h
    ensures k == |sessions| ==> forall j :: 0 <= j < |sessions| ==> sessions[j].handle != h
  {
    if sessions == [] then 0 else if sessions[0].handle == h then 0 else 1 + SessionOf(sessions[1..], h)
  }

  function AfterHandling(s: State): State
    requires s.idle != [] && WellNamed(s.books)
  {
    var p := s.idle[0];
    var k := SessionOf(s.sessions, p.handle);
    if k == |s.sessions| then s.(idle := s.idle[1..])
    else
      var e := s.sessions[k];
      s.(idle := s.idle[1..], sessions := s.sessions[k := e.(seen := e.seen + [p.reply])],
         books := After(s.books, CallReply(e.info, p.reply.end, true)))
  }

  function AfterOther(s: State, call: Call): State
    requires WellNamed(s.books) && (call.CallUnsubscribeAll? ==> |call.answers| == |s.books.list|)
  {
    s.(books := After(s.books, call), requests := s.requests + if call.CallPublishWithReply? then 1 else 0)
  }

  function Step(s: State, e: Event): State
    requires Enabled(s, e) && WellNamed(s.books)
  {
    match e
    case MakeRequest(topic, userData, a, correlation, answers) => AfterRequest(s, topic, userData, a, correlation, answers)
    case Send(k) => AfterSend(s, k)
    case Deliver => AfterDelivery(s)
    case Arrive(m) => AfterMessage(s, m)
    case Handle => AfterHandling(s)
    case Other(call) => AfterOther(s, call)
  }

  // ---------------------------------------------------------------- one request's replies

  // Those queued for a subscription.
  function IdleOf(idle: seq<Pending>, h: Handle): seq<Reply> {
    if idle == [] then []
    else if idle[0].handle == h then [idle[0].reply] + IdleOf(idle[1..], h)
    else IdleOf(idle[1..], h)
  }

  // Those on their way that answer a request.
  function WireOf(wire: seq<Sent>, k: nat): seq<Reply> {
    if wire == [] then []
    else if wire[0].from == k && Read(wire[0].message).Some? then [Read(wire[0].message).value] + WireOf(wire[1..], k)
    else WireOf(wire[1..], k)
  }

  lemma {:induction false} IdleOfConcat(a: seq<Pending>, b: seq<Pending>, h: Handle)
    ensures IdleOf(a + b, h) == IdleOf(a, h) + IdleOf(b, h)
  {
    if a == [] {
      assert a + b == b;
    } else {
      assert (a + b)[0] == a[0] && (a + b)[1..] == a[1..] + b;
      IdleOfConcat(a[1..], b, h);
    }
  }

  lemma {:induction false} WireOfAppends(wire: seq<Sent>, m: Sent, k: nat)
    requires Read(m.message).Some?
    ensures WireOf(wire + [m], k) == WireOf(wire, k) + if m.from == k then [Read(m.message).value] else []
  {
    if wire == [] {
      assert wire + [m] == [m];
    } else {
      assert (wire + [m])[0] == wire[0] && (wire + [m])[1..] == wire[1..] + [m];
      WireOfAppends(wire[1..], m, k);
    }
  }

  lemma {:induction false} ChosenFor(s: seq<SubscribeData>, fits: SubscribeData -> bool, r: Reply, h: Handle)
    requires Distinct(s)
    ensures IdleOf(Calls(Chosen(s, fits), r), h) == if exists x <- s :: x.handle == h && fits(x) then [r] else []
  {
    if s != [] {
      var x, rest := s[0], s[1..];
      assert s == [x] + rest;
      assert forall i :: 0 <= i < |rest| ==> rest[i] == s[i + 1];
      ChosenFor(rest, fits, r, h);
      if fits(x) {
        CallsHead(x, Chosen(rest, fits), r, h);
      } else {
        assert [] + Chosen(rest, fits) == Chosen(rest, fits);
      }
    }
  }

  lemma CallsHead(x: SubscribeData, rest: seq<SubscribeData>, r: Reply, h: Handle)
    ensures IdleOf(Calls([x] + rest, r), h) == (if x.handle == h then [r] else []) + IdleOf(Calls(rest, r), h)
  {
    assert ([x] + rest)[1..] == rest;
    assert ([Pending(x.handle, r)] + Calls(rest, r))[1..] == Calls(rest, r);
  }

  // A message queues no call for a subscription that does not match, and one for a subscription
  // that does; two if it is the first and the flag was left set.
  lemma QueuedFor(b: Books, matches: (string, string) -> bool, topic: string, r: Reply, h: Handle)
    requires Agree(b)
    ensures IdleOf(Queued(b, matches, topic, r), h) ==
      if !exists x <- b.subscribers :: x.handle == h && matches(x.topic, topic) then []
      else if b.vector.updated && b.subscribers[0].handle == h then [r, r]
      else [r]
  {
    var fits, subscribers := Fits(matches, topic), b.subscribers;
    InvokedTurns(b, fits);
    ChosenFor(subscribers, fits, r, h);
    if b.vector.updated && subscribers != [] && fits(subscribers[0]) {
      CallsHead(subscribers[0], Chosen(subscribers, fits), r, h);
    } else {
      assert [] + Chosen(subscribers, fits) == Chosen(subscribers, fits);
    }
    if x :| x in subscribers && x.handle == h && matches(x.topic, topic) {
      assert fits(x);
      if subscribers[0].handle == h {
        assert x == subscribers[0];
      }
    }
  }

  // ---------------------------------------------------------------- the invariant

  ghost predicate FinalIsLast(all: seq<Reply>) {
    all != [] && forall k :: 0 <= k < |all| ==> (all[k].end <==> k == |all| - 1)
  }

  // What has been seen and is coming is the whole stream, in order.
  ghost predicate Flows(e: Session, k: nat, idle: seq<Pending>, wire: seq<Sent>) {
    && FinalIsLast(All(e)) && e.sequence + |e.unsent| <= INT_MAX
    && e.seen + IdleOf(idle, e.handle) + WireOf(wire, k) + Numbered(e.sequence, e.correlation, e.unsent) == All(e)
  }

  // The subscription is there, with its topic, exactly while the request is open.
  ghost predicate Placed(e: Session, b: Books) {
    && e.handle < b.nextHandle
    && if Open(e) then
         && e.info in b.list && e.info in b.infos && b.infos[e.info] == SubscribeInfo(Mqtt, e.handle)
         && e.handle in b.topics && b.topics[e.handle] == TopicOf(e)
       else e.handle !in b.topics
  }

  // Requests have subscriptions of their own, and while open topics of their own.
  ghost predicate Apart(sessions: seq<Session>, j: nat, k: nat) {
    j < |sessions| && k < |sessions| && j != k ==>
      && sessions[j].handle != sessions[k].handle
      && (Open(sessions[j]) && Open(sessions[k]) ==> TopicOf(sessions[j]) != TopicOf(sessions[k]))
  }

  ghost predicate Numbers(s: State, k: nat) {
    k < |s.sessions| ==> s.sessions[k].number < s.requests && Literal(s.matches, TopicOf(s.sessions[k]))
  }

  ghost predicate OnWire(s: State, m: Sent) {
    m.from < |s.sessions| && m.message.topic == TopicOf(s.sessions[m.from]) && Read(m.message).Some?
  }

  ghost predicate SessionFlows(s: State, k: nat) {
    k < |s.sessions| ==> Flows(s.sessions[k], k, s.idle, s.wire)
  }

  ghost predicate SessionPlaced(s: State, k: nat) {
    k < |s.sessions| ==> Placed(s.sessions[k], s.books)
  }

  ghost predicate Inv(s: State) {
    && Agree(s.books) && s.books.replyId == Advance(0, s.requests)
    && (forall k :: SessionFlows(s, k))
    && (forall k :: SessionPlaced(s, k))
    && (forall k :: Numbers(s, k))
    && (forall j, k :: Apart(s.sessions, j, k))
    && (forall m <- s.wire :: OnWire(s, m))
    && (forall p <- s.idle :: p.handle < s.mark) && s.mark <= s.books.nextHandle
  }

  // ---------------------------------------------------------------- every step keeps it

  // A call that does not remove the subscription of an open request leaves it in its place.
  lemma CallKeepsPlaced(b: Books, call: Call, e: Session)
    requires Agree(b) && Possible(b, call) && !Refused(b, call) && Placed(e, b)
    requires Open(e) ==> !Removes(call, e.info)
    ensures WellNamed(b) && Agree(After(b, call)) && Placed(e, After(b, call))
  {
    CallAgrees(b, call);
    if Open(e) {
      OthersKeepData(b, call, e.info);
      NextHandleGrows(b, call);
    } else {
      GoneAfterCall(b, call, e.handle);
    }
  }

  lemma NextHandleGrows(b: Books, call: Call)
    requires Agree(b) && WellNamed(b) && Possible(b, call)
    ensures After(b, call).nextHandle >= b.nextHandle
  {
    if call.CallUnsubscribeAll? {
      AllKeepCounters(b, b.list, call.answers);
    }
  }

  // The counter of reply topics moves with the requests.
  lemma ReplyIdMoves(b: Books, call: Call, requests: nat)
    requires Agree(b) && WellNamed(b) && Possible(b, call) && b.replyId == Advance(0, requests)
    ensures After(b, call).replyId == Advance(0, requests + if call.CallPublishWithReply? then 1 else 0)
  {
    match call
    case CallUnsubscribeAll(answers) => AllKeepCounters(b, b.list, answers);
    case CallPublishWithReply(_, _, _, _, _) => NextId(requests);
    case _ =>
  }

  lemma NextId(requests: nat)
    ensures Advance(Advance(0, requests), 1) == Advance(0, requests + 1)
  {
    var q, m := requests / COUNTER_SIZE, requests % COUNTER_SIZE;
    SameRemainder(requests + 1, m + 1, q);
  }

  lemma OtherKeeps(s: State, call: Call)
    requires Inv(s) && Enabled(s, Other(call))
    ensures WellNamed(s.books) && Inv(AfterOther(s, call))
  {
    AgreeIsWellNamed(s.books);
    var s' := AfterOther(s, call);
    CallAgrees(s.books, call);
    ReplyIdMoves(s.books, call, s.requests);
    NextHandleGrows(s.books, call);
    forall k: nat ensures SessionPlaced(s', k) {
      assert SessionPlaced(s, k);
      if k < |s.sessions| {
        CallKeepsPlaced(s.books, call, s.sessions[k]);
      }
    }
    forall k: nat ensures SessionFlows(s', k) && Numbers(s', k) {
      assert SessionFlows(s, k) && Numbers(s, k);
    }
    forall m | m in s'.wire ensures OnWire(s', m) {
      assert OnWire(s, m);
    }
  }

  lemma SendKeeps(s: State, k: nat)
    requires Inv(s) && Enabled(s, Send(k))
    ensures Inv(AfterSend(s, k))
  {
    var s', e := AfterSend(s, k), s.sessions[k];
    var m := Sent(Written(TopicOf(e), NextReply(e)), k);
    assert SessionFlows(s, k);
    WrittenReadBack(TopicOf(e), NextReply(e));
    forall j: nat ensures SessionFlows(s', j) {
      assert SessionFlows(s, j);
      WireOfAppends(s.wire, m, j);
      if j == k {
        SendFlows(e, k, s.idle, s.wire, WireOf(s'.wire, k));
      }
    }
    forall j: nat ensures SessionPlaced(s', j) && Numbers(s', j) {
      assert SessionPlaced(s, j) && Numbers(s, j);
    }
    forall i: nat, j: nat ensures Apart(s'.sessions, i, j) {
      assert Apart(s.sessions, i, j);
    }
    forall x | x in s'.wire ensures OnWire(s', x) {
      assert x == m || (x in s.wire && OnWire(s, x));
    }
  }

  lemma SendFlows(e: Session, k: nat, idle: seq<Pending>, wire: seq<Sent>, grown: seq<Reply>)
    requires Flows(e, k, idle, wire) && e.unsent != [] && grown == WireOf(wire, k) + [NextReply(e)]
    ensures var e' := Answered(e);
      e'.seen + IdleOf(idle, e'.handle) + grown + Numbered(e'.sequence, e'.correlation, e'.unsent) == All(e')
  {
    var rest := Numbered(Answered(e).sequence, e.correlation, e.unsent[1..]);
    assert Numbered(e.sequence, e.correlation, e.unsent) == [NextReply(e)] + rest;
    Regroup(e.seen + IdleOf(idle, e.handle), WireOf(wire, k), [NextReply(e)], rest);
  }

  lemma Regroup(a: seq<Reply>, b: seq<Reply>, c: seq<Reply>, d: seq<Reply>)
    ensures a + b + (c + d) == a + (b + c) + d
  {
  }

  // The flag is set and the first subscriber is the request that the next message answers.
  ghost predicate Doubles(s: State) {
    && s.wire != [] && s.wire[0].from < |s.sessions| && s.books.vector.updated && s.books.subscribers != []
    && s.books.subscribers[0].handle == s.sessions[s.wire[0].from].handle
  }

  // Delivery: the reply goes to the callback of its own request and of no other, and that once,
  // exactly when it does not meet the flag and that request in front.
  lemma DeliverKeepsIff(s: State)
    requires Inv(s) && s.wire != []
    ensures if Doubles(s) then !SessionFlows(AfterDelivery(s), s.wire[0].from) else Inv(AfterDelivery(s))
  {
    assert OnWire(s, s.wire[0]);
    if Doubles(s) {
      var k := s.wire[0].from;
      assert SessionFlows(s, k);
      Routed(s, k);
      DoubledFlows(s, k);
    } else {
      DeliverKeeps(s);
    }
  }

  // One call too many.
  lemma DoubledFlows(s: State, k: nat)
    requires Inv(s) && Doubles(s) && k == s.wire[0].from && Flows(s.sessions[k], k, s.idle, s.wire)
    requires var m := s.wire[0].message;
      && Read(m).Some?
      && |IdleOf(Queued(s.books, s.matches, m.topic, Read(m).value), s.sessions[k].handle)| == 2
    ensures !SessionFlows(AfterDelivery(s), k)
  {
    var e, m := s.sessions[k], s.wire[0].message;
    IdleOfConcat(s.idle, Queued(s.books, s.matches, m.topic, Read(m).value), e.handle);
    assert |WireOf(s.wire, k)| == 1 + |WireOf(s.wire[1..], k)|;
    assert |All(e)| == |e.seen| + |IdleOf(s.idle, e.handle)| + |WireOf(s.wire, k)|
                     + |Numbered(e.sequence, e.correlation, e.unsent)|;
    assert |e.seen + IdleOf(AfterDelivery(s).idle, e.handle) + WireOf(s.wire[1..], k)
            + Numbered(e.sequence, e.correlation, e.unsent)| == |All(e)| + 1;
  }

  lemma DeliverKeeps(s: State)
    requires Inv(s) && s.wire != [] && !Doubles(s)
    ensures Inv(AfterDelivery(s))
  {
    var s', m := AfterDelivery(s), s.wire[0];
    assert OnWire(s, m);
    var r := Read(m.message).value;
    var queued := Queued(s.books, s.matches, m.message.topic, r);
    forall k: nat ensures SessionFlows(s', k) {
      assert SessionFlows(s, k);
      if k < |s.sessions| {
        Routed(s, k);
        IdleOfConcat(s.idle, queued, s.sessions[k].handle);
        DeliverFlows(s.sessions[k], k, s.idle, s.wire, queued);
      }
    }
    MessageLeaves(s, m.message);
    forall k: nat ensures SessionPlaced(s', k) && Numbers(s', k) {
      assert SessionPlaced(s, k) && Numbers(s, k);
    }
    forall x | x in s'.wire ensures OnWire(s', x) {
      assert x in s.wire && OnWire(s, x);
    }
  }

  // A message leaves all tables as they are but for the client's index and flag, and calls only
  // those listed.
  lemma MessageLeaves(s: State, m: Message)
    requires Inv(s) && Read(m).Some?
    ensures Agree(Dispatched(s.books))
    ensures forall p <- AfterMessage(s, m).idle :: p.handle < s.books.nextHandle
  {
    var fits := Fits(s.matches, m.topic);
    OtherCounters(s.books, s.books.replyId, Walked(s.books.vector, |s.books.subscribers|));
    assert Dispatched(s.books) == s.books.(replyId := s.books.replyId, vector := Walked(s.books.vector, |s.books.subscribers|));
    DispatchesWell(s.books);
    InvokedTurns(s.books, fits);
    ChosenAmong(s.books.subscribers, fits);
    CalledHandles(Invoked(s.books, fits), Read(m).value, s.books.nextHandle);
  }

  lemma {:induction false} ChosenAmong(s: seq<SubscribeData>, fits: SubscribeData -> bool)
    ensures forall x <- Chosen(s, fits) :: x in s
  {
    if s != [] {
      ChosenAmong(s[1..], fits);
    }
  }

  lemma {:induction false} CalledHandles(invoked: seq<SubscribeData>, r: Reply, bound: Handle)
    requires forall x <- invoked :: x.handle < bound
    ensures forall p <- Calls(invoked, r) :: p.handle < bound
  {
    if invoked != [] {
      CalledHandles(invoked[1..], r, bound);
    }
  }

  // A message with another topic reaches none of the requests.
  lemma ArriveKeeps(s: State, m: Message)
    requires Inv(s) && Enabled(s, Arrive(m))
    ensures Inv(AfterMessage(s, m))
  {
    var s' := AfterMessage(s, m);
    var queued := Queued(s.books, s.matches, m.topic, Read(m).value);
    MessageLeaves(s, m);
    forall k: nat ensures SessionFlows(s', k) && SessionPlaced(s', k) && Numbers(s', k) {
      assert SessionFlows(s, k) && SessionPlaced(s, k) && Numbers(s, k);
      if k < |s.sessions| {
        var e := s.sessions[k];
        Unreached(s, k, m.topic);
        QueuedFor(s.books, s.matches, m.topic, Read(m).value, e.handle);
        IdleOfConcat(s.idle, queued, e.handle);
        assert IdleOf(s'.idle, e.handle) == IdleOf(s.idle, e.handle);
      }
    }
    forall x | x in s'.wire ensures OnWire(s', x) {
      assert OnWire(s, x);
    }
  }

  // The subscription of a request matches no other topic than its own.
  lemma Unreached(s: State, k: nat, topic: string)
    requires Inv(s) && k < |s.sessions| && (Open(s.sessions[k]) ==> topic != TopicOf(s.sessions[k]))
    ensures forall x <- s.books.subscribers :: x.handle == s.sessions[k].handle ==> !s.matches(x.topic, topic)
  {
    assert SessionPlaced(s, k) && Numbers(s, k);
    forall x | x in s.books.subscribers && x.handle == s.sessions[k].handle ensures !s.matches(x.topic, topic) {
      assert Subscribes(s.books.subscribers, x) && SubscriberOk(s.books, x);
    }
  }

  lemma DeliverFlows(e: Session, k: nat, idle: seq<Pending>, wire: seq<Sent>, queued: seq<Pending>)
    requires Flows(e, k, idle, wire) && wire != [] && Read(wire[0].message).Some?
    requires IdleOf(idle + queued, e.handle) == IdleOf(idle, e.handle) + IdleOf(queued, e.handle)
    requires IdleOf(queued, e.handle) == if wire[0].from == k then [Read(wire[0].message).value] else []
    ensures Flows(e, k, idle + queued, wire[1..])
  {
    if wire[0].from == k {
      var r := [Read(wire[0].message).value];
      assert WireOf(wire, k) == r + WireOf(wire[1..], k);
      Regroup(e.seen, IdleOf(idle, e.handle), r, WireOf(wire[1..], k));
    }
  }

  // The first message on the wire queues one call for the request it answers, or two, and none for
  // others.
  lemma Routed(s: State, k: nat)
    requires Inv(s) && s.wire != [] && k < |s.sessions|
    ensures var m := s.wire[0];
      && Read(m.message).Some?
      && IdleOf(Queued(s.books, s.matches, m.message.topic, Read(m.message).value), s.sessions[k].handle)
         == if m.from != k then [] else if Doubles(s) then [Read(m.message).value, Read(m.message).value]
            else [Read(m.message).value]
  {
    var m, e, b := s.wire[0], s.sessions[k], s.books;
    assert OnWire(s, m);
    QueuedFor(b, s.matches, m.message.topic, Read(m.message).value, e.handle);
    assert SessionPlaced(s, k) && SessionFlows(s, k) && Numbers(s, k);
    if m.from == k {
      StillOpen(e, k, s.idle, s.wire);
      SubscriberOf(b, e.handle);
    } else {
      var j := m.from;
      assert SessionFlows(s, j) && Apart(s.sessions, j, k);
      StillOpen(s.sessions[j], j, s.idle, s.wire);
      Unreached(s, k, m.message.topic);
    }
  }

  // A request with a reply on its way is open.
  lemma StillOpen(e: Session, k: nat, idle: seq<Pending>, wire: seq<Sent>)
    requires Flows(e, k, idle, wire) && wire != [] && wire[0].from == k && Read(wire[0].message).Some?
    ensures Open(e)
  {
    assert |WireOf(wire, k)| > 0;
  }

  lemma SubscriberOf(b: Books, h: Handle)
    requires Agree(b) && h in b.topics
    ensures exists x <- b.subscribers :: x.handle == h && x.topic == b.topics[h]
  {
    var s := SubscribeInfo(Mqtt, h);
    assert TopicOk(b, h) && OwnedOk(b, s);
    var x := SubscribeData(h, b.topics[h], b.given[b.owner[s]]);
    assert Subscribes(b.subscribers, x);
  }

  // Handling: the call of another subscription, or the next reply of a request.
  lemma HandleKeeps(s: State)
    requires Inv(s) && s.idle != []
    ensures WellNamed(s.books) && Inv(AfterHandling(s))
  {
    AgreeIsWellNamed(s.books);
    var k := SessionOf(s.sessions, s.idle[0].handle);
    if k == |s.sessions| {
      UserCallKeeps(s);
    } else {
      ReplyKeeps(s, k);
    }
  }

  lemma UserCallKeeps(s: State)
    requires Inv(s) && s.idle != [] && SessionOf(s.sessions, s.idle[0].handle) == |s.sessions|
    ensures Inv(s.(idle := s.idle[1..]))
  {
    var s' := s.(idle := s.idle[1..]);
    forall j: nat ensures SessionFlows(s', j) && SessionPlaced(s', j) && Numbers(s', j) {
      assert SessionFlows(s, j) && SessionPlaced(s, j) && Numbers(s, j);
    }
    forall x | x in s'.wire ensures OnWire(s', x) {
      assert OnWire(s, x);
    }
  }

  // The request after its callback has seen one more reply.
  function Seen(e: Session, r: Reply): Session {
    e.(seen := e.seen + [r])
  }

  // The reply handled is the next one, so it is final exactly when it completes the stream.
  lemma NextIsFinal(e: Session, k: nat, idle: seq<Pending>, wire: seq<Sent>)
    requires Flows(e, k, idle, wire) && idle != [] && idle[0].handle == e.handle
    ensures Open(e) && (idle[0].reply.end <==> !Open(Seen(e, idle[0].reply)))
    ensures Flows(Seen(e, idle[0].reply), k, idle[1..], wire)
  {
    var r, later := idle[0].reply, IdleOf(idle[1..], e.handle);
    assert IdleOf(idle, e.handle) == [r] + later;
    Regroup(e.seen, [r], later, WireOf(wire, k) + Numbered(e.sequence, e.correlation, e.unsent));
    assert All(e)[|e.seen|] == r;
    assert All(Seen(e, r)) == All(e);
    assert e.seen + [r] + later == e.seen + ([r] + later);
    assert |All(e)| == |e.seen| + |[r] + later| + |WireOf(wire, k)| + |e.unsent|;
    if r.end {
      assert e.seen + [r] == All(e);
    }
  }

  lemma ReplyFlows(s: State, k: nat)
    requires Inv(s) && s.idle != [] && k < |s.sessions| && s.sessions[k].handle == s.idle[0].handle
    ensures var sessions' := s.sessions[k := Seen(s.sessions[k], s.idle[0].reply)];
      && (forall j: nat :: j < |s.sessions| ==> Flows(sessions'[j], j, s.idle[1..], s.wire))
      && (forall i, j :: Apart(sessions', i, j))
  {
    var r := s.idle[0].reply;
    var sessions' := s.sessions[k := Seen(s.sessions[k], r)];
    assert SessionFlows(s, k);
    NextIsFinal(s.sessions[k], k, s.idle, s.wire);
    forall j: nat | j < |s.sessions| ensures Flows(sessions'[j], j, s.idle[1..], s.wire) {
      assert SessionFlows(s, j) && Apart(s.sessions, j, k);
    }
    forall i: nat, j: nat ensures Apart(sessions', i, j) {
      assert Apart(s.sessions, i, j);
    }
  }

  // The subscription goes exactly at the final reply, and only the one of this request.
  lemma ReplyPlaced(s: State, k: nat)
    requires Inv(s) && WellNamed(s.books) && s.idle != [] && k < |s.sessions| && s.sessions[k].handle == s.idle[0].handle
    ensures var e, r := s.sessions[k], s.idle[0].reply;
      var b := After(s.books, CallReply(e.info, r.end, true));
      && Agree(b) && b.replyId == s.books.replyId && b.nextHandle == s.books.nextHandle
      && e.handle in s.books.topics && (e.handle !in b.topics <==> r.end)
      && Placed(Seen(e, r), b)
      && (forall j: nat :: j < |s.sessions| && j != k ==> Placed(s.sessions[j], b))
  {
    var e, r := s.sessions[k], s.idle[0].reply;
    var call := CallReply(e.info, r.end, true);
    assert SessionFlows(s, k) && SessionPlaced(s, k);
    NextIsFinal(e, k, s.idle, s.wire);
    CallAgrees(s.books, call);
    OwnReplyPlaced(e, r, s.books);
    forall j: nat | j < |s.sessions| && j != k ensures Placed(s.sessions[j], After(s.books, call)) {
      assert Apart(s.sessions, j, k) && SessionPlaced(s, j);
      CallKeepsPlaced(s.books, call, s.sessions[j]);
    }
  }

  lemma ReplyKeeps(s: State, k: nat)
    requires Inv(s) && WellNamed(s.books) && s.idle != [] && k == SessionOf(s.sessions, s.idle[0].handle) && k < |s.sessions|
    ensures Inv(AfterHandling(s))
  {
    var s' := AfterHandling(s);
    ReplyFlows(s, k);
    ReplyPlaced(s, k);
    assert s'.sessions == s.sessions[k := Seen(s.sessions[k], s.idle[0].reply)];
    forall j: nat ensures SessionPlaced(s', j) && SessionFlows(s', j) && Numbers(s', j) {
      assert Numbers(s, j);
    }
    forall x | x in s'.wire ensures OnWire(s', x) {
      assert OnWire(s, x);
    }
    forall p | p in s'.idle ensures p.handle < s'.mark {
      assert p in s.idle;
    }
  }

  lemma OwnReplyPlaced(e: Session, r: Reply, b: Books)
    requires Agree(b) && WellNamed(b) && Placed(e, b) && Open(e) && (r.end <==> !Open(Seen(e, r)))
    ensures Placed(Seen(e, r), After(b, CallReply(e.info, r.end, true)))
  {
    if r.end {
      UnsubscribeAgrees(b, e.info, true);
    }
  }

  lemma RequestKeeps(s: State, topic: string, userData: int, a: Allocation, correlation: string, answers: seq<Answer>)
    requires Inv(s) && Enabled(s, MakeRequest(topic, userData, a, correlation, answers))
    ensures Inv(AfterRequest(s, topic, userData, a, correlation, answers))
  {
    var s' := AfterRequest(s, topic, userData, a, correlation, answers);
    var call := CallPublishWithReply(topic, userData, Mqtt, true, a);
    var n := |s.sessions|;
    AgreeIsWellNamed(s.books);
    CallAgrees(s.books, call);
    ReplyIdMoves(s.books, call, s.requests);
    NextHandleGrows(s.books, call);
    assert s'.books == After(s.books, call);
    forall k: nat ensures SessionPlaced(s', k) {
      assert SessionPlaced(s, k);
      if k < n {
        CallKeepsPlaced(s.books, call, s.sessions[k]);
      } else if k == n {
        NewIsOpen(s'.sessions[n]);
      }
    }
    forall k: nat ensures SessionFlows(s', k) && Numbers(s', k) {
      assert SessionFlows(s, k) && Numbers(s, k);
      if k == n {
        NothingUnderway(s, n);
        NewFlows(s'.sessions[n], n, s.idle, s.wire);
      }
    }
    forall j: nat, k: nat ensures Apart(s'.sessions, j, k) {
      assert Apart(s.sessions, j, k);
      if j < n && k == n {
        NewApart(s, s'.sessions[n], j);
      } else if k < n && j == n {
        NewApart(s, s'.sessions[n], k);
      }
    }
    forall m | m in s'.wire ensures OnWire(s', m) {
      assert OnWire(s, m);
    }
  }

  lemma NewIsOpen(e: Session)
    requires e.seen == [] && e.answers != []
    ensures Open(e)
  {
    assert |All(e)| == |e.answers|;
  }

  // Nothing is on its way for a request that has not been made.
  lemma NothingUnderway(s: State, n: nat)
    requires Inv(s) && n == |s.sessions|
    ensures WireOf(s.wire, n) == [] && IdleOf(s.idle, s.books.nextHandle) == []
  {
    forall m | m in s.wire ensures m.from != n {
      assert OnWire(s, m);
    }
    NoneFor(s.wire, n);
    NoneQueued(s.idle, s.books.nextHandle);
  }

  lemma {:induction false} NoneFor(wire: seq<Sent>, n: nat)
    requires forall m <- wire :: m.from != n
    ensures WireOf(wire, n) == []
  {
    if wire != [] {
      NoneFor(wire[1..], n);
    }
  }

  lemma {:induction false} NoneQueued(idle: seq<Pending>, h: Handle)
    requires forall p <- idle :: p.handle != h
    ensures IdleOf(idle, h) == []
  {
    if idle != [] {
      NoneQueued(idle[1..], h);
    }
  }

  lemma NewFlows(e: Session, n: nat, idle: seq<Pending>, wire: seq<Sent>)
    requires OnlyLastFinal(e.answers) && |e.answers| <= INT_MAX && e.unsent == e.answers && e.sequence == 0 && e.seen == []
    requires WireOf(wire, n) == [] && IdleOf(idle, e.handle) == []
    ensures Flows(e, n, idle, wire)
  {
    forall k | 0 <= k < |All(e)| ensures All(e)[k].end == e.answers[k].end {
      ReplyNumbers(e.correlation, e.answers, k);
    }
  }

  // Open requests are fewer than 65536 apart, so their topics differ.
  lemma NewApart(s: State, e: Session, j: nat)
    requires Inv(s) && j < |s.sessions| && e.handle == s.books.nextHandle && e.number == s.requests
    requires Open(s.sessions[j]) ==> s.requests - s.sessions[j].number < COUNTER_SIZE
    ensures s.sessions[j].handle != e.handle
    ensures Open(s.sessions[j]) ==> TopicOf(s.sessions[j]) != TopicOf(e)
  {
    var earlier := s.sessions[j];
    assert SessionPlaced(s, j) && Numbers(s, j);
    ReplyTopicsDiffer(earlier.topic, e.topic, 0, earlier.number, e.number);
    if Open(earlier) {
      NotCongruent(earlier.number, e.number);
    }
  }

  lemma NotCongruent(m: nat, n: nat)
    requires m < n < m + COUNTER_SIZE
    ensures m % COUNTER_SIZE != n % COUNTER_SIZE
  {
    var sum := m % COUNTER_SIZE + (n - m);
    var q := m / COUNTER_SIZE;
    if sum < COUNTER_SIZE {
      assert n == COUNTER_SIZE * q + sum;
    } else {
      assert n == COUNTER_SIZE * (q + 1) + (sum - COUNTER_SIZE);
    }
  }

  lemma StepKeeps(s: State, e: Event)
    requires Inv(s) && Enabled(s, e) && !(e.Deliver? && Doubles(s))
    ensures WellNamed(s.books) && Inv(Step(s, e))
  {
    AgreeIsWellNamed(s.books);
    match e
    case MakeRequest(topic, userData, a, correlation, answers) => RequestKeeps(s, topic, userData, a, correlation, answers);
    case Send(k) => SendKeeps(s, k);
    case Deliver => DeliverKeeps(s);
    case Arrive(m) => ArriveKeeps(s, m);
    case Handle => HandleKeeps(s);
    case Other(call) => OtherKeeps(s, call);
  }

  // ---------------------------------------------------------------- whole runs

  ghost function Moved(s: State, e: Event): Option<State> {
    if WellNamed(s.books) && Enabled(s, e) then Some(Step(s, e)) else None
  }

  ghost function Move(): (State, Event) -> Option<State> {
    (s: State, e: Event) => Moved(s, e)
  }

  ghost predicate Run(s: State, es: seq<Event>, t: State) {
    Chain(Move(), s, es, t)
  }

  // No request has been made yet, whatever else has been subscribed to.
  ghost predicate Started(s: State) {
    && s.sessions == [] && s.wire == [] && s.idle == []
    && Agree(s.books) && s.books.replyId == Advance(0, s.requests) && s.mark <= s.books.nextHandle
  }

  // No delivery in the run meets the flag with the request it answers in front.
  ghost predicate AllOnce(s: State, es: seq<Event>)
    decreases |es|
  {
    es != [] ==>
      var next := Moved(s, es[0]);
      next.Some? && !(es[0].Deliver? && Doubles(s)) && AllOnce(next.value, es[1..])
  }

  // At every point of the run, what has been seen and is coming is the whole stream of every request.
  ghost predicate AllFlow(s: State, es: seq<Event>)
    decreases |es|
  {
    && (forall k :: SessionFlows(s, k))
    && (es != [] ==> var next := Moved(s, es[0]); next.Some? && AllFlow(next.value, es[1..]))
  }

  lemma {:induction false} RunFlowsIff(s: State, es: seq<Event>, t: State)
    requires Inv(s) && Run(s, es, t)
    ensures AllFlow(s, es) <==> AllOnce(s, es)
    ensures AllOnce(s, es) ==> Inv(t)
    decreases |es|
  {
    if es != [] {
      if es[0].Deliver? && Doubles(s) {
        DeliverKeepsIff(s);
      } else {
        StepKeeps(s, es[0]);
        RunFlowsIff(Step(s, es[0]), es[1..], t);
      }
    }
  }

  // Nothing is lost, doubled or misrouted at any point of a run if and only if no delivery meets the
  // flag with its request in front.
  lemma RoutedIff(s: State, es: seq<Event>, t: State)
    requires Started(s) && Run(s, es, t)
    ensures AllFlow(s, es) <==> AllOnce(s, es)
  {
    RunFlowsIff(s, es, t);
  }

  // ---------------------------------------------------------------- whose sessions these are

  function RequestsOf(es: seq<Event>): seq<Event> {
    if es == [] then [] else (if es[0].MakeRequest? then [es[0]] else []) + RequestsOf(es[1..])
  }

  // The session of a request, as far as it does not change.
  ghost predicate Belongs(e: Session, request: Event) {
    && request.MakeRequest? && e.topic == request.topic && e.info == request.a.info
    && e.correlation == request.correlation && e.answers == request.answers
  }

  lemma StepKeepsWho(s: State, e: Event)
    requires WellNamed(s.books) && Enabled(s, e)
    ensures var t := Step(s, e);
      && |t.sessions| == |s.sessions| + (if e.MakeRequest? then 1 else 0)
      && (e.MakeRequest? ==> Belongs(t.sessions[|s.sessions|], e))
      && forall k, request :: 0 <= k < |s.sessions| && Belongs(s.sessions[k], request) ==> Belongs(t.sessions[k], request)
  {
  }

  // The sessions of a run are its requests, in order, with the topics, addresses, correlations and
  // answers of these.
  lemma {:induction false} SessionsAreRequests(s: State, es: seq<Event>, t: State)
    requires Run(s, es, t)
    ensures |t.sessions| == |s.sessions| + |RequestsOf(es)|
    ensures forall k :: 0 <= k < |RequestsOf(es)| ==> Belongs(t.sessions[|s.sessions| + k], RequestsOf(es)[k])
    ensures forall k, request :: 0 <= k < |s.sessions| && Belongs(s.sessions[k], request) ==> Belongs(t.sessions[k], request)
    decreases |es|
  {
    if es != [] {
      var next := Moved(s, es[0]).value;
      StepKeepsWho(s, es[0]);
      SessionsAreRequests(next, es[1..], t);
      forall k | 0 <= k < |RequestsOf(es)| ensures Belongs(t.sessions[|s.sessions| + k], RequestsOf(es)[k]) {
        if es[0].MakeRequest? && k == 0 {
          assert Belongs(next.sessions[|s.sessions|], es[0]);
        }
      }
    }
  }

  // ---------------------------------------------------------------- callers that keep the flag clear

  // No MQTT subscription made since the last message is withdrawn before the next one.
  ghost predicate CalmCall(b: Books, mark: Handle, call: Call) {
    forall i <- b.list :: Removes(call, i) && i in b.infos && b.infos[i].protocol == Mqtt ==> b.infos[i].handle < mark
  }

  ghost predicate Calm(s: State, es: seq<Event>)
    decreases |es|
  {
    es != [] ==>
      var next := Moved(s, es[0]);
      && (es[0].Other? ==> CalmCall(s.books, s.mark, es[0].call))
      && next.Some? && Calm(next.value, es[1..])
  }

  // The flag is clear, and the index at none of the subscriptions listed at the last message.
  ghost predicate Settled(b: Books, mark: Handle) {
    mark <= b.nextHandle && ClearOf(b.subscribers, b.vector, mark)
  }

  ghost predicate ClearOf(list: seq<SubscribeData>, v: Vector, mark: Handle) {
    !v.updated && (v.position >= 0 ==> forall j :: v.position <= j < |list| ==> list[j].handle >= mark)
  }

  lemma ErasedClear(list: seq<SubscribeData>, v: Vector, mark: Handle, k: nat)
    requires Distinct(list) && ClearOf(list, v, mark) && k < |list| && list[k].handle < mark
    ensures ClearOf(Without(list, list[k].handle), Erased(v, k), mark)
  {
    WithoutIsErase(list, k);
  }

  lemma ReleasedSettled(b: Books, s: SubscribeInfo, ok: bool, mark: Handle)
    requires Distinct(b.subscribers) && Settled(b, mark) && (s.protocol == Mqtt ==> s.handle < mark)
    ensures var b' := Released(b, s, ok).0; Distinct(b'.subscribers) && Settled(b', mark)
  {
    var k := Find(b.subscribers, s.handle);
    if s.protocol == Mqtt && k < |b.subscribers| {
      ErasedClear(b.subscribers, b.vector, mark, k);
      WithoutKeeps(b.subscribers, s.handle);
    }
  }

  lemma {:induction false} AllReleasedSettled(b: Books, pending: seq<InfoPtr>, answers: seq<bool>, mark: Handle)
    requires NoDup(pending) && |answers| == |pending| && forall i <- pending :: i in b.infos
    requires Distinct(b.subscribers) && Settled(b, mark)
    requires forall i <- pending :: b.infos[i].protocol == Mqtt ==> b.infos[i].handle < mark
    ensures Settled(AfterUnsubscribeAll(b, pending, answers).0, mark)
    decreases |pending|
  {
    if pending != [] {
      var (released, r) := Released(b, b.infos[pending[0]], answers[0]);
      ReleasedSettled(b, b.infos[pending[0]], answers[0], mark);
      if r.Ok? {
        TailWellNamed(b.(list := pending), pending);
        AllReleasedSettled(Deleted(released, pending[0]), pending[1..], answers[1..], mark);
      }
    }
  }

  lemma CallSettled(b: Books, call: Call, mark: Handle)
    requires Agree(b) && Possible(b, call) && Settled(b, mark) && CalmCall(b, mark, call)
    ensures WellNamed(b) && Settled(After(b, call), mark)
  {
    AgreeIsWellNamed(b);
    match call
    case CallUnsubscribe(id, ok) =>
      if id in b.list {
        ReleasedSettled(b, b.infos[id], ok, mark);
      }
    case CallReply(id, end, ok) =>
      if end && id in b.list {
        ReleasedSettled(b, b.infos[id], ok, mark);
      }
    case CallUnsubscribeAll(answers) => AllReleasedSettled(b, b.list, answers, mark);
    case _ =>
  }

  // Handling removes at most the subscription of a request whose reply has arrived.
  lemma HandleSettled(s: State)
    requires Inv(s) && s.idle != [] && Settled(s.books, s.mark)
    ensures WellNamed(s.books) && Settled(AfterHandling(s).books, s.mark)
  {
    AgreeIsWellNamed(s.books);
    var p := s.idle[0];
    var k := SessionOf(s.sessions, p.handle);
    if k < |s.sessions| {
      var e := s.sessions[k];
      assert SessionFlows(s, k) && SessionPlaced(s, k);
      NextIsFinal(e, k, s.idle, s.wire);
      CallSettled(s.books, CallReply(e.info, p.reply.end, true), s.mark);
    }
  }

  lemma StepSettled(s: State, e: Event)
    requires Inv(s) && Enabled(s, e) && Settled(s.books, s.mark)
    requires e.Other? ==> CalmCall(s.books, s.mark, e.call)
    ensures WellNamed(s.books) && Settled(Step(s, e).books, Step(s, e).mark)
  {
    AgreeIsWellNamed(s.books);
    match e
    case MakeRequest(topic, userData, a, _, _) =>
      CallSettled(s.books, CallPublishWithReply(topic, userData, Mqtt, true, a), s.mark);
    case Handle => HandleSettled(s);
    case Other(call) => CallSettled(s.books, call, s.mark);
    case _ =>
  }

  // Then no delivery meets the flag.
  lemma {:induction false} CalmIsOnce(s: State, es: seq<Event>)
    requires Inv(s) && Settled(s.books, s.mark) && Calm(s, es)
    ensures AllOnce(s, es)
    decreases |es|
  {
    if es != [] {
      StepKeeps(s, es[0]);
      StepSettled(s, es[0]);
      CalmIsOnce(Step(s, es[0]), es[1..]);
    }
  }

  // Each request's callback has seen the first of its own replies, numbered and in order, and all of
  // them once nothing is on its way; its subscription exists exactly until the final one is handled.
  ghost predicate SeesItsReplies(t: State, k: nat)
    requires k < |t.sessions|
  {
    var e := t.sessions[k];
    && e.seen <= Numbered(0, e.correlation, e.answers)
    && (e.handle in HandlesOf(t.books.subscribers) <==> e.seen != Numbered(0, e.correlation, e.answers))
    && (e.unsent == [] && t.wire == [] && t.idle == [] ==> e.seen == Numbered(0, e.correlation, e.answers))
  }

  // In every interleaving of requests, replies, other messages and other calls in which no delivery
  // meets the flag with its request in front.
  lemma OnceRouted(s: State, es: seq<Event>, t: State, k: nat)
    requires Started(s) && Run(s, es, t) && AllOnce(s, es) && k < |t.sessions|
    ensures SeesItsReplies(t, k)
  {
    RunFlowsIff(s, es, t);
    InvSees(t, k);
  }

  lemma InvSees(t: State, k: nat)
    requires Inv(t) && k < |t.sessions|
    ensures SeesItsReplies(t, k)
  {
    var e := t.sessions[k];
    assert SessionFlows(t, k) && SessionPlaced(t, k);
    SubscribedHandle(t.books, e.handle);
    assert e.seen <= All(e);
  }

  // In particular when the caller withdraws no MQTT subscription made since the last message.
  lemma RepliesRouted(s: State, es: seq<Event>, t: State, k: nat)
    requires Started(s) && Settled(s.books, s.mark) && Run(s, es, t) && Calm(s, es) && k < |t.sessions|
    ensures SeesItsReplies(t, k)
  {
    CalmIsOnce(s, es);
    OnceRouted(s, es, t, k);
  }
}
