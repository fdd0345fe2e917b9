/**
 * Runs in which a reply reaches its callback twice: a subscription is made and withdrawn while the
 * client's index stands at the end of its list, which sets the flag, and the request that the next
 * message answers is first in that list.
 */
module DoubledReplies {
  import opened Handles
  import opened Results
  import opened Runs
  import opened Sequences
  import opened Decimals
  import opened ReplyTopics
  import opened MessageDispatch
  import opened AittSubscriptions
  import opened Replies
  import opened ReplyStream

  // A subscription that is made and withdrawn again.
  function Withdrawn(a: Allocation): seq<Event> {
    [Other(CallSubscribe("t", 0, Mqtt, true, a)), Other(CallUnsubscribe(a.info, true))]
  }

  // That, a message for nobody, that again, the next reply and the calls it queues.
  function DoublingRun(a: Allocation, m: Message): seq<Event> {
    Withdrawn(a) + ([Arrive(m)] + (Withdrawn(a) + [Deliver, Handle, Handle]))
  }

  lemma RunAppends(s: State, es: seq<Event>, t: State, fs: seq<Event>, u: State)
    requires Run(s, es, t) && Run(t, fs, u)
    ensures Run(s, es + fs, u)
  {
    ChainAppends(Move(), s, es, t, fs, u);
  }

  lemma OneStep(s: State, e: Event)
    requires WellNamed(s.books) && Enabled(s, e)
    ensures Run(s, [e], Step(s, e))
  {
    assert [e][1..] == [];
    assert Run(Step(s, e), [], Step(s, e));
  }

  // The tables after it: only index and flag of the client can tell.
  lemma WithdrawnBooks(b: Books, a: Allocation)
    requires Agree(b) && Allocates(b, Mqtt, a)
    ensures WellNamed(b)
    ensures var b1 := After(b, CallSubscribe("t", 0, Mqtt, true, a));
      && Agree(b1) && WellNamed(b1)
      && var b2, n := After(b1, CallUnsubscribe(a.info, true)), |b.subscribers|;
         && b2.subscribers == b.subscribers && b2.vector == Erased(Pushed(b.vector, n, a.room), n)
         && Allocates(b2, Mqtt, a)
  {
    AgreeIsWellNamed(b);
    CallAgrees(b, CallSubscribe("t", 0, Mqtt, true, a));
    var b1, x := After(b, CallSubscribe("t", 0, Mqtt, true, a)), SubscribeData(b.nextHandle, "t", 0);
    AgreeIsWellNamed(b1);
    DispatchesWell(b);
    FindLast(b.subscribers, x);
    UnsubscribeAgrees(b1, a.info, true);
    WithoutIsErase(b1.subscribers, |b.subscribers|);
    assert b1.subscribers[..|b.subscribers|] == b.subscribers;
  }

  lemma WithdrawnRuns(s: State, a: Allocation) returns (t: State)
    requires Inv(s) && Allocates(s.books, Mqtt, a)
    ensures Run(s, Withdrawn(a), t) && Inv(t) && t == s.(books := t.books)
    ensures t.books.subscribers == s.books.subscribers && Allocates(t.books, Mqtt, a)
    ensures t.books.vector == Erased(Pushed(s.books.vector, |s.books.subscribers|, a.room), |s.books.subscribers|)
  {
    var first, second := Withdrawn(a)[0], Withdrawn(a)[1];
    WithdrawnBooks(s.books, a);
    forall k | 0 <= k < |s.sessions| && Open(s.sessions[k]) ensures s.sessions[k].info != a.info {
      assert SessionPlaced(s, k);
    }
    assert Enabled(s, first);
    StepKeeps(s, first);
    var mid := Step(s, first);
    assert Enabled(mid, second);
    StepKeeps(mid, second);
    t := Step(mid, second);
    OneStep(s, first);
    OneStep(mid, second);
    RunAppends(s, [first], mid, [second], t);
    assert [first] + [second] == Withdrawn(a);
  }

  lemma {:induction false} ChosenNone(s: seq<SubscribeData>, fits: SubscribeData -> bool)
    requires forall x <- s :: !fits(x)
    ensures Chosen(s, fits) == []
  {
    if s != [] {
      ChosenNone(s[1..], fits);
    }
  }

  // A message that reaches nobody moves the index to the end of the list.
  lemma UnheardArrives(s: State, m: Message)
    requires Inv(s) && s.books.subscribers != []
    requires Read(m).Some? && forall x <- s.books.subscribers :: !s.matches(x.topic, m.topic)
    ensures Enabled(s, Arrive(m)) && Inv(AfterMessage(s, m))
    ensures var t := AfterMessage(s, m); t == s.(books := Dispatched(s.books), mark := t.mark)
  {
    forall k | 0 <= k < |s.sessions| && Open(s.sessions[k]) ensures m.topic != TopicOf(s.sessions[k]) {
      assert SessionPlaced(s, k) && Numbers(s, k);
      SubscriberOf(s.books, s.sessions[k].handle);
    }
    ArriveKeeps(s, m);
    var fits := Fits(s.matches, m.topic);
    InvokedTurns(s.books, fits);
    ChosenNone(s.books.subscribers, fits);
    assert s.idle + [] == s.idle;
  }

  // With the flag set, the next reply is queued twice for the request in front.
  lemma DeliveredTwice(s: State, k: nat)
    requires Inv(s) && Doubles(s) && s.wire[0].from == k && s.idle == []
    ensures var r, h := Read(s.wire[0].message), s.sessions[k].handle;
      && r.Some? && |AfterDelivery(s).idle| >= 2
      && AfterDelivery(s).idle[..2] == [Pending(h, r.value), Pending(h, r.value)]
  {
    var m, b, e := s.wire[0].message, s.books, s.sessions[k];
    assert OnWire(s, s.wire[0]) && SessionFlows(s, k) && SessionPlaced(s, k) && Numbers(s, k);
    StillOpen(e, k, s.idle, s.wire);
    var fits, first, r := Fits(s.matches, m.topic), b.subscribers[0], Read(m).value;
    assert Subscribes(b.subscribers, first) && SubscriberOk(b, first);
    assert fits(first);
    InvokedTurns(b, fits);
    var rest := Chosen(b.subscribers[1..], fits);
    assert Invoked(b, fits) == [first] + ([first] + rest);
    assert ([first] + rest)[1..] == rest && ([first] + ([first] + rest))[1..] == [first] + rest;
    assert AfterDelivery(s).idle == Calls(Invoked(b, fits), r);
  }

  lemma HandledNext(s: State, k: nat)
    requires Agree(s.books) && s.idle != [] && k < |s.sessions| && SessionOf(s.sessions, s.idle[0].handle) == k
    ensures WellNamed(s.books) && Run(s, [Handle], Step(s, Handle))
    ensures var t := Step(s, Handle);
      Agree(t.books) && t.idle == s.idle[1..] && t.sessions == s.sessions[k := Seen(s.sessions[k], s.idle[0].reply)]
  {
    AgreeIsWellNamed(s.books);
    CallAgrees(s.books, CallReply(s.sessions[k].info, s.idle[0].reply.end, true));
    OneStep(s, Handle);
  }

  lemma SameOwner(a: seq<Session>, b: seq<Session>, h: Handle)
    requires |a| == |b| && forall j :: 0 <= j < |a| ==> a[j].handle == b[j].handle
    ensures SessionOf(a, h) == SessionOf(b, h)
  {
    if a != [] {
      SameOwner(a[1..], b[1..], h);
    }
  }

  lemma HandledTwice(s: State, k: nat, h: Handle, r: Reply) returns (t: State)
    requires Agree(s.books) && |s.idle| >= 2 && s.idle[..2] == [Pending(h, r), Pending(h, r)]
    requires k < |s.sessions| && SessionOf(s.sessions, h) == k
    ensures Run(s, [Handle, Handle], t)
    ensures |t.sessions| == |s.sessions| && t.sessions[k] == Seen(Seen(s.sessions[k], r), r)
  {
    assert s.idle[0] == Pending(h, r) && s.idle[1] == Pending(h, r);
    HandledNext(s, k);
    var mid := Step(s, Handle);
    SameOwner(s.sessions, mid.sessions, h);
    HandledNext(mid, k);
    t := Step(mid, Handle);
    RunAppends(s, [Handle], mid, [Handle], t);
    assert [Handle] + [Handle] == [Handle, Handle];
  }

  lemma SeenTwice(s: State, k: nat) returns (t: State)
    requires Inv(s) && Doubles(s) && s.wire[0].from == k && s.idle == []
    ensures Run(s, [Deliver, Handle, Handle], t) && |t.sessions| == |s.sessions|
    ensures var r := Read(s.wire[0].message); r.Some? && t.sessions[k] == Seen(Seen(s.sessions[k], r.value), r.value)
  {
    DeliveredTwice(s, k);
    AgreeIsWellNamed(s.books);
    OneStep(s, Deliver);
    MessageLeaves(s, s.wire[0].message);
    forall j | 0 <= j < |s.sessions| && j != k ensures s.sessions[j].handle != s.sessions[k].handle {
      assert Apart(s.sessions, j, k);
    }
    t := HandledTwice(Step(s, Deliver), k, s.sessions[k].handle, Read(s.wire[0].message).value);
    RunAppends(s, [Deliver], Step(s, Deliver), [Handle, Handle], t);
    assert [Deliver] + [Handle, Handle] == [Deliver, Handle, Handle];
  }

  // From every state that keeps the invariant: if the request that the next message answers was
  // subscribed first, there is a run after which its callback has seen that reply twice.
  lemma DoubledReply(s: State, a: Allocation, m: Message, k: nat) returns (t: State)
    requires Inv(s) && s.wire != [] && s.wire[0].from == k < |s.sessions| && s.idle == []
    requires s.books.subscribers != [] && s.books.subscribers[0].handle == s.sessions[k].handle
    requires Allocates(s.books, Mqtt, a)
    requires Read(m).Some? && forall x <- s.books.subscribers :: !s.matches(x.topic, m.topic)
    ensures Run(s, DoublingRun(a, m), t) && |t.sessions| == |s.sessions|
    ensures var r := Read(s.wire[0].message); r.Some? && t.sessions[k] == Seen(Seen(s.sessions[k], r.value), r.value)
  {
    var s1 := WithdrawnRuns(s, a);
    UnheardArrives(s1, m);
    AgreeIsWellNamed(s1.books);
    OneStep(s1, Arrive(m));
    var s2 := Step(s1, Arrive(m));
    var s3 := WithdrawnRuns(s2, a);
    t := SeenTwice(s3, k);
    RunAppends(s2, Withdrawn(a), s3, [Deliver, Handle, Handle], t);
    RunAppends(s1, [Arrive(m)], s2, Withdrawn(a) + [Deliver, Handle, Handle], t);
    RunAppends(s, Withdrawn(a), s1, [Arrive(m)] + (Withdrawn(a) + [Deliver, Handle, Handle]), t);
  }

  // A first request, one reply seen, and the next one sent.
  function FirstReplyRun(topic: string, userData: int, a: Allocation, correlation: string, answers: seq<Answer>): seq<Event> {
    [MakeRequest(topic, userData, a, correlation, answers)] + (([Send(0)] + [Deliver, Handle]) + [Send(0)])
  }

  // The next reply of a request that is the only subscriber passes through.
  lemma PassesThrough(s: State) returns (t: State)
    requires Inv(s) && s.idle == [] && s.wire == [] && |s.sessions| == 1 && !s.books.vector.updated
    requires var e := s.sessions[0]; |s.books.subscribers| == 1 && s.books.subscribers[0].handle == e.handle && |e.unsent| >= 2
    ensures Run(s, [Send(0)] + [Deliver, Handle], t) && Inv(t)
    ensures var e := s.sessions[0];
      t == s.(sessions := [Seen(Answered(e), NextReply(e))], books := Dispatched(s.books), mark := s.books.nextHandle)
  {
    var e := s.sessions[0];
    var s1 := Sends(s);
    OnlyCall(s1, NextReply(e));
    t := Receives(s1);
    RunAppends(s, [Send(0)], s1, [Deliver, Handle], t);
  }

  lemma Sends(s: State) returns (t: State)
    requires Inv(s) && s.wire == [] && |s.sessions| == 1 && s.sessions[0].unsent != []
    ensures Run(s, [Send(0)], t) && Inv(t)
    ensures var e := s.sessions[0];
      && t == s.(sessions := [Answered(e)], wire := [Sent(Written(TopicOf(e), NextReply(e)), 0)])
      && Read(t.wire[0].message) == Some(NextReply(e))
  {
    AgreeIsWellNamed(s.books);
    StepKeeps(s, Send(0));
    OneStep(s, Send(0));
    WireReads(s, 0);
    t := Step(s, Send(0));
  }

  lemma Receives(s: State) returns (t: State)
    requires Inv(s) && s.wire != [] && s.idle == [] && |s.sessions| == 1 && !Doubles(s) && s.sessions[0].unsent != []
    requires |AfterDelivery(s).idle| == 1 && AfterDelivery(s).idle[0].handle == s.sessions[0].handle
    ensures Run(s, [Deliver, Handle], t) && Inv(t)
    ensures var s1, e := AfterDelivery(s), s.sessions[0]; t == s1.(idle := [], sessions := [Seen(e, s1.idle[0].reply)])
  {
    AgreeIsWellNamed(s.books);
    StepKeeps(s, Deliver);
    OneStep(s, Deliver);
    var s1 := Step(s, Deliver);
    NotFinal(s1, 0);
    AgreeIsWellNamed(s1.books);
    StepKeeps(s1, Handle);
    OneStep(s1, Handle);
    t := Step(s1, Handle);
    RunAppends(s, [Deliver], s1, [Handle], t);
    assert [Deliver] + [Handle] == [Deliver, Handle];
  }

  lemma WireReads(s: State, k: nat)
    requires Inv(s) && k < |s.sessions| && s.sessions[k].unsent != []
    ensures Read(Written(TopicOf(s.sessions[k]), NextReply(s.sessions[k]))) == Some(NextReply(s.sessions[k]))
  {
    assert SessionFlows(s, k);
    WrittenReadBack(TopicOf(s.sessions[k]), NextReply(s.sessions[k]));
  }

  // With one subscriber and the flag clear, a reply to it is the only call queued.
  lemma OnlyCall(s: State, r: Reply)
    requires Inv(s) && s.idle == [] && |s.wire| == 1 && s.wire[0].from == 0 && |s.sessions| == 1 && !s.books.vector.updated
    requires |s.books.subscribers| == 1 && s.books.subscribers[0].handle == s.sessions[0].handle
    requires Read(s.wire[0].message) == Some(r)
    ensures AfterDelivery(s) == s.(wire := [], idle := [Pending(s.sessions[0].handle, r)],
                                   books := Dispatched(s.books), mark := s.books.nextHandle)
  {
    var b, e, topic := s.books, s.sessions[0], s.wire[0].message.topic;
    var x, fits := b.subscribers[0], Fits(s.matches, topic);
    assert OnWire(s, s.wire[0]) && SessionFlows(s, 0) && SessionPlaced(s, 0) && Numbers(s, 0);
    StillOpen(e, 0, s.idle, s.wire);
    assert Subscribes(b.subscribers, x) && SubscriberOk(b, x);
    assert fits(x);
    InvokedTurns(b, fits);
    assert b.subscribers == [x] && Chosen([x][1..], fits) == [];
    assert Invoked(b, fits) == [x] && Calls([x][1..], r) == [];
  }

  // A reply that others follow is not final.
  lemma NotFinal(s: State, k: nat)
    requires Inv(s) && k < |s.sessions| && s.idle != [] && s.idle[0].handle == s.sessions[k].handle && s.sessions[k].unsent != []
    ensures !s.idle[0].reply.end
  {
    var e := s.sessions[k];
    assert SessionFlows(s, k);
    NextIsFinal(e, k, s.idle, s.wire);
    assert |All(e)| >= |e.seen| + |IdleOf(s.idle, e.handle)| + |e.unsent|;
    assert All(Seen(e, s.idle[0].reply)) == All(e);
  }

  // One reply has been seen, the second one is on its way.
  lemma SecondReplySent(s: State) returns (t: State)
    requires Inv(s) && s.idle == [] && s.wire == [] && |s.sessions| == 1 && !s.books.vector.updated
    requires var e := s.sessions[0]; |s.books.subscribers| == 1 && s.books.subscribers[0].handle == e.handle && |e.unsent| >= 2
    ensures Run(s, ([Send(0)] + [Deliver, Handle]) + [Send(0)], t) && Inv(t)
    ensures t.books == Dispatched(s.books) && t.matches == s.matches && t.idle == []
    ensures var e := s.sessions[0];
      && t.sessions == [Answered(Seen(Answered(e), NextReply(e)))]
      && |t.wire| == 1 && t.wire[0].from == 0 && Read(t.wire[0].message) == Some(NextReply(Answered(e)))
  {
    var mid := PassesThrough(s);
    t := Sends(mid);
    RunAppends(s, [Send(0)] + [Deliver, Handle], mid, [Send(0)], t);
  }

  lemma FirstRequest(s: State, topic: string, userData: int, a: Allocation, correlation: string, answers: seq<Answer>)
    returns (t: State)
    requires Started(s) && s.books.subscribers == [] && !s.books.vector.updated
    requires Enabled(s, MakeRequest(topic, userData, a, correlation, answers))
    ensures Run(s, [MakeRequest(topic, userData, a, correlation, answers)], t) && Inv(t)
    ensures t.wire == [] && t.idle == [] && !t.books.vector.updated && t.matches == s.matches
    ensures t.books.infos.Keys == s.books.infos.Keys + {a.info} && t.books.transports == s.books.transports
    ensures t.books.subscribers == [SubscribeData(s.books.nextHandle, ReplyTopic(topic, s.books.replyId), userData)]
    ensures t.sessions == [Session(s.requests, topic, a.info, s.books.nextHandle, correlation, answers, answers, 0, [])]
  {
    AgreeIsWellNamed(s.books);
    StepKeeps(s, MakeRequest(topic, userData, a, correlation, answers));
    OneStep(s, MakeRequest(topic, userData, a, correlation, answers));
    t := Step(s, MakeRequest(topic, userData, a, correlation, answers));
  }

  // The same from the start: the first request of a client with no other subscription sees its
  // second reply twice.
  lemma DoubledRun(s: State, topic: string, userData: int, a0: Allocation, correlation: string, answers: seq<Answer>,
                   a: Allocation, m: Message) returns (t: State)
    requires Started(s) && s.books.subscribers == [] && !s.books.vector.updated
    requires Enabled(s, MakeRequest(topic, userData, a0, correlation, answers)) && |answers| >= 2
    requires Allocates(s.books, Mqtt, a) && a.info != a0.info
    requires Read(m).Some? && m.topic != ReplyTopic(topic, s.books.replyId)
    ensures Run(s, FirstReplyRun(topic, userData, a0, correlation, answers) + DoublingRun(a, m), t)
    ensures |t.sessions| == 1
    ensures var all := Numbered(0, correlation, answers); t.sessions[0].seen == [all[0], all[1], all[1]]
    ensures !SeesItsReplies(t, 0)
  {
    var s1 := FirstRequest(s, topic, userData, a0, correlation, answers);
    var s2 := SecondReplySent(s1);
    RunAppends(s, [MakeRequest(topic, userData, a0, correlation, answers)], s1, ([Send(0)] + [Deliver, Handle]) + [Send(0)], s2);
    t := DoubledReply(s2, a, m, 0);
    RunAppends(s, FirstReplyRun(topic, userData, a0, correlation, answers), s2, DoublingRun(a, m), t);
    SeenTooOften(t, s1.sessions[0]);
  }

  lemma SeenTooOften(t: State, e: Session)
    requires OnlyLastFinal(e.answers) && |e.answers| >= 2 && e.unsent == e.answers && e.sequence == 0 && e.seen == []
    requires |t.sessions| == 1 && t.sessions[0].correlation == e.correlation && t.sessions[0].answers == e.answers
    requires t.sessions[0].seen == e.seen + [NextReply(e)] + [NextReply(Answered(e))] + [NextReply(Answered(e))]
    ensures var all := Numbered(0, e.correlation, e.answers); |all| >= 2 && t.sessions[0].seen == [all[0], all[1], all[1]]
    ensures !SeesItsReplies(t, 0)
  {
    var all := Numbered(0, e.correlation, e.answers);
    IntendedNumbers(e.correlation, e.answers);
    assert all[1] == Numbered(NextSequence(0, e.answers[0].end), e.correlation, e.answers[1..])[0];
  }
}
