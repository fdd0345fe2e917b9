/**
 * Replies to a request over MQTT: numbering (src/AITTImpl.cc SendReply, common/AittMsg.cc), the
 * user properties that carry number and end flag (src/MosquittoMQ.cc), and the whole way from the
 * responder to the requester's callback.
 */
module Replies {
  import opened Results
  import opened Decimals

  const REPLY_SEQUENCE_NUM_KEY := "sequenceNum"
  const REPLY_IS_END_SEQUENCE_KEY := "isEndSequence"

  datatype Property = Property(name: string, value: string)

  // A message as published with MQTT 5 properties.
  datatype Message = Message(topic: string, data: string, correlation: string, properties: seq<Property>)

  // One reply as the requester's callback gets it.
  datatype Reply = Reply(data: string, correlation: string, sequence: nat, end: bool)

  // ---------------------------------------------------------------- numbering

  // What the responder passes to one SendReply.
  datatype Answer = Answer(data: string, end: bool)

  // A lone final reply keeps number 0; any other counts.
  function NextSequence(sequence: nat, end: bool): nat {
    if !end || sequence != 0 then sequence + 1 else sequence
  }

  function Numbered(sequence: nat, correlation: string, answers: seq<Answer>): (rs: seq<Reply>)
    ensures |rs| == |answers|
    decreases |answers|
  {
    if answers == [] then []
    else
      var next := NextSequence(sequence, answers[0].end);
      [Reply(answers[0].data, correlation, next, answers[0].end)] + Numbered(next, correlation, answers[1..])
  }

  // How many of the first replies are final: they all carry number 0.
  function LeadingFinals(answers: seq<Answer>): (n: nat)
    ensures n <= |answers|
    ensures forall k :: 0 <= k < n ==> answers[k].end
    ensures n < |answers| ==> !answers[n].end
  {
    if answers == [] || !answers[0].end then 0 else 1 + LeadingFinals(answers[1..])
  }

  // Any stream of replies: those before the first non-final one carry 0, from there on they are
  // numbered 1, 2, 3, ... whatever their end flags.
  lemma {:induction false} ReplyNumbers(correlation: string, answers: seq<Answer>, k: nat)
    requires k < |answers|
    ensures Numbered(0, correlation, answers)[k]
         == Reply(answers[k].data, correlation, if k < LeadingFinals(answers) then 0 else k - LeadingFinals(answers) + 1, answers[k].end)
    decreases |answers|
  {
    if answers[0].end {
      if k > 0 {
        ReplyNumbers(correlation, answers[1..], k - 1);
      }
    } else {
      if k > 0 {
        Counting(1, correlation, answers[1..], k - 1);
      }
    }
  }

  lemma {:induction false} Counting(sequence: nat, correlation: string, answers: seq<Answer>, k: nat)
    requires sequence > 0 && k < |answers|
    ensures Numbered(sequence, correlation, answers)[k] == Reply(answers[k].data, correlation, sequence + k + 1, answers[k].end)
    decreases |answers|
  {
    if k > 0 {
      Counting(sequence + 1, correlation, answers[1..], k - 1);
    }
  }

  // The intended use: every reply but the last says that more will come.
  predicate OnlyLastFinal(answers: seq<Answer>) {
    answers != [] && forall k :: 0 <= k < |answers| ==> (answers[k].end <==> k == |answers| - 1)
  }

  // A single reply carries 0, several carry 1..k.
  lemma IntendedNumbers(correlation: string, answers: seq<Answer>)
    requires OnlyLastFinal(answers)
    ensures |answers| == 1 ==> Numbered(0, correlation, answers) == [Reply(answers[0].data, correlation, 0, true)]
    ensures |answers| >= 2 ==> forall k :: 0 <= k < |answers| ==>
      Numbered(0, correlation, answers)[k] == Reply(answers[k].data, correlation, k + 1, k == |answers| - 1)
  {
    forall k | 0 <= k < |answers| && |answers| >= 2
      ensures Numbered(0, correlation, answers)[k] == Reply(answers[k].data, correlation, k + 1, k == |answers| - 1)
    {
      assert !answers[0].end;
      ReplyNumbers(correlation, answers, k);
    }
  }

  // ---------------------------------------------------------------- the text properties

  function Flag(end: bool): nat {
    if end then 1 else 0
  }

  function Properties(sequence: nat, end: bool): seq<Property> {
    [Property(REPLY_SEQUENCE_NUM_KEY, ToString(sequence)), Property(REPLY_IS_END_SEQUENCE_KEY, ToString(Flag(end)))]
  }

  // What the properties say, starting from the defaults; a value that is not a number throws.
  function ReadProperties(ps: seq<Property>, sequence: nat, end: bool): Option<(nat, bool)>
    decreases |ps|
  {
    if ps == [] then Some((sequence, end))
    else
      var p := ps[0];
      var value := Stoi(p.value);
      if p.name == REPLY_SEQUENCE_NUM_KEY then
        if value.None? then None else ReadProperties(ps[1..], value.value, end)
      else if p.name == REPLY_IS_END_SEQUENCE_KEY then
        if value.None? then None else ReadProperties(ps[1..], sequence, value.value == 1)
      else ReadProperties(ps[1..], sequence, end)
  }

  // Number and end flag survive the text encoding, whatever the reader starts from, exactly as
  // long as the number is an int.
  lemma PropertiesReadBack(sequence: nat, end: bool, sequence0: nat, end0: bool)
    ensures ReadProperties(Properties(sequence, end), sequence0, end0) == if sequence <= INT_MAX then Some((sequence, end)) else None
  {
    StoiToString(sequence);
    StoiToString(Flag(end));
    var ps := Properties(sequence, end);
    assert REPLY_SEQUENCE_NUM_KEY != REPLY_IS_END_SEQUENCE_KEY by {
      assert REPLY_SEQUENCE_NUM_KEY[0] == 's' && REPLY_IS_END_SEQUENCE_KEY[0] == 'i';
    }
    assert ps[1..] == [ps[1]] && ps[1..][1..] == [];
    if sequence <= INT_MAX {
      assert ReadProperties(ps[1..], sequence, end0) == ReadProperties([], sequence, end);
    }
  }

  function Written(replyTopic: string, r: Reply): Message {
    Message(replyTopic, r.data, r.correlation, Properties(r.sequence, r.end))
  }

  // The message as InvokeCallback hands it to the callback.
  function Read(m: Message): Option<Reply> {
    match ReadProperties(m.properties, 0, true)
    case None => None
    case Some(numbers) => Some(Reply(m.data, m.correlation, numbers.0, numbers.1))
  }

  lemma WrittenReadBack(replyTopic: string, r: Reply)
    requires r.sequence <= INT_MAX
    ensures Read(Written(replyTopic, r)) == Some(r)
  {
    PropertiesReadBack(r.sequence, r.end, 0, true);
  }

  // What is published: the data as it is, and number and flag as text.
  lemma WrittenText(replyTopic: string, r: Reply)
    ensures var m := Written(replyTopic, r);
      && m.topic == replyTopic && m.data == r.data && m.correlation == r.correlation
      && m.properties == [Property("sequenceNum", ToString(r.sequence)), Property("isEndSequence", if r.end then "1" else "0")]
  {
  }

  // ---------------------------------------------------------------- the code

  class AittMsg {
    var topic: string
    var replyTopic: string
    var correlation: string
    var sequence: nat
    var endSequence: bool

    constructor ()
      ensures topic == "" && replyTopic == "" && correlation == "" && sequence == 0 && endSequence
    {
      topic, replyTopic, correlation := "", "", "";
      sequence, endSequence := 0, true;
    }

    method IncreaseSequence()
      modifies this`sequence
      ensures sequence == old(sequence) + 1
    {
      sequence := sequence + 1;
    }

    method SetEndSequence(end: bool)
      modifies this`endSequence
      ensures endSequence == end
    {
      endSequence := end;
    }
  }

  // AITT::Impl::SendReply over MQTT: the request's message object keeps the count.
  method SendReply(msg: AittMsg, data: string, end: bool) returns (published: Message)
    modifies msg`sequence, msg`endSequence
    ensures msg.sequence == NextSequence(old(msg.sequence), end) && msg.endSequence == end
    ensures published == Written(msg.replyTopic, Reply(data, msg.correlation, msg.sequence, end))
  {
    if !end || msg.sequence != 0 {
      msg.IncreaseSequence();
    }
    msg.SetEndSequence(end);
    published := PublishReply(msg, data);
  }

  // MosquittoMQ::SendReply
  method PublishReply(msg: AittMsg, data: string) returns (published: Message)
    ensures published == Written(msg.replyTopic, Reply(data, msg.correlation, msg.sequence, msg.endSequence))
  {
    var props := [Property(REPLY_SEQUENCE_NUM_KEY, ToString(msg.sequence))];
    props := props + [Property(REPLY_IS_END_SEQUENCE_KEY, ToString(if msg.endSequence then 1 else 0))];
    published := Message(msg.replyTopic, data, msg.correlation, props);
  }

  // MosquittoMQ::InvokeCallback up to the call of the callback: reads a message's properties.
  method Receive(m: Message, replyTopic: Option<string>) returns (r: Option<AittMsg>)
    ensures r.Some? <==> Read(m).Some?
    ensures r.Some? ==>
      var msg := r.value;
      && fresh(msg) && msg.topic == m.topic
      && msg.replyTopic == (if replyTopic.Some? then replyTopic.value else "")
      && Read(m) == Some(Reply(m.data, msg.correlation, msg.sequence, msg.endSequence))
  {
    var msg := new AittMsg();
    msg.topic := m.topic;
    if replyTopic.Some? {
      msg.replyTopic := replyTopic.value;
    }
    msg.correlation := m.correlation;
    var i := 0;
    while i < |m.properties|
      invariant 0 <= i <= |m.properties|
      invariant ReadProperties(m.properties[i..], msg.sequence, msg.endSequence) == ReadProperties(m.properties, 0, true)
      invariant msg.topic == m.topic && msg.correlation == m.correlation
      invariant msg.replyTopic == if replyTopic.Some? then replyTopic.value else ""
    {
      var p := m.properties[i];
      assert m.properties[i..][0] == p && m.properties[i..][1..] == m.properties[i+1..];
      if p.name == REPLY_SEQUENCE_NUM_KEY {
        var value := Stoi(p.value);
        if value.None? {
          return None;
        }
        msg.sequence := value.value;
      } else if p.name == REPLY_IS_END_SEQUENCE_KEY {
        var value := Stoi(p.value);
        if value.None? {
          return None;
        }
        msg.SetEndSequence(value.value == 1);
      }
      i := i + 1;
    }
    assert m.properties[i..] == [];
    return Some(msg);
  }
}
