/**
 * The code of modules/webrtc/RequestServer.cc and SyncQueue.h. Every execution is a run of the
 * state machine in module FrameHandOff, so what holds of all runs holds of the code.
 *
 * What the other threads do between two steps of a method is given to it as a list of events.
 */
module RequestServerCode {
  import opened Sequences
  import opened FrameHandOff

  class SyncQueue<T> {
    var queue: seq<T>

    constructor ()
      ensures queue == []
    {
      queue := [];
    }

    method IsEmpty() returns (empty: bool)
      ensures empty <==> queue == []
    {
      return |queue| == 0;
    }

    method Push(data: T)
      modifies this
      ensures queue == old(queue) + [data]
    {
      queue := queue + [data];
    }

    method Pop()
      requires queue != []
      modifies this
      ensures [old(queue)[0]] + queue == old(queue)
    {
      queue := queue[1..];
    }

    // Returns once the queue is not empty.
    method WaitedFront() returns (data: T)
      requires queue != []
      ensures data == queue[0]
    {
      return queue[0];
    }

    // `blank` is a default-constructed T.
    method WakeUpAll(blank: T)
      modifies this
      ensures queue == old(queue) + [blank]
    {
      queue := queue + [blank];
    }
  }

  datatype Thread = ProducerThread | WorkerThread | StopperThread

  function ThreadOf(e: Event): Thread {
    match e
    case CheckEmpty(_) => ProducerThread
    case Push => ProducerThread
    case SetFlag => StopperThread
    case WakeUp => StopperThread
    case Join => StopperThread
    case _ => WorkerThread
  }

  lemma {:induction false} RunAppend(s: State, es: seq<Event>, t: State, es': seq<Event>, u: State)
    requires Run(s, es, t) && Run(t, es', u)
    ensures Run(s, es + es', u)
    decreases |es|
  {
    if es == [] {
      assert es + es' == es';
    } else {
      assert (es + es')[1..] == es[1..] + es';
      RunAppend(Step(s, es[0]), es[1..], t, es', u);
    }
  }

  lemma RunOne(s: State, es: seq<Event>, t: State, e: Event)
    requires Run(s, es, t) && Enabled(t, e)
    ensures Run(s, es + [e], Step(t, e))
  {
    assert Run(Step(t, e), [e][1..], Step(t, e));
    RunAppend(s, es, t, [e], Step(t, e));
  }

  // Of a list of events, those of other threads than `me` that are possible when their time comes.
  function Possible(s: State, events: seq<Event>, me: Thread): seq<Event>
    decreases |events|
  {
    if events == [] then []
    else
      var e := events[0];
      if ThreadOf(e) != me && Enabled(s, e) then [e] + Possible(Step(s, e), events[1..], me) else Possible(s, events[1..], me)
  }

  // `me` has not moved while the first events happened as far as they were possible.
  ghost predicate Progress(start: State, trace: seq<Event>, s: State, events: seq<Event>, i: nat, me: Thread)
    requires i <= |events|
  {
    && Run(start, trace, s) && Same(me, start, s)
    && trace + Possible(s, events[i..], me) == Possible(start, events, me)
  }

  lemma ProgressOn(start: State, trace: seq<Event>, s: State, part: seq<Event>, t: State, events: seq<Event>, i: nat, me: Thread)
    requires i < |events| && Progress(start, trace, s, events, i, me)
    requires Run(s, part, t) && Same(me, s, t)
    requires part + Possible(t, events[i+1..], me) == Possible(s, events[i..], me)
    ensures Progress(start, trace + part, t, events, i + 1, me)
  {
    RunAppend(start, trace, s, part, t);
    Stays(me, start, s, t);
    Associates(trace, part, Possible(t, events[i+1..], me));
  }

  lemma Stays(me: Thread, s: State, t: State, u: State)
    requires Same(me, s, t) && Same(me, t, u)
    ensures Same(me, s, u)
  {
  }

  lemma PossibleNext(s: State, events: seq<Event>, i: nat, me: Thread)
    requires i < |events|
    ensures Possible(s, events[i..], me) ==
      if ThreadOf(events[i]) != me && Enabled(s, events[i]) then [events[i]] + Possible(Step(s, events[i]), events[i+1..], me)
      else Possible(s, events[i+1..], me)
  {
    assert events[i..][0] == events[i] && events[i..][1..] == events[i+1..];
  }

  class RequestServer {
    const syncQueue: SyncQueue<Frame>
    var stopWorking: bool
    var producer: Producer
    var worker: Worker
    var stopper: Stopper
    var accepted: seq<Frame>
    var handed: seq<Frame>
    var popped: seq<Frame>
    var popsAfterStop: nat

    function State(): FrameHandOff.State reads this, syncQueue {
      FrameHandOff.State(syncQueue.queue, stopWorking, producer, worker, stopper, accepted, handed, popped, popsAfterStop)
    }

    constructor ()
      ensures State() == Initial && fresh(syncQueue)
    {
      syncQueue := new SyncQueue<Frame>();
      stopWorking, handed := false, [];
      producer, worker, stopper := Away, AtTest, NotStopped;
      accepted, popped, popsAfterStop := [], [], 0;
    }

    // ------------------------------------------------------------ single steps

    method CheckQueue(frame: Frame) returns (empty: bool)
      requires Enabled(State(), CheckEmpty(frame))
      modifies this`producer
      ensures State() == Step(old(State()), CheckEmpty(frame))
      ensures if empty then producer == FoundEmpty(frame) else producer == Away
    {
      empty := syncQueue.IsEmpty();
      if empty {
        producer := FoundEmpty(frame);
      }
    }

    method PushFrame()
      requires producer.FoundEmpty?
      modifies this`accepted, this`producer, syncQueue
      ensures State() == Step(old(State()), Push)
    {
      syncQueue.Push(producer.frame);
      accepted, producer := accepted + [producer.frame], Away;
    }

    method Front()
      requires Enabled(State(), WaitedFront)
      modifies this`worker
      ensures State() == Step(old(State()), WaitedFront)
    {
      var frame := syncQueue.WaitedFront();
      worker := Holding(frame);
    }

    method OnFrame()
      requires worker.Holding?
      modifies this`worker, this`handed
      ensures State() == Step(old(State()), Callback)
    {
      var frame := worker.frame;
      if |frame| != 0 {
        handed := handed + [frame];
      }
      worker := CalledBack(frame);
    }

    method PopFront()
      requires Enabled(State(), Pop)
      modifies this`popped, this`worker, this`popsAfterStop, syncQueue
      ensures State() == Step(old(State()), Pop)
    {
      popped := popped + [syncQueue.queue[0]];
      ghost var was := syncQueue.queue;
      syncQueue.Pop();
      assert was[1..] == syncQueue.queue;
      popsAfterStop := if stopWorking then popsAfterStop + 1 else 0;
      worker := AtTest;
    }

    method WakeUpWorker()
      requires stopper == FlagSet
      modifies this`stopper, syncQueue
      ensures State() == Step(old(State()), WakeUp)
    {
      syncQueue.WakeUpAll(MARKER);
      stopper := WokenUp;
    }

    method Happen(e: Event)
      requires Enabled(State(), e)
      modifies this, syncQueue
      ensures State() == Step(old(State()), e)
    {
      match e {
        case CheckEmpty(frame) => var _ := CheckQueue(frame);
        case Push => PushFrame();
        case Test => worker := if stopWorking then Done else Waiting;
        case WaitedFront => Front();
        case Callback => OnFrame();
        case Pop => PopFront();
        case SetFlag => stopWorking, stopper := true, FlagSet;
        case WakeUp => WakeUpWorker();
        case Join => stopper := Joined;
      }
    }

    // What other threads than `me` do meanwhile; impossible steps are skipped.
    method Meanwhile(events: seq<Event>, me: Thread) returns (ghost trace: seq<Event>)
      modifies this, syncQueue
      ensures Run(old(State()), trace, State())
      ensures Same(me, old(State()), State()) && trace == Possible(old(State()), events, me)
    {
      trace := [];
      assert events[0..] == events;
      for i := 0 to |events|
        invariant Progress(old(State()), trace, State(), events, i, me)
      {
        ghost var s := State();
        ghost var part := IfPossible(events, i, me);
        ProgressOn(old(State()), trace, s, part, State(), events, i, me);
        trace := trace + part;
      }
      assert events[|events|..] == [];
    }

    method IfPossible(events: seq<Event>, i: nat, me: Thread) returns (ghost part: seq<Event>)
      requires i < |events|
      modifies this, syncQueue
      ensures Run(old(State()), part, State()) && Same(me, old(State()), State())
      ensures part + Possible(State(), events[i+1..], me) == Possible(old(State()), events[i..], me)
    {
      var e := events[i];
      PossibleNext(State(), events, i, me);
      part := [];
      if ThreadOf(e) != me && Enabled(State(), e) {
        RunOne(State(), [], State(), e);
        part := [] + [e];
        Happen(e);
      }
    }

    // ------------------------------------------------------------ the three threads

    // The producer. Empty data is not taken; a frame is dropped when something is queued.
    method PushBuffer(data: Frame, meanwhile: seq<Event>) returns (ghost trace: seq<Event>)
      requires producer == Away
      modifies this, syncQueue
      ensures Run(old(State()), trace, State()) && producer == Away
      ensures data == MARKER ==> State() == old(State())
      ensures data != MARKER && old(syncQueue.queue) != [] ==> State() == old(State())
      ensures data != MARKER && old(syncQueue.queue) == [] ==>
        accepted != [] && accepted[|accepted| - 1] == data && data in syncQueue.queue
    {
      trace := [];
      if |data| == 0 {
        return;
      }
      ghost var start := State();
      RunOne(start, [], start, CheckEmpty(data));
      trace := [] + [CheckEmpty(data)];
      var empty := CheckQueue(data);
      if empty {
        ghost var s := State();
        ghost var others := Meanwhile(meanwhile, ProducerThread);
        RunAppend(start, trace, s, others, State());
        trace := trace + others;
        RunOne(start, trace, State(), Push);
        trace := trace + [Push];
        PushFrame();
      }
    }

    // The worker. Between its steps one list of `script` happens; the loop runs until the flag is
    // seen, and is left waiting only when the script is over.
    method ThreadMain(script: seq<seq<Event>>) returns (ghost trace: seq<Event>, rest: seq<seq<Event>>)
      requires worker == AtTest && Invariant(State())
      modifies this, syncQueue
      ensures Run(old(State()), trace, State()) && Invariant(State())
      ensures worker == Done || (rest == [] && (worker == AtTest || worker == Waiting))
    {
      trace, rest := [], script;
      ghost var start := State();
      while worker == AtTest && rest != []
        invariant Run(start, trace, State()) && Invariant(State())
        invariant worker == AtTest || worker == Done || (worker == Waiting && rest == [])
        decreases |rest|
      {
        ghost var s, part := State(), [];
        part := Meanwhile(rest[0], WorkerThread);
        RunAppend(start, trace, s, part, State());
        trace, rest := trace + part, rest[1..];
        RunKeepsInvariant(start, trace, State());
        s := State();
        part, rest := Turn(rest);
        RunAppend(start, trace, s, part, State());
        trace := trace + part;
        RunKeepsInvariant(start, trace, State());
      }
    }

    // One test of the flag and, if it is clear, one pass through the loop body.
    method Turn(script: seq<seq<Event>>) returns (ghost trace: seq<Event>, rest: seq<seq<Event>>)
      requires worker == AtTest && Invariant(State())
      modifies this, syncQueue
      ensures Run(old(State()), trace, State())
      ensures |rest| <= |script|
      ensures if old(stopWorking) then worker == Done else worker == AtTest || (worker == Waiting && rest == [])
    {
      ghost var start, part := State(), [];
      RunOne(start, [], start, Test);
      trace, rest := [] + [Test], script;
      if stopWorking {
        worker := Done;
        return;
      }
      worker := Waiting;
      while syncQueue.queue == [] && rest != []
        invariant Run(start, trace, State()) && worker == Waiting && |rest| <= |script|
        decreases |rest|
      {
        ghost var s := State();
        part := Meanwhile(rest[0], WorkerThread);
        RunAppend(start, trace, s, part, State());
        trace, rest := trace + part, rest[1..];
      }
      if syncQueue.queue == [] {
        return;
      }
      RunOne(start, trace, State(), WaitedFront);
      trace := trace + [WaitedFront];
      Front();
      ghost var s := State();
      part, rest := Serve(start, trace, rest);
      RunAppend(start, trace, s, part, State());
      trace := trace + part;
    }

    // The callback and the Pop. That the queue still is not empty follows from the invariant.
    method Serve(ghost start: FrameHandOff.State, ghost before: seq<Event>, script: seq<seq<Event>>)
      returns (ghost trace: seq<Event>, rest: seq<seq<Event>>)
      requires worker.Holding? && Invariant(start) && Run(start, before, State())
      modifies this, syncQueue
      ensures Run(old(State()), trace, State())
      ensures worker == AtTest && |rest| <= |script|
    {
      ghost var held := State();
      RunKeepsInvariant(start, before, held);
      RunOne(held, [], held, Callback);
      trace, rest := [] + [Callback], script;
      OnFrame();
      if rest != [] {
        ghost var s := State();
        ghost var part := Meanwhile(rest[0], WorkerThread);
        RunAppend(held, trace, s, part, State());
        trace, rest := trace + part, rest[1..];
      }
      RunKeepsInvariant(held, trace, State());
      RunOne(held, trace, State(), Pop);
      trace := trace + [Pop];
      PopFront();
    }

    // Sets the flag and wakes the worker; joining it is a step of its own.
    method Stop(meanwhile: seq<Event>) returns (ghost trace: seq<Event>)
      requires stopper == NotStopped
      modifies this, syncQueue
      ensures Run(old(State()), trace, State())
      ensures stopWorking && stopper == WokenUp
      ensures MARKER in syncQueue.queue
    {
      ghost var start := State();
      RunOne(start, [], start, SetFlag);
      trace := [] + [SetFlag];
      stopWorking, stopper := true, FlagSet;
      ghost var s := State();
      ghost var others := Meanwhile(meanwhile, StopperThread);
      RunAppend(start, trace, s, others, State());
      FewStepsAfterStop(s, others, State());
      trace := trace + others;
      RunOne(start, trace, State(), WakeUp);
      trace := trace + [WakeUp];
      WakeUpWorker();
    }
  }

  // `me` has not moved.
  ghost predicate Same(me: Thread, s: State, t: State) {
    match me
    case ProducerThread => s.producer == t.producer
    case WorkerThread => s.worker == t.worker
    case StopperThread => s.stopper == t.stopper
  }
}
