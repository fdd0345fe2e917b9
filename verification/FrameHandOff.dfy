/**
 * The hand-off of frames from the WebRTC producer to its worker thread
 * (modules/webrtc/RequestServer.cc, SyncQueue.h) as a state machine: one producer, one worker, one
 * Stop. Each event is one critical section of the queue's mutex or one access to the stop flag, so
 * every interleaving is a sequence of events.
 */
module FrameHandOff {
  import opened ByteStrings

  // Frames are not empty; the empty one is the marker that WakeUpAll pushes.
  type Frame = Bytes
  const MARKER: Frame := []

  // Where the threads are. PushBuffer found the queue empty and has not pushed yet.
  datatype Producer = Away | FoundEmpty(frame: Frame)

  // ThreadMain: at the loop test, in WaitedFront, holding the front before and after its callback.
  datatype Worker = AtTest | Waiting | Holding(frame: Frame) | CalledBack(frame: Frame) | Done

  datatype Stopper = NotStopped | FlagSet | WokenUp | Joined

  datatype State = State(
    queue: seq<Frame>, stopWorking: bool,
    producer: Producer, worker: Worker, stopper: Stopper,
    accepted: seq<Frame>,      // frames pushed, in order
    handed: seq<Frame>,        // frames given to the callback, in order
    popped: seq<Frame>,        // everything removed by Pop, in order
    popsAfterStop: nat)        // how often Pop ran since the flag was set

  datatype Event =
    | CheckEmpty(frame: Frame) | Push
    | Test | WaitedFront | Callback | Pop
    | SetFlag | WakeUp | Join

  const Initial := State([], false, Away, AtTest, NotStopped, [], [], [], 0)

  predicate Enabled(s: State, e: Event) {
    match e
    case CheckEmpty(frame) => s.producer == Away && frame != MARKER
    case Push => s.producer.FoundEmpty?
    case Test => s.worker == AtTest
    case WaitedFront => s.worker == Waiting && s.queue != []
    case Callback => s.worker.Holding?
    case Pop => s.worker.CalledBack? && s.queue != []
    case SetFlag => s.stopper == NotStopped
    case WakeUp => s.stopper == FlagSet
    case Join => s.stopper == WokenUp && s.worker == Done
  }

  function Step(s: State, e: Event): State
    requires Enabled(s, e)
  {
    match e
    case CheckEmpty(frame) => if s.queue == [] then s.(producer := FoundEmpty(frame)) else s
    case Push =>
      s.(queue := s.queue + [s.producer.frame], accepted := s.accepted + [s.producer.frame], producer := Away)
    case Test => s.(worker := if s.stopWorking then Done else Waiting)
    case WaitedFront => s.(worker := Holding(s.queue[0]))
    case Callback =>
      s.(worker := CalledBack(s.worker.frame),
         handed := if s.worker.frame != MARKER then s.handed + [s.worker.frame] else s.handed)
    case Pop =>
      s.(queue := s.queue[1..], popped := s.popped + [s.queue[0]], worker := AtTest,
         popsAfterStop := if s.stopWorking then s.popsAfterStop + 1 else 0)
    case SetFlag => s.(stopWorking := true, stopper := FlagSet)
    case WakeUp => s.(queue := s.queue + [MARKER], stopper := WokenUp)
    case Join => s.(stopper := Joined)
  }

  predicate Run(s: State, es: seq<Event>, t: State)
    decreases |es|
  {
    if es == [] then s == t else Enabled(s, es[0]) && Run(Step(s, es[0]), es[1..], t)
  }

  // ---------------------------------------------------------------- invariant

  function Frames(queue: seq<Frame>): (frames: seq<Frame>)
    ensures |frames| <= |queue|
  {
    if queue == [] then []
    else (if queue[0] == MARKER then [] else [queue[0]]) + Frames(queue[1..])
  }

  function Markers(queue: seq<Frame>): nat {
    |queue| - |Frames(queue)|
  }

  lemma {:induction false} FramesAppend(queue: seq<Frame>, x: Frame)
    ensures Frames(queue + [x]) == Frames(queue) + if x == MARKER then [] else [x]
  {
    var all := queue + [x];
    if queue == [] {
      assert all == [x] && all[1..] == [];
    } else {
      var front := if queue[0] == MARKER then [] else [queue[0]];
      assert all[0] == queue[0] && all[1..] == queue[1..] + [x];
      FramesAppend(queue[1..], x);
      assert Frames(all) == front + Frames(queue[1..] + [x]);
    }
  }

  predicate InLoopBody(w: Worker) {
    w != AtTest && w != Done
  }

  // The queue holds at most one frame and one marker, and its front is what the worker holds.
  ghost predicate QueueOk(s: State) {
    && |Frames(s.queue)| <= 1 && Markers(s.queue) <= 1
    && (s.producer.FoundEmpty? ==> Frames(s.queue) == [] && s.producer.frame != MARKER)
    && (s.worker.Holding? || s.worker.CalledBack? ==> s.queue != [] && s.queue[0] == s.worker.frame)
  }

  // Every accepted frame is still queued or was handed over, in order.
  ghost predicate HistoryOk(s: State) {
    && s.accepted == Frames(s.popped) + Frames(s.queue)
    && s.handed == Frames(s.popped) + if s.worker.CalledBack? then Frames([s.worker.frame]) else []
  }

  // The marker is pushed once; it is not gone while the worker still needs it.
  ghost predicate StopOk(s: State) {
    && (s.stopWorking <==> s.stopper != NotStopped)
    && Markers(s.queue) + Markers(s.popped) == (if s.stopper == WokenUp || s.stopper == Joined then 1 else 0)
    && (Markers(s.popped) > 0 ==> s.popsAfterStop > 0)
    && s.popsAfterStop <= (if s.stopWorking && !InLoopBody(s.worker) then 1 else 0)
    && (s.worker == Done ==> s.stopWorking)
    && (s.stopper == Joined ==> s.worker == Done)
  }

  ghost predicate Invariant(s: State) {
    QueueOk(s) && HistoryOk(s) && StopOk(s)
  }

  lemma FrontSplits(queue: seq<Frame>)
    requires queue != []
    ensures Frames(queue) == Frames([queue[0]]) + Frames(queue[1..])
    ensures Markers(queue) == Markers([queue[0]]) + Markers(queue[1..])
  {
    assert Frames([queue[0]]) == if queue[0] == MARKER then [] else [queue[0]];
  }

  lemma FrontAlone(x: Frame)
    ensures Frames([x]) == if x == MARKER then [] else [x]
  {
    assert Frames([x][1..]) == [];
  }

  lemma PopKeeps(s: State)
    requires Invariant(s) && Enabled(s, Pop)
    ensures Invariant(Step(s, Pop))
  {
    FrontSplits(s.queue);
    FramesAppend(s.popped, s.queue[0]);
    PopKeepsHistory(s);
    MarkersAppend(s.popped, s.queue[0]);
  }

  lemma PopKeepsHistory(s: State)
    requires QueueOk(s) && HistoryOk(s) && Enabled(s, Pop)
    ensures HistoryOk(Step(s, Pop))
  {
    var before, front, rest := Frames(s.popped), Frames([s.queue[0]]), Frames(s.queue[1..]);
    FrontSplits(s.queue);
    FrontAlone(s.queue[0]);
    FramesAppend(s.popped, s.queue[0]);
    assert before + (front + rest) == before + front + rest;
  }

  lemma MarkersAppend(queue: seq<Frame>, x: Frame)
    ensures Markers(queue + [x]) == Markers(queue) + Markers([x])
  {
    FrontAlone(x);
    FramesAppend(queue, x);
  }

  lemma PushKeeps(s: State)
    requires Invariant(s) && Enabled(s, Push)
    ensures Invariant(Step(s, Push))
  {
    FramesAppend(s.queue, s.producer.frame);
    assert s.accepted + [s.producer.frame] == Frames(s.popped) + (Frames(s.queue) + [s.producer.frame]);
  }

  lemma WakeUpKeeps(s: State)
    requires Invariant(s) && Enabled(s, WakeUp)
    ensures Invariant(Step(s, WakeUp))
  {
    FramesAppend(s.queue, MARKER);
    assert Frames(s.queue + [MARKER]) == Frames(s.queue);
  }

  lemma CallbackKeeps(s: State)
    requires Invariant(s) && Enabled(s, Callback)
    ensures Invariant(Step(s, Callback))
  {
    FrontAlone(s.worker.frame);
  }

  lemma StepKeepsInvariant(s: State, e: Event)
    requires Invariant(s) && Enabled(s, e)
    ensures Invariant(Step(s, e))
  {
    match e
    case Push => PushKeeps(s);
    case WakeUp => WakeUpKeeps(s);
    case Pop => PopKeeps(s);
    case Callback => CallbackKeeps(s);
    case CheckEmpty(_) => if s.queue == [] { assert QueueOk(Step(s, e)); }
    case _ =>
  }

  lemma {:induction false} RunKeepsInvariant(s: State, es: seq<Event>, t: State)
    requires Invariant(s) && Run(s, es, t)
    ensures Invariant(t)
    decreases |es|
  {
    if es != [] {
      StepKeepsInvariant(s, es[0]);
      RunKeepsInvariant(Step(s, es[0]), es[1..], t);
    }
  }

  // ---------------------------------------------------------------- main results

  // The frames that are queued and not yet handed over.
  function Undelivered(s: State): seq<Frame> {
    if s.worker.CalledBack? && s.queue != [] then Frames(s.queue[1..]) else Frames(s.queue)
  }

  // In every interleaving: at most one frame and one marker are queued; the frames handed over are
  // the accepted ones in order, each once, except for at most one that is still queued; Pop removes
  // what WaitedFront returned and never finds the queue empty.
  lemma HandOff(es: seq<Event>, s: State)
    requires Run(Initial, es, s)
    ensures |Frames(s.queue)| <= 1 && Markers(s.queue) <= 1
    ensures s.accepted == s.handed + Undelivered(s) && |Undelivered(s)| <= 1
    ensures MARKER !in s.accepted
    ensures s.worker.Holding? || s.worker.CalledBack? ==> s.queue != [] && s.queue[0] == s.worker.frame
  {
    RunKeepsInvariant(Initial, es, s);
    Conserved(s);
    NoMarkers(s.popped, s.queue);
  }

  lemma Conserved(s: State)
    requires QueueOk(s) && HistoryOk(s)
    ensures s.accepted == s.handed + Undelivered(s)
    ensures |Undelivered(s)| <= |Frames(s.queue)|
  {
    if s.worker.CalledBack? {
      var before, front, rest := Frames(s.popped), Frames([s.queue[0]]), Frames(s.queue[1..]);
      FrontSplits(s.queue);
      assert before + (front + rest) == before + front + rest;
    }
  }

  lemma NoMarkers(a: seq<Frame>, b: seq<Frame>)
    ensures MARKER !in Frames(a) + Frames(b)
  {
    FramesAreFrames(a);
    FramesAreFrames(b);
  }

  lemma {:induction false} FramesAreFrames(queue: seq<Frame>)
    ensures MARKER !in Frames(queue)
  {
    if queue != [] {
      FramesAreFrames(queue[1..]);
    }
  }

  predicate IsWorkers(e: Event) {
    e.Test? || e.WaitedFront? || e.Callback? || e.Pop?
  }

  // How many steps the worker has left once the flag is set.
  function StepsLeft(w: Worker): nat {
    match w
    case Waiting => 4
    case Holding(_) => 3
    case CalledBack(_) => 2
    case AtTest => 1
    case Done => 0
  }

  function NextEvent(w: Worker): Event {
    match w
    case AtTest => Test
    case Waiting => WaitedFront
    case Holding(_) => Callback
    case _ => Pop
  }

  // After Stop has woken it the worker is never blocked until it has left its loop.
  lemma NeverBlocks(es: seq<Event>, s: State)
    requires Run(Initial, es, s) && s.stopper == WokenUp
    ensures s.worker != Done ==> IsWorkers(NextEvent(s.worker)) && Enabled(s, NextEvent(s.worker))
    ensures s.worker == Done ==> Enabled(s, Join)
  {
    RunKeepsInvariant(Initial, es, s);
    if InLoopBody(s.worker) {
      assert Markers(s.queue) == 1;
    }
  }

  function Count(es: seq<Event>, which: Event -> bool): nat {
    if es == [] then 0 else (if which(es[0]) then 1 else 0) + Count(es[1..], which)
  }

  function IsPop(e: Event): bool {
    e.Pop?
  }

  function IsCallback(e: Event): bool {
    e.Callback?
  }

  function IsStep(e: Event): bool {
    IsWorkers(e)
  }

  // Where the worker is in its loop body.
  function Phase(w: Worker): nat {
    match w
    case Waiting => 1
    case Holding(_) => 2
    case CalledBack(_) => 3
    case _ => 0
  }

  // While the flag is clear every fourth step of the worker is a Pop, with one callback before each:
  // it serves one element after the other and stops only to wait for the next.
  lemma {:induction false} EveryFourthPops(s: State, es: seq<Event>, t: State)
    requires Run(s, es, t) && !t.stopWorking && s.worker != Done
    ensures t.worker != Done && !s.stopWorking
    ensures Count(es, IsStep) + Phase(s.worker) == 4 * Count(es, IsPop) + Phase(t.worker)
    ensures Count(es, IsCallback) + (if s.worker.CalledBack? then 1 else 0) == Count(es, IsPop) + (if t.worker.CalledBack? then 1 else 0)
    decreases |es|
  {
    if es != [] {
      if Step(s, es[0]).stopWorking {
        StaysSet(Step(s, es[0]), es[1..], t);
      }
      EveryFourthPops(Step(s, es[0]), es[1..], t);
    }
  }

  lemma {:induction false} StaysSet(s: State, es: seq<Event>, t: State)
    requires Run(s, es, t) && s.stopWorking
    ensures t.stopWorking
    decreases |es|
  {
    if es != [] {
      StaysSet(Step(s, es[0]), es[1..], t);
    }
  }

  // It waits only for an empty queue.
  lemma WaitsOnlyForFrames(es: seq<Event>, s: State)
    requires Run(Initial, es, s) && s.worker != Done
    ensures Enabled(s, NextEvent(s.worker)) <==> !(s.worker == Waiting && s.queue == [])
  {
    RunKeepsInvariant(Initial, es, s);
  }

  // From the moment the flag is set the worker makes at most four more steps, among them at most
  // one callback and one Pop.
  lemma {:induction false} FewStepsAfterStop(s: State, es: seq<Event>, t: State)
    requires s.stopWorking && Run(s, es, t)
    ensures t.stopWorking
    ensures Count(es, IsStep) + StepsLeft(t.worker) == StepsLeft(s.worker)
    ensures Count(es, IsPop) <= (if InLoopBody(s.worker) then 1 else 0)
    ensures Count(es, IsCallback) <= (if s.worker == Waiting || s.worker.Holding? then 1 else 0)
    decreases |es|
  {
    if es != [] {
      FewStepsAfterStop(Step(s, es[0]), es[1..], t);
    }
  }
}
