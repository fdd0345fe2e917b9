/**
 * The code of the event loop (common/PosixMainLoop.cc), method by method. Every execution is a
 * run of the state machine in module MainLoop, so what holds of all runs holds of the code.
 *
 * A script says what happens around the loop thread: one `Turn` per poll() and per callback,
 * with the environment events that take place meanwhile and the callback's return value; for a
 * poll() also those between the loop test and the copy of the watch table.
 */
module PosixMainLoopCode {
  import opened Sequences
  import opened MainLoop

  datatype Turn = Turn(before: seq<Event>, events: seq<Event>, fds: seq<Fd>, outcome: Outcome)

  lemma {:induction false} RunAppend(s: Loop, es: seq<Event>, t: Loop, es': seq<Event>, u: Loop)
    requires MainLoop.Run(s, es, t) && MainLoop.Run(t, es', u)
    ensures MainLoop.Run(s, es + es', u)
    decreases |es|
  {
    if es == [] {
      assert es + es' == es';
    } else {
      assert (es + es')[1..] == es[1..] + es';
      RunAppend(Step(s, es[0]), es[1..], t, es', u);
    }
  }

  lemma RunOne(s: Loop, es: seq<Event>, t: Loop, e: Event)
    requires MainLoop.Run(s, es, t) && Enabled(t, e)
    ensures MainLoop.Run(s, es + [e], Step(t, e))
  {
    assert MainLoop.Run(Step(t, e), [e][1..], Step(t, e));
    RunAppend(s, es, t, [e], Step(t, e));
  }

  // Of a list of events, those of the environment that are possible when their time comes.
  function Possible(s: Loop, events: seq<Event>): seq<Event>
    decreases |events|
  {
    if events == [] then []
    else
      var e := events[0];
      if IsEnvironment(e) && Enabled(s, e) then [e] + Possible(Step(s, e), events[1..]) else Possible(s, events[1..])
  }

  lemma PossibleNext(s: Loop, events: seq<Event>, i: nat)
    requires i < |events|
    ensures Possible(s, events[i..]) ==
      if IsEnvironment(events[i]) && Enabled(s, events[i]) then [events[i]] + Possible(Step(s, events[i]), events[i+1..])
      else Possible(s, events[i+1..])
  {
    assert events[i..][0] == events[i] && events[i..][1..] == events[i+1..];
  }

  // What a callback returns.
  function Said(script: seq<Turn>): Outcome {
    if script == [] then Keep else script[0].outcome
  }

  ghost predicate EndsWith(trace: seq<Event>, e: Event) {
    trace != [] && trace[|trace| - 1] == e
  }

  class PosixMainLoop {
    var pc: Pc
    var isRunning: bool
    var quitting: bool
    var timers: Timers
    var idles: Idles
    var watchTable: set<Fd>

    constructor (firstId: Id)
      ensures State() == Initial(firstId)
    {
      var s := Initial(firstId);
      pc, isRunning, quitting, timers, idles, watchTable := s.pc, s.running, s.quitting, s.timers, s.idles, s.watchTable;
    }

    function State(): Loop reads this {
      Loop(pc, isRunning, quitting, timers, idles, watchTable)
    }

    method AddIdle(entry: Entry)
      modifies this`idles
      ensures State() == Step(old(State()), Event.AddIdle(entry))
    {
      idles := idles.(table := idles.table + [entry], added := idles.added + [entry]);
      idles := Write(idles, IDLE);
    }

    method AddWatch(fd: Fd)
      modifies this`watchTable, this`idles
      ensures State() == Step(old(State()), Event.AddWatch(fd))
    {
      watchTable := watchTable + {fd};
      idles := Write(idles, PING);
    }

    method RemoveWatch(fd: Fd) returns (found: bool)
      modifies this`watchTable, this`idles
      ensures found <==> fd in old(watchTable)
      ensures State() == Step(old(State()), Event.RemoveWatch(fd))
    {
      if fd !in watchTable {
        return false;
      }
      watchTable := watchTable - {fd};
      idles := Write(idles, PING);
      return true;
    }

    // Both halves without interruption.
    method AddTimeout(interval: int) returns (id: Id)
      modifies this`timers
      ensures interval <= 0 ==> id == 0 && State() == old(State())
      ensures interval > 0 ==>
        && id == old(timers).nextId
        && MainLoop.Run(old(State()), [ArmTimeout(0), InsertTimeout(id)], State())
    {
      if interval <= 0 {
        return 0;
      }
      id := timers.nextId;
      ghost var s := State();
      timers := Arm(timers, id);
      timers := Insert(timers, id);
      RunOne(s, [], s, ArmTimeout(0));
      assert [] + [ArmTimeout(0)] == [ArmTimeout(0)];
      RunOne(s, [ArmTimeout(0)], Step(s, ArmTimeout(0)), InsertTimeout(id));
      assert [ArmTimeout(0)] + [InsertTimeout(id)] == [ArmTimeout(0), InsertTimeout(id)];
    }

    method RemoveTimeout(id: Id)
      modifies this`timers
      ensures State() == Step(old(State()), Event.RemoveTimeout(id))
    {
      if id in timers.table {
        timers := timers.(armed := timers.armed - {id});
        timers := timers.(table := timers.table - {id});
      }
    }

    method TimerHandler(id: Id)
      requires id in timers.armed
      modifies this`timers
      ensures State() == Step(old(State()), Fire(id))
    {
      timers := timers.(armed := timers.armed - {id}, fired := timers.fired[id := timers.fired[id] + 1]);
      timers := timers.(pipe := timers.pipe + [id]);
    }

    // Returns whether the loop was running.
    method Quit() returns (accepted: bool)
      modifies this`isRunning, this`quitting, this`timers
      ensures accepted <==> old(isRunning)
      ensures !accepted ==> State() == old(State())
      ensures accepted ==> MainLoop.Run(old(State()), [QuitClear, QuitWrite], State())
    {
      if !isRunning {
        return false;
      }
      ghost var s := State();
      isRunning := false;
      timers := timers.(pipe := timers.pipe + [QUIT]);
      quitting := false;
      RunOne(s, [], s, QuitClear);
      assert [] + [QuitClear] == [QuitClear];
      RunOne(s, [QuitClear], Step(s, QuitClear), QuitWrite);
      assert [QuitClear] + [QuitWrite] == [QuitClear, QuitWrite];
      return true;
    }

    // What other threads, timers and a callback do meanwhile; impossible requests are skipped.
    method Meanwhile(events: seq<Event>) returns (ghost trace: seq<Event>)
      modifies this
      ensures MainLoop.Run(old(State()), trace, State()) && pc == old(pc)
      ensures trace == Possible(old(State()), events)
    {
      trace := [];
      assert events[0..] == events;
      for i := 0 to |events|
        invariant MainLoop.Run(old(State()), trace, State()) && pc == old(pc)
        invariant trace + Possible(State(), events[i..]) == Possible(old(State()), events)
      {
        var e := events[i];
        PossibleNext(State(), events, i);
        if IsEnvironment(e) && Enabled(State(), e) {
          RunOne(old(State()), trace, State(), e);
          Associates(trace, [e], Possible(Step(State(), e), events[i+1..]));
          trace := trace + [e];
          Happen(e);
        }
      }
      assert events[|events|..] == [];
    }

    method Happen(e: Event)
      requires IsEnvironment(e) && Enabled(State(), e)
      modifies this
      ensures State() == Step(old(State()), e)
    {
      match e {
        case AddIdle(entry) => AddIdle(entry);
        case AddWatch(fd) => AddWatch(fd);
        case RemoveWatch(fd) => var _ := RemoveWatch(fd);
        case RemoveTimeout(id) => RemoveTimeout(id);
        case Fire(id) => TimerHandler(id);
        case ArmTimeout(skipped) => timers := Arm(timers, timers.nextId + skipped);
        case InsertTimeout(id) => timers := Insert(timers, id);
        case QuitClear => isRunning, quitting := false, true;
        case QuitWrite => quitting, timers := false, timers.(pipe := timers.pipe + [QUIT]);
      }
    }

    // One callback: what happens during it and what it returns.
    method Callback(script: seq<Turn>) returns (outcome: Outcome, rest: seq<Turn>, ghost trace: seq<Event>)
      modifies this
      ensures MainLoop.Run(old(State()), trace, State()) && pc == old(pc) && outcome == Said(script)
      ensures if script == [] then rest == [] && trace == [] && State() == old(State())
              else rest == script[1..] && trace == Possible(old(State()), script[0].events)
    {
      if script == [] {
        return Keep, [], [];
      }
      trace := Meanwhile(script[0].events);
      return script[0].outcome, script[1..], trace;
    }

    method ServeTimeout(id: Id, script: seq<Turn>) returns (rest: seq<Turn>, ghost trace: seq<Event>)
      requires pc.TimeoutCallback? && pc.id == id && id in timers.table
      modifies this
      ensures MainLoop.Run(old(State()), trace, State())
      ensures pc == Timeouts(true, old(pc).ready)
      // what the callback returned counts, unless the timeout was removed meanwhile
      ensures EndsWith(trace, EndTimeout(Said(script))) || (EndsWith(trace, EndTimeout(Outcome.Remove)) && Event.RemoveTimeout(id) in trace)
      ensures if script == [] then rest == [] && timers.pipe == old(timers).pipe else rest == script[1..]
    {
      var outcome;
      outcome, rest, trace := Callback(script);
      if script != [] {
        PossibleAreOthers(old(State()), script[0].events);
      }
      StaysRegistered(old(State()), trace, State(), id);
      if id !in timers.table {
        outcome := Outcome.Remove;   // such a callback must not ask to be continued
      }
      RunOne(old(State()), trace, State(), EndTimeout(outcome));
      trace := trace + [EndTimeout(outcome)];
      pc := Timeouts(true, pc.ready);
      if outcome == Outcome.Remove {
        RemoveTimeout(id);
      } else {
        timers := timers.(armed := timers.armed + {id});
      }
    }

    method ServeWatch(fd: Fd, script: seq<Turn>) returns (rest: seq<Turn>, ghost trace: seq<Event>)
      requires pc.WatchCallback? && pc.fd == fd
      modifies this
      ensures MainLoop.Run(old(State()), trace, State())
      ensures pc == Watches(true, old(pc).ready)
      ensures |rest| <= |script| && EndsWith(trace, EndWatch(Said(script)))
    {
      var outcome;
      outcome, rest, trace := Callback(script);
      RunOne(old(State()), trace, State(), EndWatch(outcome));
      trace := trace + [EndWatch(outcome)];
      pc := Watches(true, pc.ready);
      if outcome == Outcome.Remove {
        var _ := RemoveWatch(fd);
      }
    }

    method ServeIdle(entry: Entry, script: seq<Turn>) returns (rest: seq<Turn>, ghost trace: seq<Event>)
      requires pc == IdleCallback(entry) && IdleInOrder(State())
      modifies this
      ensures MainLoop.Run(old(State()), trace, State())
      ensures pc.Rearm? && |rest| <= |script| && EndsWith(trace, EndIdle(Said(script)))
    {
      var outcome;
      outcome, rest, trace := Callback(script);
      RunKeepsOrder(old(State()), trace, State());
      RunOne(old(State()), trace, State(), EndIdle(outcome));
      trace := trace + [EndIdle(outcome)];
      pc := Rearm;
      if outcome == Outcome.Remove {
        idles := idles.(table := idles.table[1..], finished := idles.finished + [entry]);
      }
    }

    // Reads the timeout pipe until it is empty (returns 0 or 1: anything handled) or QUIT is read (-1).
    method CheckTimeout(script: seq<Turn>) returns (ret: int, rest: seq<Turn>, ghost trace: seq<Event>)
      requires pc.Timeouts? && !pc.handled
      modifies this
      ensures MainLoop.Run(old(State()), trace, State())
      ensures |rest| <= |script|
      ensures if ret < 0 then pc.Done? else pc == Watches(ret == 1, old(pc).ready) && timers.pipe == [] && 0 <= ret <= 1
    {
      rest, trace := script, [];
      while timers.pipe != []
        invariant MainLoop.Run(old(State()), trace, State())
        invariant pc.Timeouts? && pc.ready == old(pc).ready && |rest| <= |script|
        decreases |rest|, |timers.pipe|
      {
        ghost var s, part := State(), [];
        rest, part := TakeToken(rest);
        RunAppend(old(State()), trace, s, part, State());
        trace := trace + part;
        if pc.Done? {
          return -1, rest, trace;
        }
      }
      RunOne(old(State()), trace, State(), ReadTimeout);
      trace := trace + [ReadTimeout];
      ret := if pc.handled then 1 else 0;
      pc := Watches(pc.handled, pc.ready);
    }

    // One token: QUIT ends the loop, the id of a registered timeout calls it back.
    method TakeToken(script: seq<Turn>) returns (rest: seq<Turn>, ghost trace: seq<Event>)
      requires pc.Timeouts? && timers.pipe != []
      modifies this
      ensures MainLoop.Run(old(State()), trace, State())
      ensures |rest| <= |script| && (|rest| < |script| || |timers.pipe| < |old(timers).pipe|)
      ensures pc.Done? || (pc.Timeouts? && pc.ready == old(pc).ready)
    {
      var identifier, ready := timers.pipe[0], pc.ready;
      RunOne(State(), [], State(), ReadTimeout);
      trace, rest := [] + [ReadTimeout], script;
      timers := Take(timers);
      if identifier == QUIT {
        pc := Done;
      } else if identifier in timers.table {
        pc := TimeoutCallback(identifier, ready);
        ghost var s, served := State(), [];
        rest, served := ServeTimeout(identifier, rest);
        RunAppend(old(State()), trace, s, served, State());
        trace := trace + served;
      }
    }

    // Serves the descriptors that poll() reported and that are still watched.
    method CheckWatch(fds: seq<Fd>, script: seq<Turn>) returns (rest: seq<Turn>, ghost trace: seq<Event>)
      requires pc.Watches? && pc.ready.fds == fds
      modifies this
      ensures MainLoop.Run(old(State()), trace, State())
      ensures |rest| <= |script|
      ensures pc.Watches? && pc.ready == Ready([], old(pc).ready.idle) && (old(pc).handled ==> pc.handled)
    {
      rest, trace := script, [];
      for idx := 0 to |fds|
        invariant MainLoop.Run(old(State()), trace, State())
        invariant pc.Watches? && pc.ready == Ready(fds[idx..], old(pc).ready.idle) && |rest| <= |script|
        invariant old(pc).handled ==> pc.handled
      {
        assert fds[idx..][1..] == fds[idx+1..];
        ghost var s, part := State(), [];
        rest, part := TakeReported(rest);
        RunAppend(old(State()), trace, s, part, State());
        trace := trace + part;
      }
      assert fds[|fds|..] == [];
    }

    // The loop body: the next reported descriptor.
    method TakeReported(script: seq<Turn>) returns (rest: seq<Turn>, ghost trace: seq<Event>)
      requires pc.Watches? && pc.ready.fds != []
      modifies this
      ensures MainLoop.Run(old(State()), trace, State()) && |rest| <= |script|
      ensures pc.Watches? && pc.ready == Ready(old(pc).ready.fds[1..], old(pc).ready.idle)
      ensures pc.handled <==> old(pc).handled || old(pc).ready.fds[0] in old(watchTable)
      ensures old(pc).ready.fds[0] in old(watchTable) ==> EndsWith(trace, EndWatch(Said(script)))
    {
      var fd, ready := pc.ready.fds[0], pc.ready.(fds := pc.ready.fds[1..]);
      RunOne(State(), [], State(), NextWatch);
      rest, trace := script, [] + [NextWatch];
      if fd in watchTable {
        pc := WatchCallback(fd, ready);
        ghost var s, served := State(), [];
        rest, served := ServeWatch(fd, rest);
        RunAppend(old(State()), trace, s, served, State());
        trace := trace + served;
      } else {
        pc := Watches(pc.handled, ready);
      }
    }

    // Reads one token; an IDLE token runs the front entry.
    method CheckIdle(script: seq<Turn>) returns (rest: seq<Turn>, ghost trace: seq<Event>)
      requires pc.Idles? && IdleInOrder(State())
      modifies this
      ensures MainLoop.Run(old(State()), trace, State())
      ensures |rest| <= |script| && pc.Rearm?
    {
      rest, trace := script, [ReadIdle];
      RunOne(State(), [], State(), ReadIdle);
      assert [] + [ReadIdle] == [ReadIdle];
      if idles.pipe == [] {
        pc := Rearm;
        return;
      }
      var identifier := idles.pipe[0];
      idles := idles.(pipe := idles.pipe[1..]);
      if identifier != IDLE || idles.table == [] {
        pc := Rearm;
        return;
      }
      pc := IdleCallback(idles.table[0]);
      IdleInOrderStep(old(State()), ReadIdle);
      ghost var s, served := State(), [];
      rest, served := ServeIdle(idles.table[0], rest);
      RunAppend(old(State()), trace, s, served, State());
      trace := trace + served;
    }

    // Polls as often as the script has turns to give, or until the loop ends.
    method Run(script: seq<Turn>) returns (rest: seq<Turn>, ghost trace: seq<Event>)
      requires pc.NotStarted? && Invariant(State())
      modifies this
      ensures MainLoop.Run(old(State()), trace, State()) && Invariant(State())
      ensures pc.Done? || (pc.Top? && rest == [])
    {
      rest, trace := script, [StartRun];
      RunOne(State(), [], State(), StartRun);
      assert [] + [StartRun] == [StartRun];
      isRunning := true;
      pc := Top;
      while isRunning && rest != []
        invariant MainLoop.Run(old(State()), trace, State()) && pc.Top?
        decreases |rest|
      {
        ghost var s, pass := State(), [];
        RunKeepsOrder(old(State()), trace, s);
        rest, pass := Iterate(rest);
        RunAppend(old(State()), trace, s, pass, State());
        trace := trace + pass;
        if pc.Done? {
          RunKeepsInvariant(old(State()), trace, State());
          return;
        }
      }
      if !isRunning {
        RunOne(old(State()), trace, State(), TestRunning);
        trace := trace + [TestRunning];
        pc := Done;
      }
      RunKeepsInvariant(old(State()), trace, State());
    }

    // One pass: poll, timeouts, watches, and the idle pipe when nothing else was served.
    method Iterate(script: seq<Turn>) returns (rest: seq<Turn>, ghost trace: seq<Event>)
      requires pc.Top? && isRunning && script != [] && IdleInOrder(State())
      modifies this
      ensures MainLoop.Run(old(State()), trace, State()) && trace != []
      ensures |rest| < |script| && (pc.Top? || pc.Done?)
    {
      rest := script[1..];
      trace := Poll(script[0]);
      ghost var s, part := State(), [];
      RunKeepsOrder(old(State()), trace, s);
      if !pc.Rearm? {
        rest, part := Serve(rest);
        RunAppend(old(State()), trace, s, part, State());
        trace := trace + part;
        if pc.Done? {
          return;
        }
      }
      RunOne(old(State()), trace, State(), WriteIdle);
      trace := trace + [WriteIdle];
      if idles.table != [] {
        idles := Write(idles, IDLE);
      }
      pc := Top;
    }

    // From the loop test to the copy of the watch table.
    method Collect(before: seq<Event>) returns (ghost trace: seq<Event>)
      requires pc.Top? && isRunning
      modifies this
      ensures MainLoop.Run(old(State()), trace, State()) && pc == Polling(watchTable)
      ensures trace == [TestRunning] + Possible(Step(old(State()), TestRunning), before) + [CollectWatches]
    {
      RunOne(State(), [], State(), TestRunning);
      pc := Collecting;
      ghost var s := State();
      trace := Meanwhile(before);
      assert [] + [TestRunning] == [TestRunning];
      RunAppend(old(State()), [TestRunning], s, trace, State());
      trace := [TestRunning] + trace;
      RunOne(old(State()), trace, State(), CollectWatches);
      trace := trace + [CollectWatches];
      pc := Polling(watchTable);
    }

    // Waits until a watched descriptor or a pipe is readable; a signal ends the wait early.
    method Poll(turn: Turn) returns (ghost trace: seq<Event>)
      requires pc.Top? && isRunning
      modifies this
      ensures MainLoop.Run(old(State()), trace, State()) && trace != []
      ensures pc.Rearm? || (pc.Timeouts? && !pc.handled) || (pc.Watches? && !pc.handled)
      // the events of the turn, then the reported ones of the descriptors polled
      ensures var tested := Step(old(State()), TestRunning);
        var before := Possible(tested, turn.before);
        exists polling: Loop ::
          && MainLoop.Run(old(State()), [TestRunning] + before + [CollectWatches], polling) && polling.pc.Polling?
          && var during := Possible(polling, turn.events);
             var reported := Among(turn.fds, polling.pc.polled);
             && trace == [TestRunning] + before + [CollectWatches] + during + [if pc.Rearm? then Interrupted else Wake(reported)]
             && (pc.Rearm? <==> timers.pipe == [] && idles.pipe == [] && reported == [])
    {
      trace := Collect(turn.before);
      var polled := pc.polled;
      ghost var s, part := State(), [];
      part := Meanwhile(turn.events);
      RunAppend(old(State()), trace, s, part, State());
      trace := trace + part;
      var fds := Among(turn.fds, polled);
      if timers.pipe == [] && idles.pipe == [] && fds == [] {
        RunOne(old(State()), trace, State(), Interrupted);
        trace := trace + [Interrupted];
        pc := Rearm;
      } else {
        RunOne(old(State()), trace, State(), Wake(fds));
        trace := trace + [Wake(fds)];
        var ready := Ready(fds, idles.pipe != []);
        pc := if timers.pipe != [] then Timeouts(false, ready) else Watches(false, ready);
      }
    }

    method Serve(script: seq<Turn>) returns (rest: seq<Turn>, ghost trace: seq<Event>)
      requires (pc.Timeouts? || pc.Watches?) && !pc.handled && IdleInOrder(State())
      modifies this
      ensures MainLoop.Run(old(State()), trace, State())
      ensures |rest| <= |script| && (pc.Rearm? || pc.Done?)
    {
      rest, trace := script, [];
      ghost var s, part := State(), [];
      if pc.Timeouts? {
        var ret;
        ret, rest, trace := CheckTimeout(rest);
        if ret < 0 {
          return;
        }
      }
      s := State();
      rest, part := CheckWatch(pc.ready.fds, rest);
      RunAppend(old(State()), trace, s, part, State());
      trace := trace + part;
      RunOne(old(State()), trace, State(), NextWatch);
      trace := trace + [NextWatch];
      if !pc.handled && pc.ready.idle {
        pc := Pc.Idles;
        RunKeepsOrder(old(State()), trace, State());
        s := State();
        rest, part := CheckIdle(rest);
        RunAppend(old(State()), trace, s, part, State());
        trace := trace + part;
      } else {
        pc := Rearm;
      }
    }
  }

  function Among(fds: seq<Fd>, polled: set<Fd>): (r: seq<Fd>)
    ensures forall fd :: fd in r <==> fd in fds && fd in polled
  {
    if fds == [] then [] else if fds[0] in polled then [fds[0]] + Among(fds[1..], polled) else Among(fds[1..], polled)
  }

  // A registered timeout stays so unless RemoveTimeout is called for it.
  lemma {:induction false} StaysRegistered(s: Loop, es: seq<Event>, t: Loop, id: Id)
    requires MainLoop.Run(s, es, t) && id in s.timers.table && forall e <- es :: IsEnvironment(e)
    ensures id in t.timers.table || RemoveTimeout(id) in es
    decreases |es|
  {
    if es != [] {
      assert es[0] in es && forall e <- es[1..] :: e in es;
      if es[0] != RemoveTimeout(id) {
        StaysRegistered(Step(s, es[0]), es[1..], t, id);
      }
    }
  }

  lemma {:induction false} PossibleAreOthers(s: Loop, events: seq<Event>)
    ensures forall e <- Possible(s, events) :: IsEnvironment(e)
    decreases |events|
  {
    if events != [] {
      var e := events[0];
      PossibleAreOthers(s, events[1..]);
      if IsEnvironment(e) && Enabled(s, e) {
        PossibleAreOthers(Step(s, e), events[1..]);
      }
    }
  }

  lemma {:induction false} RunKeepsOrder(s: Loop, es: seq<Event>, t: Loop)
    requires IdleInOrder(s) && MainLoop.Run(s, es, t)
    ensures IdleInOrder(t)
    decreases |es|
  {
    if es != [] {
      IdleInOrderStep(s, es[0]);
      RunKeepsOrder(Step(s, es[0]), es[1..], t);
    }
  }
}
