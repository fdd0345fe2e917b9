/**
 * What the tables, pipes and flags of the event loop hold after any run, said of the events of the
 * run alone: which additions are still in force, what was written and read, who was called.
 */
module MainLoopHistory {
  import opened Results
  import opened Histories
  import opened MainLoop

  // ---------------------------------------------------------------- watches

  // The callback of this descriptor ends with this outcome.
  ghost predicate WatchEnds(s: Loop, es: seq<Event>, m: nat, fd: Fd, outcome: Outcome)
    requires CanRun(s, es)
  {
    m < |es| && es[m] == EndWatch(outcome) && After(s, es, m).pc.WatchCallback? && After(s, es, m).pc.fd == fd
  }

  ghost function WatchAdded(es: seq<Event>, fd: Fd): iset<nat> {
    iset m: nat | m < |es| && es[m] == AddWatch(fd)
  }

  ghost function WatchGone(s: Loop, es: seq<Event>, fd: Fd): iset<nat>
    requires CanRun(s, es)
  {
    iset m: nat | m < |es| && (es[m] == RemoveWatch(fd) || WatchEnds(s, es, m, fd, Outcome.Remove))
  }

  // A descriptor is watched exactly if some AddWatch of it is followed neither by a RemoveWatch nor
  // by a callback of it that returns REMOVE.
  lemma {:induction false} WatchedIff(firstId: Id, es: seq<Event>, n: nat, fd: Fd)
    requires CanRun(Initial(firstId), es) && n <= |es|
    ensures fd in After(Initial(firstId), es, n).watchTable <==>
      Since(WatchAdded(es, fd), WatchGone(Initial(firstId), es, fd), n)
  {
    if n > 0 {
      WatchedIff(firstId, es, n - 1, fd);
      AfterStep(Initial(firstId), es, n - 1);
      SinceStep(WatchAdded(es, fd), WatchGone(Initial(firstId), es, fd), n - 1);
    }
  }

  // ---------------------------------------------------------------- one pass

  // From poll's return to the last reported descriptor.
  predicate InPass(pc: Pc) {
    pc.Timeouts? || pc.TimeoutCallback? || pc.Watches? || pc.WatchCallback?
  }

  function Handled(pc: Pc): bool
    requires InPass(pc)
  {
    match pc
    case Timeouts(handled, _) => handled
    case Watches(handled, _) => handled
    case _ => true
  }

  ghost predicate StaysInPass(s: Loop, es: seq<Event>)
    requires CanRun(s, es)
    decreases |es|
  {
    InPass(s.pc) && (es != [] ==> StaysInPass(Step(s, es[0]), es[1..]))
  }

  // The turn of a reported descriptor, with whether it is watched then.
  datatype Turn = Turn(fd: Fd, watched: bool)

  function TurnOf(s: Loop, e: Event): seq<Turn> {
    if e.NextWatch? && s.pc.Watches? && s.pc.ready.fds != [] then
      [Turn(s.pc.ready.fds[0], s.pc.ready.fds[0] in s.watchTable)]
    else []
  }

  ghost function Turns(s: Loop, es: seq<Event>): seq<Turn>
    requires CanRun(s, es)
    decreases |es|
  {
    if es == [] then [] else TurnOf(s, es[0]) + Turns(Step(s, es[0]), es[1..])
  }

  // The descriptors whose callbacks begin.
  function CallOf(s: Loop, e: Event): seq<Fd>
    requires Enabled(s, e)
  {
    var next := Step(s, e);
    if !s.pc.WatchCallback? && next.pc.WatchCallback? then [next.pc.fd] else []
  }

  ghost function WatchCalls(s: Loop, es: seq<Event>): seq<Fd>
    requires CanRun(s, es)
    decreases |es|
  {
    if es == [] then [] else CallOf(s, es[0]) + WatchCalls(Step(s, es[0]), es[1..])
  }

  // How many timeout callbacks begin.
  function TimeoutBegins(s: Loop, e: Event): nat
    requires Enabled(s, e)
  {
    if !s.pc.TimeoutCallback? && Step(s, e).pc.TimeoutCallback? then 1 else 0
  }

  ghost function TimeoutsBegun(s: Loop, es: seq<Event>): nat
    requires CanRun(s, es)
    decreases |es|
  {
    if es == [] then 0 else TimeoutBegins(s, es[0]) + TimeoutsBegun(Step(s, es[0]), es[1..])
  }

  function Fds(turns: seq<Turn>): seq<Fd> {
    if turns == [] then [] else [turns[0].fd] + Fds(turns[1..])
  }

  function Watched(turns: seq<Turn>): seq<Fd> {
    if turns == [] then [] else (if turns[0].watched then [turns[0].fd] else []) + Watched(turns[1..])
  }

  // Each turn takes the next reported descriptor, the watched ones are called, and the pass counts
  // as handled exactly if it did before or something was called.
  ghost predicate ServesTo(from: Pc, turns: seq<Turn>, calls: seq<Fd>, timeouts: nat, to: Pc)
    requires InPass(from) && InPass(to)
  {
    && from.ready.fds == Fds(turns) + to.ready.fds
    && calls == Watched(turns)
    && (Handled(to) <==> Handled(from) || calls != [] || timeouts > 0)
    && to.ready.idle == from.ready.idle
  }

  lemma ServeStep(s: Loop, e: Event)
    requires Enabled(s, e) && InPass(s.pc) && InPass(Step(s, e).pc)
    ensures ServesTo(s.pc, TurnOf(s, e), CallOf(s, e), TimeoutBegins(s, e), Step(s, e).pc)
  {
    if e.NextWatch? {
      ServeTurn(s);
    } else {
      ServeOther(s, e);
    }
  }

  lemma ServeTurn(s: Loop)
    requires Enabled(s, NextWatch) && InPass(Step(s, NextWatch).pc)
    ensures ServesTo(s.pc, TurnOf(s, NextWatch), CallOf(s, NextWatch), TimeoutBegins(s, NextWatch), Step(s, NextWatch).pc)
  {
    var turns, fds := TurnOf(s, NextWatch), s.pc.ready.fds;
    assert turns[1..] == [] && Fds(turns) == [fds[0]];
    assert fds == [fds[0]] + fds[1..];
  }

  lemma ServeOther(s: Loop, e: Event)
    requires Enabled(s, e) && InPass(s.pc) && InPass(Step(s, e).pc) && !e.NextWatch?
    ensures ServesTo(s.pc, TurnOf(s, e), CallOf(s, e), TimeoutBegins(s, e), Step(s, e).pc)
  {
    assert TurnOf(s, e) == [] && Fds([]) + Step(s, e).pc.ready.fds == Step(s, e).pc.ready.fds;
  }

  lemma ServesOn(a: Pc, turn: seq<Turn>, call: seq<Fd>, m: nat, b: Pc, turns: seq<Turn>, calls: seq<Fd>, n: nat, c: Pc)
    requires InPass(a) && InPass(b) && InPass(c) && |turn| <= 1
    requires ServesTo(a, turn, call, m, b) && ServesTo(b, turns, calls, n, c)
    ensures ServesTo(a, turn + turns, call + calls, m + n, c)
  {
    HeadTurn(turn, turns);
    Regroup(Fds(turn), Fds(turns), c.ready.fds);
    assert call + calls == [] <==> call == [] && calls == [];
  }

  lemma Regroup(a: seq<Fd>, b: seq<Fd>, c: seq<Fd>)
    ensures a + (b + c) == a + b + c
  {
  }

  lemma HeadTurn(a: seq<Turn>, b: seq<Turn>)
    requires |a| <= 1
    ensures Fds(a + b) == Fds(a) + Fds(b) && Watched(a + b) == Watched(a) + Watched(b)
  {
    if a == [] {
      assert a + b == b;
    } else {
      assert (a + b)[1..] == b && a[1..] == [];
    }
  }

  lemma {:induction false} PassServesPart(s: Loop, es: seq<Event>, t: Loop)
    requires CanRun(s, es) && Run(s, es, t) && StaysInPass(s, es) && InPass(t.pc)
    ensures ServesTo(s.pc, Turns(s, es), WatchCalls(s, es), TimeoutsBegun(s, es), t.pc)
    decreases |es|
  {
    if es != [] {
      var next := Step(s, es[0]);
      ServeStep(s, es[0]);
      PassServesPart(next, es[1..], t);
      ServesOn(s.pc, TurnOf(s, es[0]), CallOf(s, es[0]), TimeoutBegins(s, es[0]), next.pc,
               Turns(next, es[1..]), WatchCalls(next, es[1..]), TimeoutsBegun(next, es[1..]), t.pc);
    }
  }

  // What a pass does with what poll reported, whatever else happens meanwhile: each reported
  // descriptor gets its turn, in order, and its callback is called exactly if it is watched then;
  // the idle pipe is read next exactly if poll found it readable and no timeout and no watch was called.
  lemma PassServes(s: Loop, fds: seq<Fd>, es: seq<Event>, t: Loop)
    requires Enabled(s, Wake(fds)) && CanRun(Step(s, Wake(fds)), es) && Run(Step(s, Wake(fds)), es, t)
    requires StaysInPass(Step(s, Wake(fds)), es) && t.pc.Watches? && t.pc.ready.fds == []
    ensures var woken := Step(s, Wake(fds));
      && fds == Fds(Turns(woken, es)) && WatchCalls(woken, es) == Watched(Turns(woken, es))
      && (Step(t, NextWatch).pc.Idles? <==>
            s.idles.pipe != [] && WatchCalls(woken, es) == [] && TimeoutsBegun(woken, es) == 0)
      && (Step(t, NextWatch).pc.Idles? || Step(t, NextWatch).pc.Rearm?)
  {
    var woken := Step(s, Wake(fds));
    Woken(s, fds);
    PassServesPart(woken, es, t);
    var turns := Turns(woken, es);
    assert Fds(turns) + t.pc.ready.fds == Fds(turns);
    ReportedOver(t);
  }

  lemma Woken(s: Loop, fds: seq<Fd>)
    requires Enabled(s, Wake(fds))
    ensures var pc := Step(s, Wake(fds)).pc; InPass(pc) && !Handled(pc) && pc.ready == Ready(fds, s.idles.pipe != [])
  {
  }

  lemma ReportedOver(s: Loop)
    requires s.pc.Watches? && s.pc.ready.fds == []
    ensures Step(s, NextWatch).pc == if !s.pc.handled && s.pc.ready.idle then Pc.Idles else Rearm
  {
  }

  // Once a timeout or a watch has been served, the pass does not read the idle pipe.
  predicate Served(pc: Pc) {
    match pc
    case Timeouts(handled, _) => handled
    case Watches(handled, _) => handled
    case TimeoutCallback(_, _) => true
    case WatchCallback(_, _) => true
    case Rearm => true
    case Done => true
    case _ => false
  }

  lemma {:induction false} ServedSkipsIdle(s: Loop, es: seq<Event>, t: Loop)
    requires Run(s, es, t) && Served(s.pc) && forall e <- es :: !e.WriteIdle?
    ensures IdleReads(es) == 0 && Served(t.pc)
    decreases |es|
  {
    if es != [] {
      assert es[0] in es && forall e <- es[1..] :: e in es;
      ServedSkipsIdle(Step(s, es[0]), es[1..], t);
    }
  }

  // Every pass, an interrupted one too, ends by writing an IDLE token if entries wait: the loop is at
  // its test as often as Run was called and passes have ended.
  function Starts(es: seq<Event>): nat {
    if es == [] then 0 else Count(es[0].StartRun?) + Starts(es[1..])
  }

  lemma {:induction false} PassesEnd(s: Loop, es: seq<Event>, t: Loop)
    requires Run(s, es, t)
    ensures LoopTests(es) + Count(t.pc.Top?) == Count(s.pc.Top?) + Starts(es) + Passes(es)
    decreases |es|
  {
    if es != [] {
      PassesEnd(Step(s, es[0]), es[1..], t);
    }
  }

  predicate MayHaveRead(pc: Pc) {
    pc.IdleCallback? || pc.Rearm?
  }

  // A pass reads the idle pipe at most once.
  lemma {:induction false} OneReadPerPass(s: Loop, es: seq<Event>, t: Loop)
    requires Run(s, es, t)
    ensures IdleReads(es) + Count(MayHaveRead(s.pc)) <= Passes(es) + Count(MayHaveRead(t.pc))
    decreases |es|
  {
    if es != [] {
      OneReadPerPass(Step(s, es[0]), es[1..], t);
    }
  }

  // ---------------------------------------------------------------- timers

  ghost predicate TimeoutEnds(s: Loop, es: seq<Event>, m: nat, id: Id, outcome: Outcome)
    requires CanRun(s, es)
  {
    m < |es| && es[m] == EndTimeout(outcome) && After(s, es, m).pc.TimeoutCallback? && After(s, es, m).pc.id == id
  }

  ghost function TimerInserted(es: seq<Event>, id: Id): iset<nat> {
    iset m: nat | m < |es| && es[m] == InsertTimeout(id)
  }

  ghost function TimerGone(s: Loop, es: seq<Event>, id: Id): iset<nat>
    requires CanRun(s, es)
  {
    iset m: nat | m < |es| && (es[m] == RemoveTimeout(id) || TimeoutEnds(s, es, m, id, Outcome.Remove))
  }

  // A timeout is registered exactly if its AddTimeout was completed and neither RemoveTimeout nor a
  // callback of it that returns REMOVE has followed.
  lemma {:induction false} RegisteredIff(firstId: Id, es: seq<Event>, n: nat, id: Id)
    requires CanRun(Initial(firstId), es) && n <= |es|
    ensures id in After(Initial(firstId), es, n).timers.table <==>
      Since(TimerInserted(es, id), TimerGone(Initial(firstId), es, id), n)
  {
    if n > 0 {
      RegisteredIff(firstId, es, n - 1, id);
      AfterStep(Initial(firstId), es, n - 1);
      SinceStep(TimerInserted(es, id), TimerGone(Initial(firstId), es, id), n - 1);
    }
  }

  ghost function TimerSet(s: Loop, es: seq<Event>, id: Id): iset<nat>
    requires CanRun(s, es)
  {
    iset m: nat | m < |es| && (Arms(s, es, m, id) || TimeoutEnds(s, es, m, id, Keep))
  }

  ghost function TimerUnset(s: Loop, es: seq<Event>, id: Id): iset<nat>
    requires CanRun(s, es)
  {
    iset m: nat | m < |es| && (es[m] == Fire(id) || (id in After(s, es, m).timers.table && m in TimerGone(s, es, id)))
  }

  // Its timer runs exactly if AddTimeout, or a callback that returns CONTINUE, has set it, and it has
  // neither fired nor been removed since.
  lemma ArmedStep(s: Loop, e: Event, id: Id)
    requires Enabled(s, e)
    ensures id in Step(s, e).timers.armed <==>
      || (e.ArmTimeout? && s.timers.nextId + e.skipped == id)
      || (e == EndTimeout(Keep) && s.pc.id == id)
      || (id in s.timers.armed && e != Fire(id)
          && !(id in s.timers.table && (e == RemoveTimeout(id) || (e == EndTimeout(Outcome.Remove) && s.pc.id == id))))
  {
  }

  lemma {:induction false} ArmedIff(firstId: Id, es: seq<Event>, n: nat, id: Id)
    requires CanRun(Initial(firstId), es) && n <= |es|
    ensures id in After(Initial(firstId), es, n).timers.armed <==>
      Since(TimerSet(Initial(firstId), es, id), TimerUnset(Initial(firstId), es, id), n)
  {
    if n > 0 {
      ArmedIff(firstId, es, n - 1, id);
      AfterStep(Initial(firstId), es, n - 1);
      ArmedStep(After(Initial(firstId), es, n - 1), es[n-1], id);
      SinceStep(TimerSet(Initial(firstId), es, id), TimerUnset(Initial(firstId), es, id), n - 1);
    }
  }

  // How many of the first n events are in the set.
  ghost function Number(events: iset<nat>, n: nat): nat {
    if n == 0 then 0 else Number(events, n - 1) + if n - 1 in events then 1 else 0
  }

  ghost function Fires(es: seq<Event>, id: Id): iset<nat> {
    iset m: nat | m < |es| && es[m] == Fire(id)
  }

  // The callback of this timeout begins: its token is read while it is registered.
  ghost function TimeoutCalls(s: Loop, es: seq<Event>, id: Id): iset<nat>
    requires CanRun(s, es)
  {
    iset m: nat | m < |es| && Takes(s, es, m, id) && id in After(s, es, m).timers.table
  }

  // The counters of the timer results are the numbers of firings and callbacks in the run.
  lemma {:induction false} FiringsCounted(firstId: Id, es: seq<Event>, n: nat, id: Id)
    requires TIMEOUT_START <= firstId && CanRun(Initial(firstId), es) && n <= |es|
    ensures After(Initial(firstId), es, n).timers.fired[id] == Number(Fires(es, id), n)
    ensures After(Initial(firstId), es, n).timers.called[id] == Number(TimeoutCalls(Initial(firstId), es, id), n)
  {
    if n > 0 {
      FiringsCounted(firstId, es, n - 1, id);
      AfterKeeps(firstId, es, n - 1);
      AfterStep(Initial(firstId), es, n - 1);
      OneFiring(After(Initial(firstId), es, n - 1), es[n-1], id);
    }
  }

  lemma OneFiring(s: Loop, e: Event, id: Id)
    requires Invariant(s) && Enabled(s, e)
    ensures Step(s, e).timers.fired[id] == s.timers.fired[id] + if e == Fire(id) then 1 else 0
    ensures Step(s, e).timers.called[id] == s.timers.called[id]
      + if e.ReadTimeout? && s.timers.pipe != [] && s.timers.pipe[0] == id && id in s.timers.table then 1 else 0
  {
    assert TimerAgrees(s.timers, Serving(s.pc), QUIT);
  }

  // A callback begins exactly at such a read.
  lemma TimeoutCallBegins(firstId: Id, es: seq<Event>, m: nat, id: Id)
    requires TIMEOUT_START <= firstId && CanRun(Initial(firstId), es) && m < |es|
    ensures var s := Initial(firstId);
      m in TimeoutCalls(s, es, id) <==>
        es[m].ReadTimeout? && After(s, es, m + 1).pc.TimeoutCallback? && After(s, es, m + 1).pc.id == id
  {
    AfterKeeps(firstId, es, m);
    AfterStep(Initial(firstId), es, m);
    var before := After(Initial(firstId), es, m);
    assert TimerAgrees(before.timers, Serving(before.pc), QUIT);
  }

  // ---------------------------------------------------------------- idle callbacks

  function AddedBy(es: seq<Event>): seq<Entry> {
    if es == [] then [] else AddedBy(es[..|es|-1]) + (if es[|es|-1].AddIdle? then [es[|es|-1].entry] else [])
  }

  // The entries whose callbacks have returned REMOVE.
  ghost function FinishedBy(s: Loop, es: seq<Event>, n: nat): seq<Entry>
    requires CanRun(s, es) && n <= |es|
  {
    if n == 0 then []
    else
      var before := After(s, es, n - 1);
      FinishedBy(s, es, n - 1)
      + (if es[n-1] == EndIdle(Outcome.Remove) && before.pc.IdleCallback? then [before.pc.entry] else [])
  }

  // The idle table holds the entries added and not finished, in order; an entry is finished exactly
  // when its callback returns REMOVE.
  lemma {:induction false} IdlesAre(firstId: Id, es: seq<Event>, n: nat)
    requires TIMEOUT_START <= firstId && CanRun(Initial(firstId), es) && n <= |es|
    ensures AddedBy(es[..n]) == FinishedBy(Initial(firstId), es, n) + After(Initial(firstId), es, n).idles.table
    ensures After(Initial(firstId), es, n).idles.added == AddedBy(es[..n])
    ensures After(Initial(firstId), es, n).idles.finished == FinishedBy(Initial(firstId), es, n)
  {
    AfterKeeps(firstId, es, n);
    if n > 0 {
      IdlesAre(firstId, es, n - 1);
      AfterKeeps(firstId, es, n - 1);
      AfterStep(Initial(firstId), es, n - 1);
      OneEntry(After(Initial(firstId), es, n - 1), es[n-1]);
      assert es[..n][..n-1] == es[..n-1] && es[..n][n-1] == es[n-1];
    }
  }

  lemma OneEntry(s: Loop, e: Event)
    requires Invariant(s) && Enabled(s, e)
    ensures Step(s, e).idles.added == s.idles.added + (if e.AddIdle? then [e.entry] else [])
    ensures Step(s, e).idles.finished ==
      s.idles.finished + (if e == EndIdle(Outcome.Remove) && s.pc.IdleCallback? then [s.pc.entry] else [])
  {
  }

  // An idle callback begins exactly when an IDLE token is read and an entry waits; it is the front one.
  lemma IdleCallBegins(s: Loop, es: seq<Event>, m: nat, entry: Entry)
    requires CanRun(s, es) && m < |es| && es[m].ReadIdle?
    ensures var before, after := After(s, es, m), After(s, es, m + 1);
      after.pc == IdleCallback(entry) <==>
        before.idles.pipe != [] && before.idles.pipe[0] == IDLE && before.idles.table != [] && before.idles.table[0] == entry
  {
    AfterStep(s, es, m);
  }

  // ---------------------------------------------------------------- the pipes

  ghost function TimeoutTokens(es: seq<Event>, n: nat): seq<int>
    requires n <= |es|
  {
    if n == 0 then []
    else TimeoutTokens(es, n - 1) + TimeoutToken(es[n-1])
  }

  function TimeoutToken(e: Event): seq<int> {
    match e
    case Fire(id) => [id]
    case QuitWrite => [QUIT]
    case _ => []
  }

  ghost function TimeoutsTaken(s: Loop, es: seq<Event>): iset<nat>
    requires CanRun(s, es)
  {
    iset m: nat | m < |es| && es[m].ReadTimeout? && After(s, es, m).timers.pipe != []
  }

  ghost predicate Remains(written: seq<int>, read: nat, pipe: seq<int>) {
    read <= |written| && pipe == written[read..]
  }

  lemma RemainsNext(written: seq<int>, read: nat, pipe: seq<int>, token: seq<int>, taken: bool)
    requires Remains(written, read, pipe) && (taken ==> pipe != [] && token == [])
    ensures Remains(written + token, read + if taken then 1 else 0, if taken then pipe[1..] else pipe + token)
  {
    if taken {
      assert written + token == written;
    } else {
      assert (written + token)[read..] == written[read..] + token;
    }
  }

  // The timeout pipe holds what firings and Quit have written, less what has been read, in order.
  lemma {:induction false} TimeoutPipeIs(firstId: Id, es: seq<Event>, n: nat)
    requires CanRun(Initial(firstId), es) && n <= |es|
    ensures Remains(TimeoutTokens(es, n), Number(TimeoutsTaken(Initial(firstId), es), n),
                    After(Initial(firstId), es, n).timers.pipe)
  {
    if n > 0 {
      TimeoutPipeIs(firstId, es, n - 1);
      AfterStep(Initial(firstId), es, n - 1);
      var before, taken := After(Initial(firstId), es, n - 1), TimeoutsTaken(Initial(firstId), es);
      TimeoutPipeStep(before, es[n-1]);
      RemainsNext(TimeoutTokens(es, n - 1), Number(taken, n - 1), before.timers.pipe, TimeoutToken(es[n-1]), n - 1 in taken);
    }
  }

  lemma TimeoutPipeStep(s: Loop, e: Event)
    requires Enabled(s, e)
    ensures Step(s, e).timers.pipe ==
      if e.ReadTimeout? && s.timers.pipe != [] then s.timers.pipe[1..]
      else s.timers.pipe + TimeoutToken(e)
  {
  }

  // What an event writes to the idle pipe: a removal only if there was something to remove, the end
  // of a pass only if entries wait.
  function TokenOf(s: Loop, e: Event): seq<int> {
    match e
    case AddIdle(_) => [IDLE]
    case AddWatch(_) => [PING]
    case RemoveWatch(fd) => if fd in s.watchTable then [PING] else []
    case EndWatch(outcome) => if outcome.Remove? && s.pc.WatchCallback? && s.pc.fd in s.watchTable then [PING] else []
    case WriteIdle => if s.idles.table != [] then [IDLE] else []
    case _ => []
  }

  ghost function IdleTokens(s: Loop, es: seq<Event>, n: nat): seq<int>
    requires CanRun(s, es) && n <= |es|
  {
    if n == 0 then [] else IdleTokens(s, es, n - 1) + TokenOf(After(s, es, n - 1), es[n-1])
  }

  ghost function IdlesTaken(s: Loop, es: seq<Event>): iset<nat>
    requires CanRun(s, es)
  {
    iset m: nat | m < |es| && es[m].ReadIdle? && After(s, es, m).idles.pipe != []
  }

  lemma {:induction false} IdlePipeIs(firstId: Id, es: seq<Event>, n: nat)
    requires CanRun(Initial(firstId), es) && n <= |es|
    ensures Remains(IdleTokens(Initial(firstId), es, n), Number(IdlesTaken(Initial(firstId), es), n),
                    After(Initial(firstId), es, n).idles.pipe)
  {
    if n > 0 {
      IdlePipeIs(firstId, es, n - 1);
      AfterStep(Initial(firstId), es, n - 1);
      var before, taken := After(Initial(firstId), es, n - 1), IdlesTaken(Initial(firstId), es);
      IdlePipeStep(before, es[n-1]);
      RemainsNext(IdleTokens(Initial(firstId), es, n - 1), Number(taken, n - 1), before.idles.pipe, TokenOf(before, es[n-1]),
                  n - 1 in taken);
    }
  }

  lemma IdlePipeStep(s: Loop, e: Event)
    requires Enabled(s, e)
    ensures Step(s, e).idles.pipe ==
      if e.ReadIdle? && s.idles.pipe != [] then s.idles.pipe[1..] else s.idles.pipe + TokenOf(s, e)
  {
  }

  // ---------------------------------------------------------------- the loop

  // The flag is set exactly if Run has been called and Quit has not yet cleared it.
  lemma {:induction false} RunningIff(firstId: Id, es: seq<Event>, n: nat)
    requires TIMEOUT_START <= firstId && CanRun(Initial(firstId), es) && n <= |es|
    ensures After(Initial(firstId), es, n).pc.NotStarted? <==> StartRun !in es[..n]
    ensures After(Initial(firstId), es, n).running <==> StartRun in es[..n] && QuitClear !in es[..n]
    ensures QuitClear in es[..n] ==> StartRun in es[..n]
  {
    if n > 0 {
      RunningIff(firstId, es, n - 1);
      AfterKeeps(firstId, es, n - 1);
      AfterStep(Initial(firstId), es, n - 1);
      assert es[..n] == es[..n-1] + [es[n-1]];
    }
  }

  // The loop leaves at a loop test after Quit has cleared the flag, or when it reads the QUIT token.
  ghost predicate Leaves(s: Loop, es: seq<Event>, m: nat)
    requires CanRun(s, es)
  {
    m < |es| && ((es[m].TestRunning? && QuitClear in es[..m]) || Takes(s, es, m, QUIT))
  }

  lemma {:induction false} DoneIff(firstId: Id, es: seq<Event>, n: nat)
    requires TIMEOUT_START <= firstId && CanRun(Initial(firstId), es) && n <= |es|
    ensures After(Initial(firstId), es, n).pc.Done? <==> exists m: nat :: m < n && Leaves(Initial(firstId), es, m)
  {
    if n > 0 {
      DoneIff(firstId, es, n - 1);
      RunningIff(firstId, es, n - 1);
      AfterStep(Initial(firstId), es, n - 1);
      if m: nat :| m < n - 1 && Leaves(Initial(firstId), es, m) {
        assert m < n && Leaves(Initial(firstId), es, m);
      }
      if After(Initial(firstId), es, n).pc.Done? && !After(Initial(firstId), es, n - 1).pc.Done? {
        assert n - 1 < n && Leaves(Initial(firstId), es, n - 1);
      }
    }
  }
}
