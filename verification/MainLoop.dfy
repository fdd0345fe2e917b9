/**
 * The event loop (common/PosixMainLoop.cc) as a state machine: one step per action that no other
 * thread can see half done. Callbacks, other threads and timer signals are the environment
 * events; they may come between any two steps of the loop thread.
 *
 * Pipes are unbounded FIFO sequences of tokens, timers are one-shot and always delivered.
 */
module MainLoop {
  import opened Results

  const QUIT: int := -1
  const PING: int := 0
  const IDLE: int := 1
  const TIMEOUT_START: int := 2

  type Fd = int
  type Id = int
  type Entry = nat   // an idle callback

  datatype Outcome = Keep | Remove   // AITT_LOOP_EVENT_CONTINUE, AITT_LOOP_EVENT_REMOVE

  // Where the loop thread is.
  datatype Pc =
    | NotStarted
    | Top
    | Collecting
    | Polling(polled: set<Fd>)
    | Timeouts(handled: bool, ready: Ready)
    | TimeoutCallback(id: Id, ready: Ready)
    | Watches(handled: bool, ready: Ready)
    | WatchCallback(fd: Fd, ready: Ready)
    | Idles
    | IdleCallback(entry: Entry)
    | Rearm
    | Done

  // What poll() reported besides the timeout pipe: watches still to serve, idle pipe readable.
  datatype Ready = Ready(fds: seq<Fd>, idle: bool)

  // `fired`, `called` and `dropped` count what has happened to each id so far; `lost` holds the
  // timers whose token was read between SetTimer and the table insert.
  datatype Timers = Timers(
    table: set<Id>, arming: set<Id>, armed: set<Id>, pipe: seq<int>, nextId: Id,
    fired: multiset<Id>, called: multiset<Id>, dropped: multiset<Id>, lost: set<Id>)

  // `added` and `finished` list the entries in the order they came and went.
  datatype Idles = Idles(table: seq<Entry>, pipe: seq<int>, added: seq<Entry>, finished: seq<Entry>)

  datatype Loop = Loop(pc: Pc, running: bool, quitting: bool, timers: Timers, idles: Idles, watchTable: set<Fd>)

  predicate IsEnvironment(e: Event) {
    e.AddIdle? || e.AddWatch? || e.RemoveWatch? || e.ArmTimeout? || e.InsertTimeout?
    || e.RemoveTimeout? || e.Fire? || e.QuitClear? || e.QuitWrite?
  }

  datatype Event =
    // environment
    | AddIdle(entry: Entry)
    | AddWatch(fd: Fd)
    | RemoveWatch(fd: Fd)
    | ArmTimeout(skipped: nat)   // AddTimeout up to SetTimer; `skipped` ids went to other loops
    | InsertTimeout(id: Id)      // AddTimeout from there on
    | RemoveTimeout(id: Id)
    | Fire(id: Id)
    | QuitClear
    | QuitWrite
    // the loop thread
    | StartRun
    | TestRunning
    | CollectWatches
    | Wake(fds: seq<Fd>)
    | Interrupted
    | ReadTimeout
    | EndTimeout(outcome: Outcome)
    | NextWatch
    | EndWatch(outcome: Outcome)
    | ReadIdle
    | EndIdle(outcome: Outcome)
    | WriteIdle

  function Initial(firstId: Id): Loop {
    Loop(NotStarted, false, false,
         Timers({}, {}, {}, [], firstId, multiset{}, multiset{}, multiset{}, {}), Idles.Idles([], [], [], []), {})
  }

  predicate Enabled(s: Loop, e: Event) {
    match e
    case AddIdle(_) => true
    case AddWatch(_) => true
    case RemoveWatch(_) => true
    case ArmTimeout(_) => true
    case InsertTimeout(id) => id in s.timers.arming
    case RemoveTimeout(_) => true
    case Fire(id) => id in s.timers.armed
    case QuitClear => s.running
    case QuitWrite => s.quitting
    case StartRun => s.pc.NotStarted?
    case TestRunning => s.pc.Top?
    case CollectWatches => s.pc.Collecting?
    case Wake(fds) =>
      && s.pc.Polling?
      && (forall fd <- fds :: fd in s.pc.polled)
      && (s.timers.pipe != [] || s.idles.pipe != [] || fds != [])
    case Interrupted => s.pc.Polling?
    case ReadTimeout => s.pc.Timeouts?
    // continuing a timeout that was removed during its callback would use the freed record
    case EndTimeout(outcome) => s.pc.TimeoutCallback? && (outcome.Keep? ==> s.pc.id in s.timers.table)
    case NextWatch => s.pc.Watches?
    case EndWatch(_) => s.pc.WatchCallback?
    case ReadIdle => s.pc.Idles?
    case EndIdle(_) => s.pc.IdleCallback?
    case WriteIdle => s.pc.Rearm?
  }

  function Step(s: Loop, e: Event): Loop
    requires Enabled(s, e)
  {
    match e
    case AddIdle(entry) => s.(idles := Append(s.idles, entry))
    case AddWatch(fd) => s.(watchTable := s.watchTable + {fd}, idles := Write(s.idles, PING))
    case RemoveWatch(fd) => WithoutWatch(s, fd)
    case ArmTimeout(skipped) => s.(timers := Arm(s.timers, s.timers.nextId + skipped))
    case InsertTimeout(id) => s.(timers := Insert(s.timers, id))
    case RemoveTimeout(id) => s.(timers := Delete(s.timers, id))
    case Fire(id) => s.(timers := Ring(s.timers, id))
    case QuitClear => s.(running := false, quitting := true)
    case QuitWrite => s.(quitting := false, timers := s.timers.(pipe := s.timers.pipe + [QUIT]))
    case StartRun => s.(pc := Top, running := true)
    case TestRunning => s.(pc := if s.running then Collecting else Done)
    case CollectWatches => s.(pc := Polling(s.watchTable))
    case Wake(fds) =>
      var ready := Ready(fds, s.idles.pipe != []);
      s.(pc := if s.timers.pipe != [] then Timeouts(false, ready) else Watches(false, ready))
    case Interrupted => s.(pc := Rearm)
    case ReadTimeout =>
      if s.timers.pipe == [] then s.(pc := Watches(s.pc.handled, s.pc.ready))
      else
        var token := s.timers.pipe[0];
        s.(timers := Take(s.timers),
           pc := if token == QUIT then Done
                 else if token in s.timers.table then TimeoutCallback(token, s.pc.ready)
                 else s.pc)
    case EndTimeout(outcome) =>
      s.(pc := Timeouts(true, s.pc.ready),
         timers := if outcome.Remove? then Delete(s.timers, s.pc.id) else Rearmed(s.timers, s.pc.id))
    case NextWatch =>
      var Watches(handled, ready) := s.pc;
      if ready.fds == [] then s.(pc := if !handled && ready.idle then Pc.Idles else Rearm)
      else if ready.fds[0] in s.watchTable then s.(pc := WatchCallback(ready.fds[0], ready.(fds := ready.fds[1..])))
      else s.(pc := Watches(handled, ready.(fds := ready.fds[1..])))
    case EndWatch(outcome) =>
      var s' := s.(pc := Watches(true, s.pc.ready));
      if outcome.Remove? then WithoutWatch(s', s.pc.fd) else s'
    case ReadIdle =>
      if s.idles.pipe == [] then s.(pc := Rearm)
      else
        s.(idles := s.idles.(pipe := s.idles.pipe[1..]),
           pc := if s.idles.pipe[0] == IDLE && s.idles.table != [] then IdleCallback(s.idles.table[0]) else Rearm)
    case EndIdle(outcome) =>
      s.(pc := Rearm, idles := if outcome.Remove? then PopFront(s.idles, s.pc.entry) else s.idles)
    case WriteIdle => s.(pc := Top, idles := if s.idles.table != [] then Write(s.idles, IDLE) else s.idles)
  }

  function Serving(pc: Pc): Option<Id> {
    if pc.TimeoutCallback? then Some(pc.id) else None
  }

  function Write(i: Idles, token: int): Idles {
    i.(pipe := i.pipe + [token])
  }

  function Append(i: Idles, entry: Entry): Idles {
    Write(i, IDLE).(table := i.table + [entry], added := i.added + [entry])
  }

  function PopFront(i: Idles, entry: Entry): Idles {
    if i.table == [] then i else i.(table := i.table[1..], finished := i.finished + [entry])
  }

  function WithoutWatch(s: Loop, fd: Fd): Loop {
    if fd in s.watchTable then s.(watchTable := s.watchTable - {fd}, idles := Write(s.idles, PING)) else s
  }

  function Arm(t: Timers, id: Id): Timers {
    t.(arming := t.arming + {id}, armed := t.armed + {id}, nextId := id + 1)
  }

  function Insert(t: Timers, id: Id): Timers {
    t.(arming := t.arming - {id}, table := t.table + {id})
  }

  // Deleting the entry deletes its timer; tokens already written stay in the pipe.
  function Delete(t: Timers, id: Id): Timers {
    if id in t.table then t.(table := t.table - {id}, armed := t.armed - {id}) else t
  }

  function Rearmed(t: Timers, id: Id): Timers {
    t.(armed := t.armed + {id})
  }

  function Ring(t: Timers, id: Id): Timers {
    t.(armed := t.armed - {id}, pipe := t.pipe + [id], fired := t.fired[id := t.fired[id] + 1])
  }

  function Take(t: Timers): Timers
    requires t.pipe != []
  {
    var token, t' := t.pipe[0], t.(pipe := t.pipe[1..]);
    if token == QUIT then t'
    else if token in t.table then t'.(called := t.called[token := t.called[token] + 1])
    else t'.(dropped := t.dropped[token := t.dropped[token] + 1],
             lost := if token in t.arming then t.lost + {token} else t.lost)
  }

  ghost predicate Run(s: Loop, es: seq<Event>, t: Loop)
    decreases |es|
  {
    if es == [] then s == t else Enabled(s, es[0]) && Run(Step(s, es[0]), es[1..], t)
  }

  // ---------------------------------------------------------------- timers

  function Tokens(pipe: seq<int>, id: Id): nat {
    if pipe == [] then 0 else (if pipe[0] == id then 1 else 0) + Tokens(pipe[1..], id)
  }

  // Places from which a callback of `id` can still come: its timer, its token, or it is running.
  function Live(t: Timers, serving: Option<Id>, id: Id): nat {
    (if id in t.armed then 1 else 0) + Tokens(t.pipe, id) + (if serving == Some(id) then 1 else 0)
  }

  ghost predicate TimerAgrees(t: Timers, serving: Option<Id>, id: Id) {
    if id < TIMEOUT_START then
      && id !in t.table && id !in t.arming && id !in t.armed && serving != Some(id)
      && (id != QUIT ==> Tokens(t.pipe, id) == 0)
    else
      && Live(t, serving, id) <= 1
      && (id in t.armed ==> id in t.table || id in t.arming)
      && (serving == Some(id) ==> id !in t.arming)
      && !(id in t.table && id in t.arming)
      // a registered timer is live unless its token came too early; no token of it was thrown away
      && (id in t.table || id in t.arming ==>
            if id in t.lost then Live(t, serving, id) == 0 else Live(t, serving, id) == 1 && t.dropped[id] == 0)
      // every firing is an unread token, a callback or a token of a timer no longer registered
      && t.fired[id] == t.called[id] + t.dropped[id] + Tokens(t.pipe, id)
      && (id >= t.nextId ==>
            && id !in t.table && id !in t.arming && id !in t.lost
            && Live(t, serving, id) == 0 && t.fired[id] == 0)
  }

  ghost predicate TimersAgree(t: Timers, serving: Option<Id>) {
    TIMEOUT_START <= t.nextId && forall id :: TimerAgrees(t, serving, id)
  }

  lemma {:induction false} TokensAppend(pipe: seq<int>, token: int, id: Id)
    ensures Tokens(pipe + [token], id) == Tokens(pipe, id) + (if token == id then 1 else 0)
  {
    if pipe != [] {
      assert (pipe + [token])[1..] == pipe[1..] + [token];
      TokensAppend(pipe[1..], token, id);
    }
  }

  // Reading a token: the timer it belongs to loses a token and gains a callback, or the token is dropped.
  lemma TakeKeepsTimers(t: Timers)
    requires TimersAgree(t, None) && t.pipe != []
    ensures TimersAgree(Take(t), if t.pipe[0] in t.table then Some(t.pipe[0]) else None)
  {
    var token := t.pipe[0];
    assert TimerAgrees(t, None, token);
    var serving := if token in t.table then Some(token) else None;
    forall id ensures TimerAgrees(Take(t), serving, id) {
      assert TimerAgrees(t, None, id);
    }
  }

  lemma RingKeepsTimers(t: Timers, serving: Option<Id>, fired: Id)
    requires TimersAgree(t, serving) && fired in t.armed
    ensures TimersAgree(Ring(t, fired), serving)
  {
    assert TimerAgrees(t, serving, fired);
    forall id ensures TimerAgrees(Ring(t, fired), serving, id) {
      assert TimerAgrees(t, serving, id);
      TokensAppend(t.pipe, fired, id);
    }
  }

  lemma QuitKeepsTimers(t: Timers, serving: Option<Id>)
    requires TimersAgree(t, serving)
    ensures TimersAgree(t.(pipe := t.pipe + [QUIT]), serving)
  {
    var t' := t.(pipe := t.pipe + [QUIT]);
    forall id ensures TimerAgrees(t', serving, id) {
      assert TimerAgrees(t, serving, id);
      TokensAppend(t.pipe, QUIT, id);
    }
  }

  lemma ArmKeepsTimers(t: Timers, serving: Option<Id>, newId: Id)
    requires TimersAgree(t, serving) && newId >= t.nextId
    ensures TimersAgree(Arm(t, newId), serving)
  {
    assert TimerAgrees(t, serving, newId);
    forall id ensures TimerAgrees(Arm(t, newId), serving, id) {
      assert TimerAgrees(t, serving, id);
    }
  }

  lemma InsertKeepsTimers(t: Timers, serving: Option<Id>, armed: Id)
    requires TimersAgree(t, serving) && armed in t.arming
    ensures TimersAgree(Insert(t, armed), serving)
  {
    forall id ensures TimerAgrees(Insert(t, armed), serving, id) {
      assert TimerAgrees(t, serving, id);
    }
  }

  lemma DeleteKeepsTimers(t: Timers, serving: Option<Id>, gone: Id)
    requires TimersAgree(t, serving)
    ensures TimersAgree(Delete(t, gone), serving)
    ensures serving == Some(gone) ==> TimersAgree(Delete(t, gone), None)
  {
    forall id ensures TimerAgrees(Delete(t, gone), serving, id) {
      assert TimerAgrees(t, serving, id);
    }
    if serving == Some(gone) {
      forall id ensures TimerAgrees(Delete(t, gone), None, id) {
        assert TimerAgrees(t, serving, id);
      }
    }
  }

  lemma RearmedKeepsTimers(t: Timers, served: Id)
    requires TimersAgree(t, Some(served)) && served in t.table
    ensures TimersAgree(Rearmed(t, served), None)
  {
    forall id ensures TimerAgrees(Rearmed(t, served), None, id) {
      assert TimerAgrees(t, Some(served), id);
    }
  }

  lemma TimersStep(s: Loop, e: Event)
    requires TimersAgree(s.timers, Serving(s.pc)) && Enabled(s, e)
    ensures TimersAgree(Step(s, e).timers, Serving(Step(s, e).pc))
  {
    match e
    case ArmTimeout(skipped) => ArmKeepsTimers(s.timers, Serving(s.pc), s.timers.nextId + skipped);
    case InsertTimeout(id) => InsertKeepsTimers(s.timers, Serving(s.pc), id);
    case RemoveTimeout(id) => DeleteKeepsTimers(s.timers, Serving(s.pc), id);
    case EndTimeout(outcome) =>
      if outcome.Remove? {
        assert TimerAgrees(s.timers, Serving(s.pc), s.pc.id);
        DeleteKeepsTimers(s.timers, Serving(s.pc), s.pc.id);
      } else {
        RearmedKeepsTimers(s.timers, s.pc.id);
      }
    case Fire(id) => RingKeepsTimers(s.timers, Serving(s.pc), id);
    case QuitWrite => QuitKeepsTimers(s.timers, Serving(s.pc));
    case ReadTimeout =>
      if s.timers.pipe != [] {
        assert TimerAgrees(s.timers, None, s.timers.pipe[0]);
        TakeKeepsTimers(s.timers);
      }
    case _ =>
  }

  // ---------------------------------------------------------------- wake-ups and idle order

  ghost predicate AboutToPoll(pc: Pc) {
    pc.NotStarted? || pc.Top? || pc.Collecting? || pc.Polling?
  }

  ghost predicate WakesUp(s: Loop) {
    && (AboutToPoll(s.pc) && s.idles.table != [] ==> IDLE in s.idles.pipe)
    && (s.pc.Polling? && s.pc.polled != s.watchTable ==> PING in s.idles.pipe)
    && (s.pc.NotStarted? ==> !s.running && !s.quitting)
    && (s.pc != NotStarted && s.pc != Done && !s.running ==> s.quitting || QUIT in s.timers.pipe)
  }

  ghost predicate IdleInOrder(s: Loop) {
    && s.idles.added == s.idles.finished + s.idles.table
    && (s.pc.IdleCallback? ==> s.idles.table != [] && s.idles.table[0] == s.pc.entry)
  }

  lemma WakesUpStep(s: Loop, e: Event)
    requires WakesUp(s) && Enabled(s, e)
    ensures WakesUp(Step(s, e))
  {
    if IsEnvironment(e) {
      WakesUpMeanwhile(s, e);
    } else if e.ReadTimeout? {
      if s.timers.pipe != [] {
        assert s.timers.pipe == [s.timers.pipe[0]] + s.timers.pipe[1..];
      }
    } else if e.ReadIdle? || e.EndIdle? || e.WriteIdle? {
      WakesUpIdle(s, e);
    } else {
      WakesUpInLoop(s, e);
    }
  }

  lemma WakesUpMeanwhile(s: Loop, e: Event)
    requires WakesUp(s) && Enabled(s, e) && IsEnvironment(e)
    ensures WakesUp(Step(s, e))
  {
  }

  lemma WakesUpInLoop(s: Loop, e: Event)
    requires WakesUp(s) && Enabled(s, e) && !IsEnvironment(e) && !e.ReadTimeout?
    requires !e.ReadIdle? && !e.EndIdle? && !e.WriteIdle?
    ensures WakesUp(Step(s, e))
  {
  }

  lemma WakesUpIdle(s: Loop, e: Event)
    requires WakesUp(s) && Enabled(s, e) && (e.ReadIdle? || e.EndIdle? || e.WriteIdle?)
    ensures WakesUp(Step(s, e))
  {
  }

  lemma IdleInOrderStep(s: Loop, e: Event)
    requires IdleInOrder(s) && Enabled(s, e)
    ensures IdleInOrder(Step(s, e))
  {
    match e
    case AddIdle(entry) =>
      assert s.idles.finished + (s.idles.table + [entry]) == s.idles.finished + s.idles.table + [entry];
    case EndIdle(_) =>
      assert s.idles.finished + s.idles.table == s.idles.finished + [s.idles.table[0]] + s.idles.table[1..];
    case _ =>
  }

  // ---------------------------------------------------------------- every run

  ghost predicate Invariant(s: Loop) {
    TimersAgree(s.timers, Serving(s.pc)) && WakesUp(s) && IdleInOrder(s)
  }

  lemma {:induction false} RunKeepsInvariant(s: Loop, es: seq<Event>, t: Loop)
    requires Invariant(s) && Run(s, es, t)
    ensures Invariant(t)
    decreases |es|
  {
    if es != [] {
      TimersStep(s, es[0]);
      WakesUpStep(s, es[0]);
      IdleInOrderStep(s, es[0]);
      RunKeepsInvariant(Step(s, es[0]), es[1..], t);
    }
  }

  lemma {:induction false} Reachable(firstId: Id, es: seq<Event>, t: Loop)
    requires TIMEOUT_START <= firstId && Run(Initial(firstId), es, t)
    ensures Invariant(t)
  {
    RunKeepsInvariant(Initial(firstId), es, t);
  }

  // ---------------------------------------------------------------- tokens read too early

  ghost predicate CanRun(s: Loop, es: seq<Event>)
    decreases |es|
  {
    es != [] ==> Enabled(s, es[0]) && CanRun(Step(s, es[0]), es[1..])
  }

  // The state after the first n events.
  ghost function After(s: Loop, es: seq<Event>, n: nat): Loop
    requires n <= |es| && CanRun(s, es)
    decreases n
  {
    if n == 0 then s else After(Step(s, es[0]), es[1..], n - 1)
  }

  lemma {:induction false} RunIsAfter(s: Loop, es: seq<Event>, t: Loop)
    requires Run(s, es, t)
    ensures CanRun(s, es) && After(s, es, |es|) == t
    decreases |es|
  {
    if es != [] {
      RunIsAfter(Step(s, es[0]), es[1..], t);
    }
  }

  lemma {:induction false} AfterStep(s: Loop, es: seq<Event>, n: nat)
    requires n < |es| && CanRun(s, es)
    ensures Enabled(After(s, es, n), es[n]) && After(s, es, n + 1) == Step(After(s, es, n), es[n])
    decreases n
  {
    if n > 0 {
      AfterStep(Step(s, es[0]), es[1..], n - 1);
    }
  }

  lemma {:induction false} AfterKeeps(firstId: Id, es: seq<Event>, n: nat)
    requires TIMEOUT_START <= firstId && CanRun(Initial(firstId), es) && n <= |es|
    ensures Invariant(After(Initial(firstId), es, n))
  {
    if n > 0 {
      AfterKeeps(firstId, es, n - 1);
      AfterStep(Initial(firstId), es, n - 1);
      var s := After(Initial(firstId), es, n - 1);
      TimersStep(s, es[n-1]);
      WakesUpStep(s, es[n-1]);
      IdleInOrderStep(s, es[n-1]);
    }
  }

  // AddTimeout arms the timer of this id.
  ghost predicate Arms(s: Loop, es: seq<Event>, a: nat, id: Id)
    requires CanRun(s, es)
  {
    a < |es| && es[a].ArmTimeout? && After(s, es, a).timers.nextId + es[a].skipped == id
  }

  // The loop takes a token of this id from the pipe.
  ghost predicate Takes(s: Loop, es: seq<Event>, m: nat, id: Id)
    requires CanRun(s, es)
  {
    m < |es| && es[m].ReadTimeout? && After(s, es, m).timers.pipe != [] && After(s, es, m).timers.pipe[0] == id
  }

  // Among the first n events a token of `id` is taken between the two halves of AddTimeout.
  ghost predicate TakenEarly(s: Loop, es: seq<Event>, n: nat, id: Id)
    requires CanRun(s, es) && n <= |es|
  {
    exists a: nat, m: nat :: a < m < n && Arms(s, es, a, id) && Takes(s, es, m, id) && InsertTimeout(id) !in es[a..m]
  }

  ghost predicate Arming(s: Loop, es: seq<Event>, n: nat, id: Id)
    requires CanRun(s, es) && n <= |es|
  {
    exists a: nat :: OpenSince(s, es, a, n, id)
  }

  ghost predicate OpenSince(s: Loop, es: seq<Event>, a: nat, n: nat, id: Id)
    requires CanRun(s, es) && n <= |es|
  {
    a < n && Arms(s, es, a, id) && InsertTimeout(id) !in es[a..n]
  }

  // An id is being armed exactly while the run has its AddTimeout half done.
  lemma {:induction false} ArmingIffOpen(firstId: Id, es: seq<Event>, n: nat, id: Id)
    requires CanRun(Initial(firstId), es) && n <= |es|
    ensures id in After(Initial(firstId), es, n).timers.arming <==> Arming(Initial(firstId), es, n, id)
  {
    if n > 0 {
      ArmingIffOpen(firstId, es, n - 1, id);
      OpenStep(Initial(firstId), es, n - 1, id);
      ArmingStep(Initial(firstId), es, n - 1, id);
    }
  }

  lemma ArmingStep(s: Loop, es: seq<Event>, n: nat, id: Id)
    requires CanRun(s, es) && n < |es|
    ensures id in After(s, es, n + 1).timers.arming <==>
      Arms(s, es, n, id) || (id in After(s, es, n).timers.arming && es[n] != InsertTimeout(id))
  {
    AfterStep(s, es, n);
  }

  lemma OpenStep(s: Loop, es: seq<Event>, n: nat, id: Id)
    requires CanRun(s, es) && n < |es|
    ensures Arming(s, es, n + 1, id) <==> Arms(s, es, n, id) || (Arming(s, es, n, id) && es[n] != InsertTimeout(id))
  {
    forall a: nat ensures OpenSince(s, es, a, n + 1, id) <==>
      if a == n then Arms(s, es, n, id) else OpenSince(s, es, a, n, id) && es[n] != InsertTimeout(id)
    {
      if a <= n {
        assert es[a..n+1] == es[a..n] + [es[n]];
      }
    }
    if Arming(s, es, n + 1, id) {
      var a: nat :| OpenSince(s, es, a, n + 1, id);
      assert a == n || OpenSince(s, es, a, n, id);
    }
    if Arming(s, es, n, id) && es[n] != InsertTimeout(id) {
      var a: nat :| OpenSince(s, es, a, n, id);
      assert OpenSince(s, es, a, n + 1, id);
    }
    if Arms(s, es, n, id) {
      assert OpenSince(s, es, n, n + 1, id);
    }
  }

  // A timer is lost exactly when one of its tokens was taken too early.
  lemma {:induction false} LostIffTakenEarly(firstId: Id, es: seq<Event>, n: nat, id: Id)
    requires TIMEOUT_START <= firstId && CanRun(Initial(firstId), es) && n <= |es|
    ensures id in After(Initial(firstId), es, n).timers.lost <==> TakenEarly(Initial(firstId), es, n, id)
  {
    if n > 0 {
      LostIffTakenEarly(firstId, es, n - 1, id);
      ArmingIffOpen(firstId, es, n - 1, id);
      LostStep(firstId, es, n - 1, id);
      TakenEarlyStep(Initial(firstId), es, n - 1, id);
    }
  }

  lemma LostStep(firstId: Id, es: seq<Event>, n: nat, id: Id)
    requires TIMEOUT_START <= firstId && CanRun(Initial(firstId), es) && n < |es|
    ensures var s := Initial(firstId);
      id in After(s, es, n + 1).timers.lost <==>
        id in After(s, es, n).timers.lost || (Takes(s, es, n, id) && id in After(s, es, n).timers.arming)
  {
    var s := After(Initial(firstId), es, n);
    AfterStep(Initial(firstId), es, n);
    AfterKeeps(firstId, es, n);
    if es[n].ReadTimeout? && s.timers.pipe != [] {
      assert TimerAgrees(s.timers, None, s.timers.pipe[0]);
    }
  }

  lemma TakenEarlyStep(s: Loop, es: seq<Event>, n: nat, id: Id)
    requires CanRun(s, es) && n < |es|
    ensures TakenEarly(s, es, n + 1, id) <==> TakenEarly(s, es, n, id) || (Takes(s, es, n, id) && Arming(s, es, n, id))
  {
    if TakenEarly(s, es, n + 1, id) {
      var a: nat, m: nat :| a < m < n + 1 && Arms(s, es, a, id) && Takes(s, es, m, id) && InsertTimeout(id) !in es[a..m];
      assert m == n ==> OpenSince(s, es, a, n, id);
    }
    if TakenEarly(s, es, n, id) {
      var a: nat, m: nat :| a < m < n && Arms(s, es, a, id) && Takes(s, es, m, id) && InsertTimeout(id) !in es[a..m];
      assert a < m < n + 1;
    }
    if Takes(s, es, n, id) && Arming(s, es, n, id) {
      var a: nat :| OpenSince(s, es, a, n, id);
      assert a < n < n + 1;
    }
  }

  // In every interleaving: a registered timer has exactly one of armed timer, unread token and
  // running callback, and one callback per token read, exactly unless a token of it was taken
  // between the two halves of AddTimeout. Then it has none of them and never calls back.
  lemma TimerConservation(firstId: Id, es: seq<Event>, t: Loop, id: Id)
    requires TIMEOUT_START <= firstId && Run(Initial(firstId), es, t)
    requires id in t.timers.table
    ensures CanRun(Initial(firstId), es)
    ensures Live(t.timers, Serving(t.pc), id) == if TakenEarly(Initial(firstId), es, |es|, id) then 0 else 1
    ensures !TakenEarly(Initial(firstId), es, |es|, id) ==>
      t.timers.fired[id] == t.timers.called[id] + Tokens(t.timers.pipe, id)
  {
    Reachable(firstId, es, t);
    RunIsAfter(Initial(firstId), es, t);
    LostIffTakenEarly(firstId, es, |es|, id);
    assert TimerAgrees(t.timers, Serving(t.pc), id);
  }

  // Ids are not handed out twice.
  lemma {:induction false} NextIdGrows(s: Loop, es: seq<Event>, a: nat, n: nat)
    requires CanRun(s, es) && a <= n <= |es|
    ensures After(s, es, a).timers.nextId <= After(s, es, n).timers.nextId
    ensures a < n && es[a].ArmTimeout? ==>
      After(s, es, a).timers.nextId + es[a].skipped < After(s, es, n).timers.nextId
    decreases n
  {
    if a < n {
      AfterStep(s, es, n - 1);
      AfterStep(s, es, a);
      NextIdGrows(s, es, a, n - 1);
    }
  }

  lemma ArmedOnce(s: Loop, es: seq<Event>, a: nat, a': nat, id: Id)
    requires CanRun(s, es) && Arms(s, es, a, id) && Arms(s, es, a', id)
    ensures a == a'
  {
    if a < a' {
      NextIdGrows(s, es, a, a');
    } else if a' < a {
      NextIdGrows(s, es, a', a);
    }
  }

  // What a caller of AddTimeout can see to: the call is made on the loop thread, so that nothing
  // but other threads come between its halves, or before Run. Then the timer is never lost.
  lemma SafeAddTimeout(firstId: Id, es: seq<Event>, a: nat, b: nat, id: Id)
    requires TIMEOUT_START <= firstId && CanRun(Initial(firstId), es)
    requires Arms(Initial(firstId), es, a, id) && a < b < |es| && es[b] == InsertTimeout(id)
    requires (forall m :: a < m < b ==> IsEnvironment(es[m])) || StartRun !in es[..b]
    ensures !TakenEarly(Initial(firstId), es, |es|, id)
  {
    var s := Initial(firstId);
    forall m: nat | a < m < b && Takes(s, es, m, id) ensures IsEnvironment(es[m]) {
      if StartRun !in es[..b] {
        NotYetStarted(firstId, es, b, m);
        AfterStep(s, es, m);
        assert false;
      }
    }
    forall m: nat | b < m < |es| ensures InsertTimeout(id) in es[a..m] {
      assert es[a..m][b - a] == InsertTimeout(id);
    }
    forall a': nat, m: nat | Arms(s, es, a', id) && Takes(s, es, m, id) && a' < m
      ensures InsertTimeout(id) in es[a'..m]
    {
      ArmedOnce(s, es, a, a', id);
    }
  }

  lemma {:induction false} NotYetStarted(firstId: Id, es: seq<Event>, b: nat, m: nat)
    requires CanRun(Initial(firstId), es) && m <= b <= |es| && StartRun !in es[..b]
    ensures After(Initial(firstId), es, m).pc.NotStarted?
  {
    if m > 0 {
      NotYetStarted(firstId, es, b, m - 1);
      AfterStep(Initial(firstId), es, m - 1);
      assert es[..b][m - 1] == es[m - 1];
    }
  }

  // Registered and fired, but without a timer, a token or a callback.
  ghost predicate EarlyTaken(t: Loop, id: Id) {
    id in t.timers.table && t.timers.fired[id] == 1 && t.timers.called[id] == 0 && Live(t.timers, Serving(t.pc), id) == 0
  }

  lemma RunOf(s: Loop, s': Loop, e: Event, rest: seq<Event>, t: Loop)
    requires Enabled(s, e) && s' == Step(s, e) && Run(s', rest, t)
    ensures Run(s, [e] + rest, t)
  {
    assert ([e] + rest)[1..] == rest;
  }

  // ---------------------------------------------------------------- early tokens from anywhere

  // While the loop runs, nobody has written QUIT.
  ghost predicate NoQuitYet(s: Loop) {
    && (s.running || s.pc.NotStarted? ==> QUIT !in s.timers.pipe && !s.quitting && !s.pc.Done?)
    && (s.pc.NotStarted? ==> !s.running)
  }

  lemma NoQuitYetStep(s: Loop, e: Event)
    requires NoQuitYet(s) && Enabled(s, e) && (e.Fire? ==> e.id != QUIT)
    ensures NoQuitYet(Step(s, e))
  {
    if e.ReadTimeout? && s.timers.pipe != [] {
      assert s.timers.pipe == [s.timers.pipe[0]] + s.timers.pipe[1..];
    }
  }

  lemma {:induction false} RunningHasNoQuit(firstId: Id, es: seq<Event>, n: nat)
    requires TIMEOUT_START <= firstId && CanRun(Initial(firstId), es) && n <= |es|
    ensures NoQuitYet(After(Initial(firstId), es, n))
  {
    if n > 0 {
      RunningHasNoQuit(firstId, es, n - 1);
      AfterKeeps(firstId, es, n - 1);
      AfterStep(Initial(firstId), es, n - 1);
      var s, e := After(Initial(firstId), es, n - 1), es[n-1];
      if e.Fire? {
        assert TimerAgrees(s.timers, Serving(s.pc), e.id);
      }
      NoQuitYetStep(s, e);
    }
  }

  // An armed timer has fired before it was entered; its token is on its way to the loop.
  ghost predicate Rushed(s: Loop, id: Id) {
    && s.running && QUIT !in s.timers.pipe && !s.pc.NotStarted? && !s.pc.Done?
    && id in s.timers.arming && id !in s.timers.table && id in s.timers.pipe && id >= TIMEOUT_START
    && s.timers.fired[id] == 1 && s.timers.called[id] == 0
  }

  // Next step of the loop thread, on the shortest way to its next look at the timeout pipe.
  function LoopEvent(pc: Pc): Event {
    match pc
    case Top => TestRunning
    case Collecting => CollectWatches
    case Polling(_) => Wake([])
    case Timeouts(_, _) => ReadTimeout
    case TimeoutCallback(_, _) => EndTimeout(Outcome.Remove)
    case Watches(_, _) => NextWatch
    case WatchCallback(_, _) => EndWatch(Keep)
    case Idles => ReadIdle
    case IdleCallback(_) => EndIdle(Keep)
    case _ => WriteIdle
  }

  // How far that is.
  function Distance(pc: Pc): nat {
    match pc
    case Timeouts(_, _) => 0
    case TimeoutCallback(_, _) => 1
    case Polling(_) => 2
    case Collecting => 3
    case Top => 4
    case Rearm => 5
    case IdleCallback(_) => 6
    case Idles => 7
    case Watches(_, ready) => 8 + 2 * |ready.fds|
    case WatchCallback(_, ready) => 9 + 2 * |ready.fds|
    case _ => 0
  }

  // The loop takes the token too early, or gets closer to it.
  lemma LoopAdvances(s: Loop, id: Id)
    requires Rushed(s, id)
    ensures var e := LoopEvent(s.pc);
      && Enabled(s, e)
      && var s' := Step(s, e);
         if s.pc.Timeouts? && s.timers.pipe[0] == id then TakenNow(s', id) else Rushed(s', id) && Closer(s', s)
  {
    if s.pc.Timeouts? {
      var pipe := s.timers.pipe;
      assert pipe == [pipe[0]] + pipe[1..];
    } else {
      LoopMovesOn(s, id);
    }
  }

  predicate Closer(s: Loop, than: Loop) {
    || |s.timers.pipe| < |than.timers.pipe|
    || (|s.timers.pipe| == |than.timers.pipe| && Distance(s.pc) < Distance(than.pc))
  }

  lemma LoopMovesOn(s: Loop, id: Id)
    requires Rushed(s, id) && !s.pc.Timeouts?
    ensures var e := LoopEvent(s.pc);
      Enabled(s, e) && Rushed(Step(s, e), id) && Closer(Step(s, e), s)
  {
  }

  ghost predicate TakenNow(s: Loop, id: Id) {
    id in s.timers.arming && id in s.timers.lost && s.timers.fired[id] == 1 && s.timers.called[id] == 0
  }

  lemma {:induction false} LoopTakes(s: Loop, id: Id)
    requires Rushed(s, id)
    ensures exists es, t :: Run(s, es, t) && TakenNow(t, id)
    decreases |s.timers.pipe|, Distance(s.pc)
  {
    LoopAdvances(s, id);
    var e := LoopEvent(s.pc);
    var s' := Step(s, e);
    if s.pc.Timeouts? && s.timers.pipe[0] == id {
      RunOf(s, s', e, [], s');
      assert TakenNow(s', id);
    } else {
      LoopTakes(s', id);
      var es, t :| Run(s', es, t) && TakenNow(t, id);
      RunOf(s, s', e, es, t);
    }
  }

  // So from every reachable state of a running loop, a timeout added meanwhile by another thread can
  // be lost: only calls on the loop thread or before Run are safe.
  lemma EarlyTokenAnywhere(firstId: Id, before: seq<Event>, s: Loop)
    requires TIMEOUT_START <= firstId && Run(Initial(firstId), before, s) && s.running
    ensures exists es, t :: Run(s, es, t) && EarlyTaken(t, s.timers.nextId)
  {
    var id := s.timers.nextId;
    RunIsAfter(Initial(firstId), before, s);
    Reachable(firstId, before, s);
    RunningHasNoQuit(firstId, before, |before|);
    assert TimerAgrees(s.timers, Serving(s.pc), id);
    var s1 := s.(timers := Arm(s.timers, id));
    var s2 := s1.(timers := Ring(s1.timers, id));
    assert id in [id] && QUIT !in [id];
    LoopTakes(s2, id);
    var es, t :| Run(s2, es, t) && TakenNow(t, id);
    RunOf(s1, s2, Fire(id), es, t);
    RunOf(s, s1, ArmTimeout(0), [Fire(id)] + es, t);
    var all := [ArmTimeout(0)] + ([Fire(id)] + es);
    RunKeepsInvariant(s, all, t);
    var end := Entered(t, id);
    RunSnoc(s, all, t, InsertTimeout(id), end);
  }

  // The timeout is entered after its token was taken.
  lemma Entered(t: Loop, id: Id) returns (end: Loop)
    requires Invariant(t) && TakenNow(t, id)
    ensures Enabled(t, InsertTimeout(id)) && end == Step(t, InsertTimeout(id)) && EarlyTaken(end, id)
  {
    assert TimerAgrees(t.timers, Serving(t.pc), id);
    end := Step(t, InsertTimeout(id));
  }

  lemma {:induction false} RunSnoc(s: Loop, es: seq<Event>, t: Loop, e: Event, u: Loop)
    requires Run(s, es, t) && Enabled(t, e) && Step(t, e) == u
    ensures Run(s, es + [e], u)
    decreases |es|
  {
    if es == [] {
      RunOf(t, u, e, [], u);
      assert es + [e] == [e] + [];
    } else {
      RunSnoc(Step(s, es[0]), es[1..], t, e, u);
      assert es + [e] == [es[0]] + (es[1..] + [e]);
      RunOf(s, Step(s, es[0]), es[0], es[1..] + [e], u);
    }
  }

  // The loop never sleeps on pending work: when idle callbacks wait, the watch set has changed,
  // or Quit is complete, poll() returns.
  lemma NoLostWakeUp(firstId: Id, es: seq<Event>, t: Loop)
    requires TIMEOUT_START <= firstId && Run(Initial(firstId), es, t)
    requires t.pc.Polling?
    requires t.idles.table != [] || t.pc.polled != t.watchTable || (!t.running && !t.quitting)
    ensures Enabled(t, Wake([]))
    ensures t.idles.table != [] ==> IDLE in t.idles.pipe
    ensures !t.running && !t.quitting ==> QUIT in t.timers.pipe
  {
    Reachable(firstId, es, t);
  }

  // Idle callbacks finish in the order they were added; the entry popped is the one that ran.
  lemma IdleOrder(firstId: Id, es: seq<Event>, t: Loop)
    requires TIMEOUT_START <= firstId && Run(Initial(firstId), es, t)
    ensures t.idles.finished <= t.idles.added
    ensures t.idles.table == t.idles.added[|t.idles.finished|..]
    ensures t.pc.IdleCallback? ==> |t.idles.finished| < |t.idles.added| && t.pc.entry == t.idles.added[|t.idles.finished|]
  {
    Reachable(firstId, es, t);
  }

  // ---------------------------------------------------------------- progress

  // Tokens to be read before the first one of the given kind.
  function Ahead(pipe: seq<int>, token: int): nat {
    if pipe == [] || pipe[0] == token then 0 else 1 + Ahead(pipe[1..], token)
  }

  function IdleReads(es: seq<Event>): nat {
    if es == [] then 0 else (if es[0].ReadIdle? then 1 else 0) + IdleReads(es[1..])
  }

  function TimeoutReads(es: seq<Event>): nat {
    if es == [] then 0 else (if es[0].ReadTimeout? then 1 else 0) + TimeoutReads(es[1..])
  }

  // No idle callback starts during the run.
  ghost predicate NoIdleCallback(s: Loop, es: seq<Event>)
    decreases |es|
  {
    !s.pc.IdleCallback? &&
    (es != [] && Enabled(s, es[0]) ==> NoIdleCallback(Step(s, es[0]), es[1..]))
  }

  lemma {:induction false} AheadAppend(pipe: seq<int>, x: int, token: int)
    requires token in pipe
    ensures Ahead(pipe + [x], token) == Ahead(pipe, token)
  {
    assert (pipe + [x])[0] == pipe[0] && (pipe + [x])[1..] == pipe[1..] + [x];
    if pipe[0] != token {
      AheadAppend(pipe[1..], x, token);
    }
  }

  // Passes of the loop that have come to their end.
  function Passes(es: seq<Event>): nat {
    if es == [] then 0 else Count(es[0].WriteIdle?) + Passes(es[1..])
  }

  // What keeps a pass from the idle pipe: a timeout or watch served, or an interrupted poll.
  function Disturbances(es: seq<Event>): nat {
    if es == [] then 0 else Count(Disturbs(es[0])) + Disturbances(es[1..])
  }

  // The current pass may still end without reading the idle pipe.
  function Missed(pc: Pc): nat {
    match pc
    case Timeouts(handled, ready) => if handled || !ready.idle then 1 else 0
    case Watches(handled, ready) => if handled || !ready.idle then 1 else 0
    case Rearm => 1
    case _ => 0
  }

  function Count(b: bool): nat {
    if b then 1 else 0
  }

  predicate Disturbs(e: Event) {
    e.EndTimeout? || e.EndWatch? || e.Interrupted?
  }

  // What a step that starts no idle callback uses up.
  lemma PassStep(s: Loop, e: Event)
    requires Enabled(s, e) && !s.pc.IdleCallback? && !Step(s, e).pc.IdleCallback?
    requires s.idles.table != [] && IDLE in s.idles.pipe
    ensures var s' := Step(s, e);
      && s'.idles.table != [] && IDLE in s'.idles.pipe
      && Count(e.WriteIdle?) + Ahead(s'.idles.pipe, IDLE) + Missed(s'.pc)
           <= Ahead(s.idles.pipe, IDLE) + Count(Disturbs(e)) + Missed(s.pc)
  {
    var s' := Step(s, e);
    var pipe := s.idles.pipe;
    if e.ReadIdle? {
      assert pipe == [pipe[0]] + pipe[1..];
    } else if s'.idles.pipe != pipe {
      AheadAppend(pipe, s'.idles.pipe[|pipe|], IDLE);
    }
  }

  // While no idle callback starts, the undisturbed passes use up the tokens ahead.
  lemma {:induction false} PassesUseUpTokens(s: Loop, es: seq<Event>, t: Loop)
    requires Run(s, es, t) && NoIdleCallback(s, es)
    requires s.idles.table != [] && IDLE in s.idles.pipe
    ensures Passes(es) <= Ahead(s.idles.pipe, IDLE) + Disturbances(es) + Missed(s.pc)
    decreases |es|
  {
    if es != [] {
      PassStep(s, es[0]);
      PassesUseUpTokens(Step(s, es[0]), es[1..], t);
    }
  }

  // The first idle callback to start is the one in front.
  lemma {:induction false} FrontStarts(s: Loop, es: seq<Event>, t: Loop)
    requires Run(s, es, t) && !NoIdleCallback(s, es) && !s.pc.IdleCallback? && s.idles.table != []
    ensures exists n: nat, u :: n <= |es| && Run(s, es[..n], u) && u.pc == IdleCallback(s.idles.table[0])
    decreases |es|
  {
    var s' := Step(s, es[0]);
    if s'.pc.IdleCallback? {
      RunOf(s, s', es[0], [], s');
      assert es[..1] == [es[0]] + [];
    } else {
      FrontStarts(s', es[1..], t);
      var n: nat, u :| n <= |es[1..]| && Run(s', es[1..][..n], u) && u.pc == IdleCallback(s'.idles.table[0]);
      RunOf(s, s', es[0], es[1..][..n], u);
      assert es[..n + 1] == [es[0]] + es[1..][..n];
    }
  }

  // From any reachable state at the top of the loop, with k tokens ahead of the first IDLE token:
  // the front idle callback has started once k+1 passes are over in which no timeout or watch was
  // served and poll was not interrupted.
  lemma IdleProgress(firstId: Id, before: seq<Event>, s: Loop, es: seq<Event>, t: Loop)
    requires TIMEOUT_START <= firstId && Run(Initial(firstId), before, s)
    requires s.pc.Top? && s.idles.table != []
    requires Run(s, es, t) && Passes(es) > Ahead(s.idles.pipe, IDLE) + Disturbances(es)
    ensures exists n: nat, u :: n <= |es| && Run(s, es[..n], u) && u.pc == IdleCallback(s.idles.table[0])
  {
    Reachable(firstId, before, s);
    if NoIdleCallback(s, es) {
      PassesUseUpTokens(s, es, t);
    }
    FrontStarts(s, es, t);
  }

  function LoopTests(es: seq<Event>): nat {
    if es == [] then 0 else (if es[0].TestRunning? then 1 else 0) + LoopTests(es[1..])
  }

  // Once Quit has cleared the flag, the loop test is reached at most once more.
  lemma {:induction false} QuitStops(s: Loop, es: seq<Event>, t: Loop)
    requires Run(s, es, t) && !s.running && !s.pc.NotStarted?
    ensures LoopTests(es) <= if s.pc.Done? then 0 else 1
    decreases |es|
  {
    if es != [] {
      QuitStops(Step(s, es[0]), es[1..], t);
    }
  }

  // Once Quit has written its token behind k others, the loop ends after at most k+1 reads.
  lemma {:induction false} QuitProgress(s: Loop, es: seq<Event>, t: Loop)
    requires Run(s, es, t) && QUIT in s.timers.pipe && !t.pc.Done?
    ensures TimeoutReads(es) <= Ahead(s.timers.pipe, QUIT)
    decreases |es|
  {
    if es != [] {
      var e, s' := es[0], Step(s, es[0]);
      var pipe := s.timers.pipe;
      if e.ReadTimeout? {
        assert pipe == [pipe[0]] + pipe[1..];
        if pipe[0] == QUIT {
          DoneForever(s', es[1..], t);
        }
      } else if s'.timers.pipe != pipe {
        AheadAppend(pipe, s'.timers.pipe[|pipe|], QUIT);
      }
      QuitProgress(s', es[1..], t);
    }
  }

  lemma {:induction false} DoneForever(s: Loop, es: seq<Event>, t: Loop)
    requires Run(s, es, t) && s.pc.Done?
    ensures t.pc.Done?
    decreases |es|
  {
    if es != [] {
      DoneForever(Step(s, es[0]), es[1..], t);
    }
  }

  // One pass of the loop from poll() on, in which nothing but the idle pipe is served.
  predicate IdleOnly(es: seq<Event>) {
    forall e <- es :: !e.EndTimeout? && !e.EndWatch? && !e.Interrupted? && !e.WriteIdle?
  }

  predicate WillCheckIdle(s: Loop) {
    match s.pc
    case Polling(_) => s.idles.pipe != []
    case Timeouts(handled, ready) => !handled && ready.idle
    case Watches(handled, ready) => !handled && ready.idle
    case TimeoutCallback(_, _) => true
    case WatchCallback(_, _) => true
    case Idles => true
    case _ => false
  }

  // Such a pass reads the idle pipe when poll() found it readable.
  lemma {:induction false} PassReadsIdlePipe(s: Loop, es: seq<Event>, t: Loop)
    requires Run(s, es, t) && IdleOnly(es)
    requires WillCheckIdle(s) && t.pc.Rearm?
    ensures IdleReads(es) >= 1
    decreases |es|
  {
    if es != [] && !es[0].ReadIdle? {
      assert es[0] in es;
      if Step(s, es[0]).pc.Done? {
        DoneForever(Step(s, es[0]), es[1..], t);
      }
      PassReadsIdlePipe(Step(s, es[0]), es[1..], t);
    }
  }
}
