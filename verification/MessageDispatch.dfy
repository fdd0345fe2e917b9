/**
 * The MQTT client's subscriber list and its dispatch of one message
 * (src/MosquittoMQ.cc). Callbacks may subscribe and unsubscribe while the list is walked.
 *
 * `Dispatch` is the reference: it walks the entries listed when the message arrived and asks
 * "is it still there?" at each turn. `MosquittoMQ` is the code: an index into the live list
 * that every erase shifts, a flag that says "already moved", and a deferred list.
 */
module MessageDispatch {
  import opened Results
  import opened Handles

  datatype SubscribeData = SubscribeData(handle: Handle, topic: string, userData: int)

  // What a callback may ask of the client. The broker's answer comes with the request.
  datatype Op =
    | DoSubscribe(topic: string, userData: int, brokerOk: bool)
    | DoUnsubscribe(handle: Handle, brokerOk: bool)

  // The subscriptions, without any trace of the walk in progress.
  datatype Registry = Registry(active: seq<SubscribeData>, deferred: seq<SubscribeData>, nextHandle: Handle)

  // A callback is any function of its subscription, the invocations so far and the registry.
  type Reaction = (SubscribeData, seq<SubscribeData>, Registry) -> seq<Op>

  ghost predicate Distinct(s: seq<SubscribeData>) {
    forall i, j :: 0 <= i < j < |s| ==> s[i].handle != s[j].handle
  }

  // Live handles differ; those handed out during a dispatch are the newest ones, in order.
  ghost predicate WellFormed(reg: Registry) {
    && Distinct(reg.active)
    && |reg.deferred| <= reg.nextHandle
    && (forall x <- reg.active :: x.handle < reg.nextHandle - |reg.deferred|)
    && (forall i :: 0 <= i < |reg.deferred| ==> reg.deferred[i].handle == reg.nextHandle - |reg.deferred| + i)
  }

  // ---------------------------------------------------------------- reference dispatch

  function Without(s: seq<SubscribeData>, h: Handle): seq<SubscribeData> {
    if s == [] then []
    else if s[0].handle == h then Without(s[1..], h)
    else [s[0]] + Without(s[1..], h)
  }

  function Present(pending: seq<SubscribeData>, active: seq<SubscribeData>): seq<SubscribeData> {
    if pending == [] then []
    else if pending[0] in active then [pending[0]] + Present(pending[1..], active)
    else Present(pending[1..], active)
  }

  // One request made while a message is being dispatched.
  function Apply(reg: Registry, op: Op): Registry {
    match op
    case DoSubscribe(topic, userData, ok) =>
      if ok then
        Registry(reg.active, reg.deferred + [SubscribeData(reg.nextHandle, topic, userData)], reg.nextHandle + 1)
      else reg
    case DoUnsubscribe(h, _) => reg.(active := Without(reg.active, h))
  }

  function ApplyAll(reg: Registry, ops: seq<Op>): Registry
    decreases |ops|
  {
    if ops == [] then reg else ApplyAll(Apply(reg, ops[0]), ops[1..])
  }

  function Dispatch(pending: seq<SubscribeData>, reg: Registry, log: seq<SubscribeData>,
                    fits: SubscribeData -> bool, react: Reaction): (Registry, seq<SubscribeData>)
  {
    if pending == [] then (reg, log)
    else if pending[0] in reg.active && fits(pending[0]) then
      Dispatch(pending[1..], ApplyAll(reg, react(pending[0], log, reg)), log + [pending[0]], fits, react)
    else Dispatch(pending[1..], reg, log, fits, react)
  }

  // A request that does not remove an entry whose turn is over.
  ghost predicate Allowed(reg: Registry, op: Op, current: SubscribeData, rest: seq<SubscribeData>) {
    op.DoUnsubscribe? ==>
      forall x <- reg.active :: x.handle == op.handle ==> x == current || x in rest
  }

  ghost predicate AllAllowed(reg: Registry, ops: seq<Op>, current: SubscribeData, rest: seq<SubscribeData>)
    decreases |ops|
  {
    ops != [] ==>
      && Allowed(reg, ops[0], current, rest)
      && AllAllowed(Apply(reg, ops[0]), ops[1..], current, rest)
  }

  // Throughout the dispatch, callbacks remove only their own entry or entries still to come.
  ghost predicate Polite(pending: seq<SubscribeData>, reg: Registry, log: seq<SubscribeData>,
                         fits: SubscribeData -> bool, react: Reaction)
  {
    pending != [] ==>
      if pending[0] in reg.active && fits(pending[0]) then
        var ops := react(pending[0], log, reg);
        && AllAllowed(reg, ops, pending[0], pending[1..])
        && Polite(pending[1..], ApplyAll(reg, ops), log + [pending[0]], fits, react)
      else Polite(pending[1..], reg, log, fits, react)
  }

  lemma {:induction false} WithoutKeeps(s: seq<SubscribeData>, h: Handle)
    ensures forall x :: x in Without(s, h) <==> x in s && x.handle != h
    ensures Distinct(s) ==> Distinct(Without(s, h))
  {
    if s != [] {
      WithoutKeeps(s[1..], h);
      assert s == [s[0]] + s[1..];
      if Distinct(s) {
        var t := Without(s[1..], h);
        assert Distinct(s[1..]);
        forall x | x in t ensures x.handle != s[0].handle {
          var i :| 0 <= i < |s[1..]| && s[1..][i] == x;
          assert s[i + 1] == x;
        }
      }
    }
  }

  lemma {:induction false} WithoutIsErase(s: seq<SubscribeData>, j: nat)
    requires Distinct(s) && j < |s|
    ensures Without(s, s[j].handle) == s[..j] + s[j+1..]
  {
    if j == 0 {
      WithoutAbsent(s[1..], s[0].handle);
    } else {
      WithoutIsErase(s[1..], j - 1);
      assert s[j] == s[1..][j-1];
      assert s[..j] + s[j+1..] == [s[0]] + (s[1..][..j-1] + s[1..][j..]);
    }
  }

  lemma {:induction false} WithoutAbsent(s: seq<SubscribeData>, h: Handle)
    requires forall x <- s :: x.handle != h
    ensures Without(s, h) == s
  {
    if s != [] {
      WithoutAbsent(s[1..], h);
    }
  }

  lemma {:induction false} PresentWithout(pending: seq<SubscribeData>, active: seq<SubscribeData>, h: Handle)
    ensures Present(pending, Without(active, h)) == Without(Present(pending, active), h)
  {
    WithoutKeeps(active, h);
    if pending != [] {
      PresentWithout(pending[1..], active, h);
      var tail := Present(pending[1..], active);
      assert ([pending[0]] + tail)[1..] == tail;
    }
  }

  lemma {:induction false} PresentMembers(pending: seq<SubscribeData>, active: seq<SubscribeData>)
    ensures forall x :: x in Present(pending, active) <==> x in pending && x in active
  {
    if pending != [] {
      PresentMembers(pending[1..], active);
      assert pending == [pending[0]] + pending[1..];
    }
  }

  lemma {:induction false} PresentAll(pending: seq<SubscribeData>, active: seq<SubscribeData>)
    requires forall x <- pending :: x in active
    ensures Present(pending, active) == pending
  {
    if pending != [] {
      PresentAll(pending[1..], active);
    }
  }

  // While a message is dispatched entries only leave the active list; new ones are deferred.
  lemma {:induction false} ApplyAllShrinks(reg: Registry, ops: seq<Op>)
    requires WellFormed(reg)
    ensures WellFormed(ApplyAll(reg, ops))
    ensures forall x <- ApplyAll(reg, ops).active :: x in reg.active
    ensures reg.deferred <= ApplyAll(reg, ops).deferred
    ensures forall x <- ApplyAll(reg, ops).deferred[|reg.deferred|..] :: x.handle >= reg.nextHandle
    ensures ApplyAll(reg, ops).nextHandle >= reg.nextHandle
    decreases |ops|
  {
    if ops != [] {
      ApplyKeepsWellFormed(reg, ops[0]);
      ApplyAllShrinks(Apply(reg, ops[0]), ops[1..]);
    }
  }

  lemma ApplyKeepsWellFormed(reg: Registry, op: Op)
    requires WellFormed(reg)
    ensures WellFormed(Apply(reg, op))
    ensures forall x <- Apply(reg, op).active :: x in reg.active
  {
    if op.DoUnsubscribe? {
      WithoutKeeps(reg.active, op.handle);
    }
  }

  // ---------------------------------------------------------------- what the reference delivers

  // Everything invoked was listed when the message arrived, in list order and at most once;
  // what callbacks add is not invoked but ends up behind the list, in order of addition.
  lemma {:induction false} DispatchInOrder(pending: seq<SubscribeData>, reg: Registry, log: seq<SubscribeData>,
                                           fits: SubscribeData -> bool, react: Reaction)
    requires WellFormed(reg)
    ensures var (reg', log') := Dispatch(pending, reg, log, fits, react);
      && WellFormed(reg')
      && log <= log'
      && Subsequence(log'[|log|..], pending)
      && (forall x <- log'[|log|..] :: x in reg.active && fits(x))
      && (forall x <- reg'.active :: x in reg.active)
      && reg.deferred <= reg'.deferred
      && (forall x <- reg'.deferred[|reg.deferred|..] :: x.handle >= reg.nextHandle)
      && reg'.nextHandle >= reg.nextHandle
  {
    if pending != [] {
      if pending[0] in reg.active && fits(pending[0]) {
        var ops := react(pending[0], log, reg);
        ApplyAllShrinks(reg, ops);
        var mid := ApplyAll(reg, ops);
        DispatchInOrder(pending[1..], mid, log + [pending[0]], fits, react);
        var (reg', log') := Dispatch(pending, reg, log, fits, react);
        assert log'[|log|..] == [pending[0]] + log'[|log| + 1..];
        forall x | x in reg'.deferred[|reg.deferred|..] ensures x.handle >= reg.nextHandle {
          var k :| |reg.deferred| <= k < |reg'.deferred| && reg'.deferred[k] == x;
          if k < |mid.deferred| {
            assert mid.deferred[k] == x && x in mid.deferred[|reg.deferred|..];
          } else {
            assert x in reg'.deferred[|mid.deferred|..];
          }
        }
      } else {
        DispatchInOrder(pending[1..], reg, log, fits, react);
      }
    }
  }

  // `s` is obtained from `t` by dropping entries.
  ghost predicate Subsequence(s: seq<SubscribeData>, t: seq<SubscribeData>) {
    if s == [] then true
    else if t == [] then false
    else if s[0] == t[0] then Subsequence(s[1..], t[1..])
    else Subsequence(s, t[1..])
  }

  // An entry that matches gets its turn unless an earlier callback removed it.
  lemma {:induction false} DispatchMissesNone(pending: seq<SubscribeData>, reg: Registry, log: seq<SubscribeData>,
                                              fits: SubscribeData -> bool, react: Reaction, x: SubscribeData)
    requires WellFormed(reg)
    requires x in pending && fits(x)
    requires x in Dispatch(pending, reg, log, fits, react).0.active
    ensures var log' := Dispatch(pending, reg, log, fits, react).1; |log| <= |log'| && x in log'[|log|..]
  {
    DispatchInOrder(pending, reg, log, fits, react);
    if pending[0] in reg.active && fits(pending[0]) {
      var ops := react(pending[0], log, reg);
      ApplyAllShrinks(reg, ops);
      DispatchInOrder(pending[1..], ApplyAll(reg, ops), log + [pending[0]], fits, react);
      var log' := Dispatch(pending, reg, log, fits, react).1;
      assert log'[|log|..] == [pending[0]] + log'[|log| + 1..];
      if x != pending[0] {
        DispatchMissesNone(pending[1..], ApplyAll(reg, ops), log + [pending[0]], fits, react, x);
      }
    } else {
      if x == pending[0] {
        assert false;
      }
      DispatchMissesNone(pending[1..], reg, log, fits, react, x);
    }
  }

  // The registry at the turn of the k-th entry.
  function AtTurn(pending: seq<SubscribeData>, reg: Registry, log: seq<SubscribeData>,
                  fits: SubscribeData -> bool, react: Reaction, k: nat): Registry
    requires k < |pending|
  {
    if k == 0 then reg
    else if pending[0] in reg.active && fits(pending[0]) then
      AtTurn(pending[1..], ApplyAll(reg, react(pending[0], log, reg)), log + [pending[0]], fits, react, k - 1)
    else AtTurn(pending[1..], reg, log, fits, react, k - 1)
  }

  // An entry is invoked exactly when it matches and is still subscribed at its turn, and then once.
  lemma {:induction false} InvokedIffPresent(pending: seq<SubscribeData>, reg: Registry, log: seq<SubscribeData>,
                                             fits: SubscribeData -> bool, react: Reaction, k: nat)
    requires WellFormed(reg) && Distinct(pending) && k < |pending|
    ensures var log' := Dispatch(pending, reg, log, fits, react).1;
      && |log| <= |log'| && Distinct(log'[|log|..])
      && (pending[k] in log'[|log|..] <==> pending[k] in AtTurn(pending, reg, log, fits, react, k).active && fits(pending[k]))
  {
    DispatchInOrder(pending, reg, log, fits, react);
    var log' := Dispatch(pending, reg, log, fits, react).1;
    SubsequenceDistinct(log'[|log|..], pending);
    var data, rest := pending[0], pending[1..];
    assert Distinct(rest) && data !in rest by {
      assert forall i :: 0 <= i < |rest| ==> rest[i] == pending[i + 1];
    }
    if data in reg.active && fits(data) {
      var reg1 := ApplyAll(reg, react(data, log, reg));
      ApplyAllShrinks(reg, react(data, log, reg));
      DispatchInOrder(rest, reg1, log + [data], fits, react);
      assert log'[|log|..] == [data] + log'[|log| + 1..];
      if k > 0 {
        InvokedIffPresent(rest, reg1, log + [data], fits, react, k - 1);
      }
    } else {
      DispatchInOrder(rest, reg, log, fits, react);
      if k > 0 {
        InvokedIffPresent(rest, reg, log, fits, react, k - 1);
      } else {
        SubsequenceDistinct(log'[|log|..], rest);
      }
    }
  }

  // Entries that have left the list get no turn, so they may be dropped from the walk.
  lemma {:induction false} DispatchSkipsAbsent(pending: seq<SubscribeData>, before: seq<SubscribeData>,
                                               reg: Registry, log: seq<SubscribeData>,
                                               fits: SubscribeData -> bool, react: Reaction)
    requires WellFormed(reg)
    requires forall x <- reg.active :: x in before
    ensures Dispatch(Present(pending, before), reg, log, fits, react) == Dispatch(pending, reg, log, fits, react)
    ensures Polite(pending, reg, log, fits, react) ==> Polite(Present(pending, before), reg, log, fits, react)
  {
    if pending != [] {
      var tail := Present(pending[1..], before);
      assert ([pending[0]] + tail)[1..] == tail;
      if pending[0] in reg.active && fits(pending[0]) {
        var ops := react(pending[0], log, reg);
        ApplyAllShrinks(reg, ops);
        DispatchSkipsAbsent(pending[1..], before, ApplyAll(reg, ops), log + [pending[0]], fits, react);
        if Polite(pending, reg, log, fits, react) {
          AllowedAmongPresent(reg, ops, pending[0], pending[1..], before);
        }
      } else {
        DispatchSkipsAbsent(pending[1..], before, reg, log, fits, react);
      }
    }
  }

  lemma {:induction false} AllowedAmongPresent(reg: Registry, ops: seq<Op>, current: SubscribeData,
                                               rest: seq<SubscribeData>, before: seq<SubscribeData>)
    requires WellFormed(reg)
    requires forall x <- reg.active :: x in before
    requires AllAllowed(reg, ops, current, rest)
    ensures AllAllowed(reg, ops, current, Present(rest, before))
    decreases |ops|
  {
    if ops != [] {
      PresentMembers(rest, before);
      ApplyKeepsWellFormed(reg, ops[0]);
      AllowedAmongPresent(Apply(reg, ops[0]), ops[1..], current, rest, before);
    }
  }

  // ---------------------------------------------------------------- the cursor

  // The live list with the walk's index and its "already moved" flag. Before the first dispatch the
  // iterator points at no element: -1.
  datatype Cursor = Cursor(list: seq<SubscribeData>, position: int, updated: bool)

  // Where the walk goes on after the current turn.
  function Next(c: Cursor): int {
    if c.updated then c.position else c.position + 1
  }

  // The erase of Unsubscribe: the index moves only when it points at the erased entry.
  function Erase(c: Cursor, j: nat): Cursor
    requires j < |c.list|
  {
    Cursor(c.list[..j] + c.list[j+1..], c.position, c.updated || c.position == j)
  }

  // The entries the walk will still visit are exactly `rest`.
  ghost predicate OnTrack(c: Cursor, rest: seq<SubscribeData>) {
    0 <= Next(c) <= |c.list| && c.list[Next(c)..] == rest
  }

  // Erasing keeps the walk on track exactly when the erased entry is not before the index.
  // Otherwise the following entry is skipped, or the index runs past the end of the list.
  lemma EraseKeepsTrack(c: Cursor, j: nat, rest: seq<SubscribeData>)
    requires Distinct(c.list) && j < |c.list|
    requires OnTrack(c, rest)
    ensures OnTrack(Erase(c, j), Without(rest, c.list[j].handle)) <==> c.position <= j
    ensures j < c.position && rest == [] ==> Next(Erase(c, j)) > |Erase(c, j).list|
    ensures j < c.position && rest != [] ==> OnTrack(Erase(c, j), rest[1..])
  {
    if j < Next(c) {
      NotAmongRest(c.list, j, Next(c));
      WithoutAbsent(rest, c.list[j].handle);
      AfterErase(c, j);
    } else {
      EraseAhead(c, j, rest);
    }
  }

  // What stands after the index once an entry at or before it is erased.
  lemma AfterErase(c: Cursor, j: nat)
    requires j < |c.list| && j < Next(c) <= |c.list|
    ensures c.position <= j ==> Erase(c, j).list[c.position..] == c.list[Next(c)..]
    ensures j < c.position && Next(c) < |c.list| ==> Erase(c, j).list[Next(c)..] == c.list[Next(c)..][1..]
  {
    if c.position > j && Next(c) < |c.list| {
      assert c.list[Next(c)..][1..] == c.list[Next(c)+1..];
    }
  }

  lemma NotAmongRest(list: seq<SubscribeData>, j: nat, next: nat)
    requires Distinct(list) && j < next <= |list|
    ensures forall x <- list[next..] :: x.handle != list[j].handle
  {
    forall k | 0 <= k < |list[next..]| ensures list[next..][k].handle != list[j].handle {
      assert list[next..][k] == list[next + k];
    }
  }

  lemma EraseAhead(c: Cursor, j: nat, rest: seq<SubscribeData>)
    requires Distinct(c.list) && Next(c) <= j < |c.list|
    requires OnTrack(c, rest)
    ensures OnTrack(Erase(c, j), Without(rest, c.list[j].handle))
  {
    var n := Next(c);
    assert Distinct(rest) && rest[j - n] == c.list[j];
    WithoutIsErase(rest, j - n);
    TailAfterErase(c.list, n, j);
  }

  lemma TailAfterErase(list: seq<SubscribeData>, n: nat, j: nat)
    requires n <= j < |list|
    ensures (list[..j] + list[j+1..])[n..] == list[n..][..j - n] + list[n..][j - n + 1..]
  {
  }

  // ---------------------------------------------------------------- one callback

  // A request moves the cursor only when it erases an entry.
  function CursorAfter(c: Cursor, op: Op): (c': Cursor)
    ensures c'.position == c.position && |c'.list| <= |c.list|
    ensures c'.updated ==> c.updated || |c'.list| < |c.list|
    ensures c.updated ==> c'.updated
  {
    if op.DoUnsubscribe? && Find(c.list, op.handle) < |c.list| then Erase(c, Find(c.list, op.handle)) else c
  }

  function CursorAfterAll(c: Cursor, ops: seq<Op>): (c': Cursor)
    ensures c'.position == c.position && |c'.list| <= |c.list|
    ensures c'.updated ==> c.updated || |c'.list| < |c.list|
    decreases |ops|
  {
    if ops == [] then c else CursorAfterAll(CursorAfter(c, ops[0]), ops[1..])
  }

  lemma CursorFollows(c: Cursor, reg: Registry, op: Op)
    requires WellFormed(reg) && c.list == reg.active
    ensures CursorAfter(c, op).list == Apply(reg, op).active
  {
    if op.DoUnsubscribe? {
      var j := Find(c.list, op.handle);
      if j < |c.list| {
        WithoutIsErase(c.list, j);
      } else {
        WithoutAbsent(c.list, op.handle);
      }
    }
  }

  lemma {:induction false} CursorFollowsAll(c: Cursor, reg: Registry, ops: seq<Op>)
    requires WellFormed(reg) && c.list == reg.active
    ensures CursorAfterAll(c, ops).list == ApplyAll(reg, ops).active
    decreases |ops|
  {
    if ops != [] {
      CursorFollows(c, reg, ops[0]);
      ApplyKeepsWellFormed(reg, ops[0]);
      CursorFollowsAll(CursorAfter(c, ops[0]), Apply(reg, ops[0]), ops[1..]);
    }
  }

  // Where the current entry is while its callback runs: at the index, or already passed by it.
  ghost predicate Stands(c: Cursor, current: SubscribeData, rest: seq<SubscribeData>) {
    if c.updated then current in c.list ==> current in rest
    else 0 <= c.position < |c.list| && c.list[c.position] == current
  }

  // After each request the walk still stands before the remaining entries that were to come.
  ghost predicate StaysOnTrack(c: Cursor, reg: Registry, ops: seq<Op>, rest: seq<SubscribeData>)
    decreases |ops|
  {
    ops != [] ==>
      var c', reg' := CursorAfter(c, ops[0]), Apply(reg, ops[0]);
      OnTrack(c', Present(rest, reg'.active)) && StaysOnTrack(c', reg', ops[1..], rest)
  }

  // An entry may be erased exactly when it is not before the index.
  lemma AllowedErase(c: Cursor, j: nat, current: SubscribeData, rest: seq<SubscribeData>)
    requires Distinct(c.list) && j < |c.list|
    requires OnTrack(c, Present(rest, c.list)) && Stands(c, current, rest)
    ensures c.position <= j <==> c.list[j] == current || c.list[j] in rest
  {
    var later := c.list[Next(c)..];
    PresentMembers(rest, c.list);
    if c.list[j] in rest {
      assert c.list[j] in later;
      var k :| 0 <= k < |later| && later[k] == c.list[j];
      assert c.list[Next(c) + k] == c.list[j];
    }
    if Next(c) <= j {
      assert later[j - Next(c)] == c.list[j];
    }
  }

  // One request: permitted exactly when it keeps the walk on track.
  lemma OneRequest(c: Cursor, reg: Registry, op: Op, current: SubscribeData, rest: seq<SubscribeData>)
    requires WellFormed(reg) && c.list == reg.active
    requires OnTrack(c, Present(rest, c.list)) && Stands(c, current, rest)
    ensures var c', reg' := CursorAfter(c, op), Apply(reg, op);
      && (Allowed(reg, op, current, rest) <==> OnTrack(c', Present(rest, reg'.active)))
      && (Allowed(reg, op, current, rest) ==> Stands(c', current, rest))
  {
    if op.DoUnsubscribe? {
      var j := Find(c.list, op.handle);
      if j < |c.list| {
        OneErase(c, j, current, rest);
        AllowedHandle(reg, op, j, current, rest);
      } else {
        FindNone(c.list, op.handle);
        WithoutAbsent(c.list, op.handle);
      }
    }
  }

  lemma FindNone(s: seq<SubscribeData>, h: Handle)
    requires Find(s, h) == |s|
    ensures forall x <- s :: x.handle != h
  {
  }

  lemma AllowedHandle(reg: Registry, op: Op, j: nat, current: SubscribeData, rest: seq<SubscribeData>)
    requires WellFormed(reg) && op.DoUnsubscribe? && j < |reg.active| && reg.active[j].handle == op.handle
    ensures Allowed(reg, op, current, rest) <==> reg.active[j] == current || reg.active[j] in rest
  {
    assert reg.active[j] in reg.active;
    forall x | x in reg.active && x.handle == op.handle ensures x == reg.active[j] {
      var k :| 0 <= k < |reg.active| && reg.active[k] == x;
    }
  }

  lemma OneErase(c: Cursor, j: nat, current: SubscribeData, rest: seq<SubscribeData>)
    requires Distinct(c.list) && j < |c.list|
    requires OnTrack(c, Present(rest, c.list)) && Stands(c, current, rest)
    ensures var allowed := c.list[j] == current || c.list[j] in rest;
      && (allowed <==> OnTrack(Erase(c, j), Present(rest, Without(c.list, c.list[j].handle))))
      && (allowed ==> Stands(Erase(c, j), current, rest))
  {
    PresentWithout(rest, c.list, c.list[j].handle);
    AllowedErase(c, j, current, rest);
    EraseKeepsTrack(c, j, Present(rest, c.list));
    if c.position <= j {
      ErasedStands(c, j, current, rest);
    }
  }

  lemma ErasedStands(c: Cursor, j: nat, current: SubscribeData, rest: seq<SubscribeData>)
    requires Distinct(c.list) && j < |c.list| && c.position <= j && Stands(c, current, rest)
    ensures Stands(Erase(c, j), current, rest)
  {
    var c' := Erase(c, j);
    forall x | x in c'.list ensures x in c.list && x != c.list[j] {
    }
  }

  // A callback keeps to its own entry and those to come exactly when the walk is on track after
  // each of its requests.
  lemma {:induction false} AllowedIffOnTrack(c: Cursor, reg: Registry, ops: seq<Op>, current: SubscribeData, rest: seq<SubscribeData>)
    requires WellFormed(reg) && c.list == reg.active
    requires OnTrack(c, Present(rest, c.list)) && Stands(c, current, rest)
    ensures AllAllowed(reg, ops, current, rest) <==> StaysOnTrack(c, reg, ops, rest)
    ensures AllAllowed(reg, ops, current, rest) ==>
      OnTrack(CursorAfterAll(c, ops), Present(rest, ApplyAll(reg, ops).active))
    decreases |ops|
  {
    if ops != [] {
      OneRequest(c, reg, ops[0], current, rest);
      CursorFollows(c, reg, ops[0]);
      ApplyKeepsWellFormed(reg, ops[0]);
      if Allowed(reg, ops[0], current, rest) {
        AllowedIffOnTrack(CursorAfter(c, ops[0]), Apply(reg, ops[0]), ops[1..], current, rest);
      }
    }
  }

  // ---------------------------------------------------------------- the walk

  // The index walk over the changing list. It ends at the end of the list, or goes astray when
  // the index is past the end, where the code's comparison with end() no longer stops it.
  datatype Outcome = Ended(reg: Registry, log: seq<SubscribeData>) | Astray(reg: Registry, log: seq<SubscribeData>)

  // The turn of the entry at the index, up to the move of the index.
  function Turn(c: Cursor, reg: Registry, log: seq<SubscribeData>, fits: SubscribeData -> bool, react: Reaction)
    : (Cursor, Registry, seq<SubscribeData>)
    requires 0 <= c.position < |c.list|
  {
    var data := c.list[c.position];
    if fits(data) then
      var ops := react(data, log, reg);
      (CursorAfterAll(c, ops), ApplyAll(reg, ops), log + [data])
    else (c, reg, log)
  }

  function Visit(c: Cursor, reg: Registry, log: seq<SubscribeData>, fits: SubscribeData -> bool, react: Reaction): Outcome
    requires 0 <= c.position <= |c.list|
    decreases 2 * (|c.list| - c.position) + if c.updated then 1 else 0
  {
    if c.position == |c.list| then Ended(reg, log)
    else
      var (c', reg', log') := Turn(c, reg, log, fits, react);
      if Next(c') > |c'.list| then Astray(reg', log')
      else Visit(Cursor(c'.list, Next(c'), false), reg', log', fits, react)
  }

  // What the reference dispatch of the turns to take comes to.
  function Reference(c: Cursor, reg: Registry, fits: SubscribeData -> bool, react: Reaction): Outcome {
    var (reg', log') := Dispatch(Turns(c), reg, [], fits, react);
    Ended(reg', log')
  }

  // How far the index is ahead after a turn: past the entries visited that are still listed.
  function Excess(c: Cursor, c': Cursor): int
    requires 0 <= Next(c) <= |c.list|
  {
    Next(c') - |Present(c.list[..Next(c)], c'.list)|
  }

  // After every callback the index stands right behind the visited entries that are still listed.
  ghost predicate KeepsPace(c: Cursor, reg: Registry, log: seq<SubscribeData>, fits: SubscribeData -> bool, react: Reaction)
    requires 0 <= c.position <= |c.list|
    decreases 2 * (|c.list| - c.position) + if c.updated then 1 else 0
  {
    c.position < |c.list| ==>
      var (c', reg', log') := Turn(c, reg, log, fits, react);
      && Excess(c, c') == 0
      && Next(c') <= |c'.list|
      && KeepsPace(Cursor(c'.list, Next(c'), false), reg', log', fits, react)
  }

  // Then the walk is the reference dispatch of the turns it has to take.
  lemma {:induction false} VisitIsDispatch(c: Cursor, reg: Registry, log: seq<SubscribeData>,
                                           fits: SubscribeData -> bool, react: Reaction)
    requires WellFormed(reg) && c.list == reg.active && 0 <= c.position <= |c.list|
    requires KeepsPace(c, reg, log, fits, react)
    ensures var (reg', log') := Dispatch(Turns(c), reg, log, fits, react);
      Visit(c, reg, log, fits, react) == Ended(reg', log')
    decreases 2 * (|c.list| - c.position) + if c.updated then 1 else 0
  {
    if c.position < |c.list| {
      var (c', reg', log') := Turn(c, reg, log, fits, react);
      TurnSkips(c, reg, log, fits, react);
      TurnAgreesWithReference(c, reg, log, fits, react);
      VisitIsDispatch(Cursor(c'.list, Next(c'), false), reg', log', fits, react);
    }
  }

  // A turn after which the index is on track leaves what the reference makes of the remaining
  // turns as it was.
  lemma TurnAgreesWithReference(c: Cursor, reg: Registry, log: seq<SubscribeData>, fits: SubscribeData -> bool, react: Reaction)
    requires WellFormed(reg) && c.list == reg.active && 0 <= c.position < |c.list|
    requires var (c', reg', log') := Turn(c, reg, log, fits, react);
      WellFormed(reg') && c'.list == reg'.active && OnTrack(c', Present(c.list[Next(c)..], reg'.active))
    ensures var (c', reg', log') := Turn(c, reg, log, fits, react);
      var next := Cursor(c'.list, Next(c'), false);
      && 0 <= next.position <= |next.list|
      && Turns(next) == Present(c.list[Next(c)..], reg'.active)
      && Dispatch(Turns(next), reg', log', fits, react) == Dispatch(Turns(c), reg, log, fits, react)
      && (Polite(Turns(c), reg, log, fits, react) ==> Polite(Turns(next), reg', log', fits, react))
  {
    var data, rest := c.list[c.position], c.list[Next(c)..];
    var (c', reg', log') := Turn(c, reg, log, fits, react);
    TurnsFrom(c);
    TurnsOnTrack(c', Present(rest, reg'.active));
    TurnAgrees(data, rest, reg, reg', log, log', fits, react);
  }

  lemma TurnsFrom(c: Cursor)
    requires 0 <= c.position < |c.list|
    ensures Turns(c) == [c.list[c.position]] + c.list[Next(c)..]
  {
  }

  lemma TurnsOnTrack(c: Cursor, rest: seq<SubscribeData>)
    requires OnTrack(c, rest)
    ensures Turns(Cursor(c.list, Next(c), false)) == rest
  {
  }

  // Callbacks that keep to their own entry and those to come keep the pace.
  lemma {:induction false} PoliteKeepsPace(c: Cursor, reg: Registry, log: seq<SubscribeData>,
                                           fits: SubscribeData -> bool, react: Reaction)
    requires WellFormed(reg) && c.list == reg.active && 0 <= c.position <= |c.list|
    requires Polite(Turns(c), reg, log, fits, react)
    ensures KeepsPace(c, reg, log, fits, react)
    decreases 2 * (|c.list| - c.position) + if c.updated then 1 else 0
  {
    if c.position < |c.list| {
      var (c', reg', log') := Turn(c, reg, log, fits, react);
      TurnOnTrack(c, reg, log, fits, react);
      TurnSkips(c, reg, log, fits, react);
      TurnAgreesWithReference(c, reg, log, fits, react);
      PoliteKeepsPace(Cursor(c'.list, Next(c'), false), reg', log', fits, react);
    }
  }

  lemma TurnOnTrack(c: Cursor, reg: Registry, log: seq<SubscribeData>, fits: SubscribeData -> bool, react: Reaction)
    requires WellFormed(reg) && c.list == reg.active && 0 <= c.position < |c.list|
    requires Polite(Turns(c), reg, log, fits, react)
    ensures var (c', reg', log') := Turn(c, reg, log, fits, react);
      OnTrack(c', Present(c.list[Next(c)..], reg'.active))
  {
    var data, rest := c.list[c.position], c.list[Next(c)..];
    assert Turns(c) == [data] + rest;
    PresentAll(rest, c.list);
    if fits(data) {
      AllowedIffOnTrack(c, reg, react(data, log, reg), data, rest);
    }
  }

  // One turn of the reference, with the entries that left the list dropped from the rest.
  lemma TurnAgrees(data: SubscribeData, rest: seq<SubscribeData>, reg: Registry, reg': Registry,
                   log: seq<SubscribeData>, log': seq<SubscribeData>, fits: SubscribeData -> bool, react: Reaction)
    requires WellFormed(reg) && WellFormed(reg') && data in reg.active
    requires reg' == if fits(data) then ApplyAll(reg, react(data, log, reg)) else reg
    requires log' == if fits(data) then log + [data] else log
    ensures Dispatch(Present(rest, reg'.active), reg', log', fits, react) == Dispatch([data] + rest, reg, log, fits, react)
    ensures Polite([data] + rest, reg, log, fits, react) ==> Polite(Present(rest, reg'.active), reg', log', fits, react)
  {
    assert ([data] + rest)[1..] == rest;
    DispatchSkipsAbsent(rest, reg'.active, reg', log', fits, react);
  }

  // ---------------------------------------------------------------- what is skipped

  lemma {:induction false} PresentConcat(a: seq<SubscribeData>, b: seq<SubscribeData>, active: seq<SubscribeData>)
    ensures Present(a + b, active) == Present(a, active) + Present(b, active)
  {
    if a == [] {
      assert a + b == b;
    } else {
      assert (a + b)[0] == a[0] && (a + b)[1..] == a[1..] + b;
      PresentConcat(a[1..], b, active);
    }
  }

  // The list as the visited entries and those to come, as far as they are still there; the index is
  // not before the visited ones.
  ghost predicate Parted(c: Cursor, done: seq<SubscribeData>, rest: seq<SubscribeData>) {
    && Distinct(c.list)
    && c.list == Present(done, c.list) + Present(rest, c.list)
    && Next(c) >= |Present(done, c.list)|
  }

  lemma {:induction false} WithoutConcat(a: seq<SubscribeData>, b: seq<SubscribeData>, h: Handle)
    ensures Without(a + b, h) == Without(a, h) + Without(b, h)
  {
    if a == [] {
      assert a + b == b;
    } else {
      assert (a + b)[0] == a[0] && (a + b)[1..] == a[1..] + b;
      WithoutConcat(a[1..], b, h);
    }
  }

  lemma ErasedOf(a: seq<SubscribeData>, b: seq<SubscribeData>, j: nat)
    requires Distinct(a + b) && j < |a + b|
    ensures |Without(a, (a + b)[j].handle)| == |a| - if j < |a| then 1 else 0
  {
    DistinctParts(a, b);
    if j < |a| {
      WithoutIsErase(a, j);
    } else {
      NotInOther(b, a, j - |a|);
      WithoutAbsent(a, b[j - |a|].handle);
    }
  }

  lemma ErasePartsLists(list: seq<SubscribeData>, j: nat, done: seq<SubscribeData>, rest: seq<SubscribeData>)
    requires Distinct(list) && j < |list| && list == Present(done, list) + Present(rest, list)
    ensures var list' := Without(list, list[j].handle);
      && list' == Present(done, list') + Present(rest, list')
      && |Present(done, list')| == |Present(done, list)| - if j < |Present(done, list)| then 1 else 0
  {
    var h := list[j].handle;
    var a, b := Present(done, list), Present(rest, list);
    PresentWithout(done, list, h);
    PresentWithout(rest, list, h);
    WithoutConcat(a, b, h);
    ErasedOf(a, b, j);
  }

  lemma DistinctParts(a: seq<SubscribeData>, b: seq<SubscribeData>)
    requires Distinct(a + b)
    ensures Distinct(a) && Distinct(b)
    ensures forall i, j :: 0 <= i < |a| && 0 <= j < |b| ==> a[i].handle != b[j].handle
  {
    forall i, j | 0 <= i < j < |a| ensures a[i].handle != a[j].handle {
      assert (a + b)[i] == a[i] && (a + b)[j] == a[j];
    }
    forall i, j | 0 <= i < j < |b| ensures b[i].handle != b[j].handle {
      assert (a + b)[|a| + i] == b[i] && (a + b)[|a| + j] == b[j];
    }
    forall i, j | 0 <= i < |a| && 0 <= j < |b| ensures a[i].handle != b[j].handle {
      assert (a + b)[i] == a[i] && (a + b)[|a| + j] == b[j];
    }
  }

  lemma NotInOther(a: seq<SubscribeData>, b: seq<SubscribeData>, i: nat)
    requires i < |a| && forall j :: 0 <= j < |b| ==> a[i].handle != b[j].handle
    ensures forall x <- b :: x.handle != a[i].handle
  {
  }

  lemma ErasePartsOn(c: Cursor, j: nat, done: seq<SubscribeData>, rest: seq<SubscribeData>)
    requires Parted(c, done, rest) && j < |c.list|
    ensures Parted(Erase(c, j), done, rest)
  {
    ErasePartsLists(c.list, j, done, rest);
    WithoutIsErase(c.list, j);
    WithoutKeeps(c.list, c.list[j].handle);
  }

  lemma {:induction false} RequestsPartOn(c: Cursor, ops: seq<Op>, done: seq<SubscribeData>, rest: seq<SubscribeData>)
    requires Parted(c, done, rest)
    ensures Parted(CursorAfterAll(c, ops), done, rest)
    decreases |ops|
  {
    if ops != [] {
      if ops[0].DoUnsubscribe? && Find(c.list, ops[0].handle) < |c.list| {
        ErasePartsOn(c, Find(c.list, ops[0].handle), done, rest);
      }
      RequestsPartOn(CursorAfter(c, ops[0]), ops[1..], done, rest);
    }
  }

  // The index is never behind. When it is k ahead, the first k of the entries to come that are still
  // listed lose their turn, and with fewer than k of them the index is past the end. So the walk is
  // on track exactly when k is 0.
  ghost predicate Skips(c: Cursor, c': Cursor)
    requires 0 <= Next(c) <= |c.list|
  {
    var ahead, k := Present(c.list[Next(c)..], c'.list), Excess(c, c');
    && k >= 0
    && (k <= |ahead| ==> Next(c') <= |c'.list| && c'.list[Next(c')..] == ahead[k..])
    && (k > |ahead| ==> Next(c') > |c'.list|)
    && (OnTrack(c', ahead) <==> k == 0)
  }

  // That is so whatever a callback requests.
  lemma SkipsExactly(c: Cursor, ops: seq<Op>)
    requires Distinct(c.list) && 0 <= Next(c) <= |c.list|
    ensures Skips(c, CursorAfterAll(c, ops))
  {
    PartedAtStart(c);
    RequestsPartOn(c, ops, c.list[..Next(c)], c.list[Next(c)..]);
    ExcessSkips(c, CursorAfterAll(c, ops));
  }

  lemma PartedAtStart(c: Cursor)
    requires Distinct(c.list) && 0 <= Next(c) <= |c.list|
    ensures Parted(c, c.list[..Next(c)], c.list[Next(c)..])
  {
    SplitPresent(c.list, c.list[..Next(c)], c.list[Next(c)..]);
  }

  lemma SplitPresent(list: seq<SubscribeData>, done: seq<SubscribeData>, rest: seq<SubscribeData>)
    requires list == done + rest
    ensures Present(done, list) == done && Present(rest, list) == rest
  {
    PresentAll(done, list);
    PresentAll(rest, list);
  }

  lemma ExcessSkips(c: Cursor, c': Cursor)
    requires 0 <= Next(c) <= |c.list| && Parted(c', c.list[..Next(c)], c.list[Next(c)..])
    ensures Skips(c, c')
  {
    PartedSkips(c', Present(c.list[..Next(c)], c'.list), Present(c.list[Next(c)..], c'.list));
  }

  lemma PartedSkips(c: Cursor, a: seq<SubscribeData>, b: seq<SubscribeData>)
    requires c.list == a + b && Next(c) >= |a|
    ensures var k := Next(c) - |a|;
      && (k <= |b| ==> Next(c) <= |c.list| && c.list[Next(c)..] == b[k..])
      && (k > |b| ==> Next(c) > |c.list|)
      && (OnTrack(c, b) <==> k == 0)
  {
    var k := Next(c) - |a|;
    if k <= |b| {
      assert (a + b)[|a| + k..] == b[k..];
      assert k == 0 ==> b[k..] == b;
      assert |b[k..]| == |b| - k;
    }
  }

  lemma TurnSkips(c: Cursor, reg: Registry, log: seq<SubscribeData>, fits: SubscribeData -> bool, react: Reaction)
    requires WellFormed(reg) && c.list == reg.active && 0 <= c.position < |c.list|
    ensures var (c', reg', log') := Turn(c, reg, log, fits, react);
      WellFormed(reg') && c'.list == reg'.active && Skips(c, c')
  {
    var data := c.list[c.position];
    var ops := if fits(data) then react(data, log, reg) else [];
    SkipsExactly(c, ops);
    CursorFollowsAll(c, reg, ops);
    ApplyAllShrinks(reg, ops);
  }

  // What a turn leaves ahead was ahead before.
  lemma TurnGoesAhead(c: Cursor, reg: Registry, log: seq<SubscribeData>, fits: SubscribeData -> bool, react: Reaction)
    requires WellFormed(reg) && c.list == reg.active && 0 <= c.position < |c.list|
    ensures var (c', reg', log') := Turn(c, reg, log, fits, react);
      && WellFormed(reg') && c'.list == reg'.active
      && 0 <= Next(c')
      && (Next(c') <= |c'.list| ==> forall x <- c'.list[Next(c')..] :: x in c.list[Next(c)..])
  {
    var c' := Turn(c, reg, log, fits, react).0;
    var rest, k := c.list[Next(c)..], Excess(c, c');
    TurnSkips(c, reg, log, fits, react);
    PresentMembers(rest, c'.list);
    if k <= |Present(rest, c'.list)| {
      forall x | x in c'.list[Next(c')..] ensures x in rest {
        assert x in Present(rest, c'.list)[k..];
      }
    }
  }

  lemma Joins(a: seq<SubscribeData>, b: seq<SubscribeData>, c: seq<SubscribeData>, part: seq<SubscribeData>, all: seq<SubscribeData>)
    requires a <= b <= c
    requires (forall x <- b[|a|..] :: x in all) && (forall x <- c[|b|..] :: x in part) && (forall x <- part :: x in all)
    ensures forall x <- c[|a|..] :: x in all
  {
    assert c[|a|..] == b[|a|..] + c[|b|..];
  }

  // The walk invokes nothing but entries from its index on.
  lemma {:induction false} VisitGoesAhead(c: Cursor, reg: Registry, log: seq<SubscribeData>,
                                          fits: SubscribeData -> bool, react: Reaction)
    requires WellFormed(reg) && c.list == reg.active && 0 <= c.position <= |c.list| && !c.updated
    ensures var log' := Visit(c, reg, log, fits, react).log;
      log <= log' && forall x <- log'[|log|..] :: x in c.list[c.position..]
    decreases |c.list| - c.position
  {
    if c.position < |c.list| {
      var (c', reg', log') := Turn(c, reg, log, fits, react);
      var data, rest := c.list[c.position], c.list[Next(c)..];
      TurnGoesAhead(c, reg, log, fits, react);
      assert c.list[c.position..] == [data] + rest;
      assert forall x <- log'[|log|..] :: x == data;
      if Next(c') <= |c'.list| {
        VisitGoesAhead(Cursor(c'.list, Next(c'), false), reg', log', fits, react);
        var end := Visit(Cursor(c'.list, Next(c'), false), reg', log', fits, react).log;
        Joins(log, log', end, c'.list[Next(c')..], c.list[c.position..]);
      }
    }
  }

  // An entry skipped by a turn is not invoked any more, though it is still listed.
  lemma SkippedIsMissed(c: Cursor, reg: Registry, log: seq<SubscribeData>,
                        fits: SubscribeData -> bool, react: Reaction, i: nat)
    requires WellFormed(reg) && c.list == reg.active && 0 <= c.position < |c.list|
    requires var c' := Turn(c, reg, log, fits, react).0;
      i < Excess(c, c') && i < |Present(c.list[Next(c)..], c'.list)|
    ensures var (c', reg', log') := Turn(c, reg, log, fits, react);
      var x, end := Present(c.list[Next(c)..], c'.list)[i], Visit(c, reg, log, fits, react).log;
      x in reg'.active && log' <= end && x !in end[|log'|..]
  {
    var (c', reg', log') := Turn(c, reg, log, fits, react);
    var rest := c.list[Next(c)..];
    var ahead, end := Present(rest, c'.list), Visit(c, reg, log, fits, react).log;
    TurnSkips(c, reg, log, fits, react);
    PresentMembers(rest, c'.list);
    assert ahead[i] in ahead;
    if Next(c') <= |c'.list| {
      VisitGoesAhead(Cursor(c'.list, Next(c'), false), reg', log', fits, react);
      TailDistinct(c.list, Next(c));
      PresentDistinct(rest, c'.list);
      NotInTail(ahead, Excess(c, c'), i);
      assert forall x <- end[|log'|..] :: x in ahead[Excess(c, c')..];
    }
  }

  lemma TailDistinct(s: seq<SubscribeData>, k: nat)
    requires Distinct(s) && k <= |s|
    ensures Distinct(s[k..])
  {
    forall i, j | 0 <= i < j < |s[k..]| ensures s[k..][i].handle != s[k..][j].handle {
      assert s[k..][i] == s[k + i] && s[k..][j] == s[k + j];
    }
  }

  lemma NotInTail(s: seq<SubscribeData>, k: nat, i: nat)
    requires Distinct(s) && i < k <= |s|
    ensures s[i] !in s[k..]
  {
  }

  lemma {:induction false} PresentDistinct(pending: seq<SubscribeData>, active: seq<SubscribeData>)
    requires Distinct(pending)
    ensures Distinct(Present(pending, active))
  {
    if pending != [] {
      var rest := pending[1..];
      assert forall i :: 0 <= i < |rest| ==> rest[i] == pending[i + 1];
      PresentDistinct(rest, active);
      PresentMembers(rest, active);
      forall x | x in Present(rest, active) ensures x.handle != pending[0].handle {
        var k :| 0 <= k < |rest| && rest[k] == x;
      }
    }
  }

  // ---------------------------------------------------------------- what the requests come to

  // The requests of all callbacks invoked by the walk, in order.
  function Requests(c: Cursor, reg: Registry, log: seq<SubscribeData>, fits: SubscribeData -> bool, react: Reaction): seq<Op>
    requires 0 <= c.position <= |c.list|
    decreases 2 * (|c.list| - c.position) + if c.updated then 1 else 0
  {
    if c.position == |c.list| then []
    else
      var data := c.list[c.position];
      var (c', reg', log') := Turn(c, reg, log, fits, react);
      (if fits(data) then react(data, log, reg) else [])
      + if Next(c') > |c'.list| then [] else Requests(Cursor(c'.list, Next(c'), false), reg', log', fits, react)
  }

  // The accepted subscriptions among them, with their topics and user data and the handles from the
  // next one on.
  function Granted(ops: seq<Op>, handle: Handle): seq<SubscribeData>
    decreases |ops|
  {
    if ops == [] then []
    else if ops[0].DoSubscribe? && ops[0].brokerOk then
      [SubscribeData(handle, ops[0].topic, ops[0].userData)] + Granted(ops[1..], handle + 1)
    else Granted(ops[1..], handle)
  }

  predicate Removed(ops: seq<Op>, h: Handle) {
    exists op <- ops :: op.DoUnsubscribe? && op.handle == h
  }

  // What a list of requests makes of the registry: removed entries are gone, all others stay, and
  // the accepted subscriptions are deferred in order.
  ghost predicate Effects(reg: Registry, ops: seq<Op>, reg': Registry) {
    && reg'.deferred == reg.deferred + Granted(ops, reg.nextHandle)
    && reg'.nextHandle == reg.nextHandle + |Granted(ops, reg.nextHandle)|
    && (forall x :: x in reg'.active <==> x in reg.active && !Removed(ops, x.handle))
  }

  lemma EffectsConcat(reg: Registry, a: seq<Op>, mid: Registry, b: seq<Op>, reg': Registry)
    requires Effects(reg, a, mid) && Effects(mid, b, reg')
    ensures Effects(reg, a + b, reg')
  {
    GrantedConcat(a, b, reg.nextHandle);
    assert reg.deferred + (Granted(a, reg.nextHandle) + Granted(b, mid.nextHandle))
        == reg.deferred + Granted(a, reg.nextHandle) + Granted(b, mid.nextHandle);
    forall h ensures Removed(a + b, h) <==> Removed(a, h) || Removed(b, h) {
      RemovedConcat(a, b, h);
    }
  }

  lemma RemovedConcat(a: seq<Op>, b: seq<Op>, h: Handle)
    ensures Removed(a + b, h) <==> Removed(a, h) || Removed(b, h)
  {
    forall op ensures op in a + b <==> op in a || op in b {
    }
  }

  lemma {:induction false} GrantedConcat(a: seq<Op>, b: seq<Op>, handle: Handle)
    ensures Granted(a + b, handle) == Granted(a, handle) + Granted(b, handle + |Granted(a, handle)|)
    decreases |a|
  {
    if a == [] {
      assert a + b == b;
    } else {
      assert (a + b)[0] == a[0] && (a + b)[1..] == a[1..] + b;
      GrantedConcat(a[1..], b, if a[0].DoSubscribe? && a[0].brokerOk then handle + 1 else handle);
    }
  }

  lemma OneEffect(reg: Registry, op: Op)
    ensures Effects(reg, [op], Apply(reg, op))
  {
    assert [op][1..] == [];
    if op.DoUnsubscribe? {
      WithoutKeeps(reg.active, op.handle);
    }
    forall h ensures Removed([op], h) <==> op.DoUnsubscribe? && op.handle == h {
      assert op in [op];
    }
    assert reg.deferred + [] == reg.deferred;
  }

  lemma NoEffect(reg: Registry)
    ensures Effects(reg, [], reg)
  {
    assert reg.deferred + [] == reg.deferred;
  }

  lemma {:induction false} ApplyAllEffects(reg: Registry, ops: seq<Op>)
    ensures Effects(reg, ops, ApplyAll(reg, ops))
    decreases |ops|
  {
    if ops == [] {
      NoEffect(reg);
    } else {
      OneEffect(reg, ops[0]);
      ApplyAllEffects(Apply(reg, ops[0]), ops[1..]);
      EffectsConcat(reg, [ops[0]], Apply(reg, ops[0]), ops[1..], ApplyAll(reg, ops));
      assert [ops[0]] + ops[1..] == ops;
    }
  }

  // The same of a whole walk, whatever the callbacks do.
  lemma {:induction false} WalkEffects(c: Cursor, reg: Registry, log: seq<SubscribeData>,
                                       fits: SubscribeData -> bool, react: Reaction)
    requires 0 <= c.position <= |c.list|
    ensures Effects(reg, Requests(c, reg, log, fits, react), Visit(c, reg, log, fits, react).reg)
    decreases 2 * (|c.list| - c.position) + if c.updated then 1 else 0
  {
    if c.position == |c.list| {
      NoEffect(reg);
    } else {
      var data := c.list[c.position];
      var (c', reg', log') := Turn(c, reg, log, fits, react);
      var ops := if fits(data) then react(data, log, reg) else [];
      ApplyAllEffects(reg, ops);
      if Next(c') > |c'.list| {
        assert ops + [] == ops;
      } else {
        var next := Cursor(c'.list, Next(c'), false);
        WalkEffects(next, reg', log', fits, react);
        EffectsConcat(reg, ops, reg', Requests(next, reg', log', fits, react), Visit(next, reg', log', fits, react).reg);
      }
    }
  }

  lemma CommitKeepsWellFormed(reg: Registry)
    requires WellFormed(reg)
    ensures WellFormed(Committed(reg))
  {
    var all := reg.active + reg.deferred;
    forall i, j | 0 <= i < j < |all| ensures all[i].handle != all[j].handle {
      if i < |reg.active| <= j {
        assert all[i] in reg.active && all[j] in reg.deferred;
      }
    }
  }

  // ---------------------------------------------------------------- the client

  // What the client keeps from one message to the next: the index, its flag and the vector's room.
  datatype Vector = Vector(position: int, updated: bool, capacity: nat)

  // An entry is appended to `size` others. Growing leaves the iterator equal to no element.
  function Pushed(v: Vector, size: nat, room: nat): Vector {
    if size < v.capacity then v else Vector(-1, v.updated, if room > size then room else size + 1)
  }

  // The entry at j is erased.
  function Erased(v: Vector, j: nat): Vector {
    v.(updated := v.updated || v.position == j)
  }

  // A message has been dispatched to `size` entries that stay as they are.
  function Walked(v: Vector, size: nat): Vector {
    v.(position := size, updated := v.updated && size == 0)
  }

  function Find(s: seq<SubscribeData>, h: Handle): (i: nat)
    ensures i <= |s|
    ensures i < |s| ==> s[i].handle == h
    ensures forall k :: 0 <= k < i ==> s[k].handle != h
  {
    if s == [] then 0 else if s[0].handle == h then 0 else 1 + Find(s[1..], h)
  }

  class MosquittoMQ {
    var subscribers: seq<SubscribeData>
    var capacity: nat                     // of the vector; growing beyond it leaves iterators dangling
    var newSubscribers: seq<SubscribeData>
    var subscribersIterating: bool
    var subscriberIterator: int
    var subscriberIteratorUpdated: bool
    var nextHandle: Handle

    ghost predicate Valid() reads this {
      && WellFormed(Table()) && |subscribers| <= capacity
      && (!subscribersIterating ==> newSubscribers == [])
    }

    function Table(): Registry reads this {
      Registry(subscribers, newSubscribers, nextHandle)
    }

    function Kept(): Vector reads this {
      Vector(subscriberIterator, subscriberIteratorUpdated, capacity)
    }

    ghost function Walk(): Cursor reads this {
      Cursor(subscribers, subscriberIterator, subscriberIteratorUpdated)
    }

    constructor ()
      ensures Valid() && subscribers == [] && !subscribersIterating && !subscriberIteratorUpdated
      ensures subscriberIterator == -1 && nextHandle == 0
    {
      subscribers, capacity, newSubscribers, nextHandle := [], 0, [], 0;
      subscribersIterating, subscriberIterator, subscriberIteratorUpdated := false, -1, false;
    }

    // `room` is the capacity the vector gets if it has to grow.
    method Subscribe(topic: string, userData: int, brokerOk: bool, room: nat) returns (r: Result<Handle>)
      requires Valid()
      modifies this
      ensures Valid()
      ensures r == if brokerOk then Ok(old(nextHandle)) else Err(MqttError)
      ensures subscribersIterating == old(subscribersIterating)
      ensures Kept() == if brokerOk && !subscribersIterating then Pushed(old(Kept()), |old(subscribers)|, room) else old(Kept())
      ensures subscribersIterating ==> Table() == Apply(old(Table()), DoSubscribe(topic, userData, brokerOk))
      ensures brokerOk ==> nextHandle == old(nextHandle) + 1
      ensures !subscribersIterating && brokerOk ==>
        subscribers == old(subscribers) + [SubscribeData(r.value, topic, userData)] && newSubscribers == old(newSubscribers)
      ensures subscribersIterating && brokerOk ==>
        newSubscribers == old(newSubscribers) + [SubscribeData(r.value, topic, userData)] && subscribers == old(subscribers)
      ensures !brokerOk ==> Table() == old(Table())
    {
      if !brokerOk {
        return Err(MqttError);
      }
      var data := SubscribeData(nextHandle, topic, userData);
      nextHandle := nextHandle + 1;
      if subscribersIterating {
        newSubscribers := newSubscribers + [data];
      } else {
        Reserve(|subscribers| + 1, room);
        subscribers := subscribers + [data];
      }
      return Ok(data.handle);
    }

    // Room for n elements. A reallocation leaves the iterator equal to no element.
    method Reserve(n: nat, room: nat)
      modifies this`capacity, this`subscriberIterator
      ensures capacity == (if n <= old(capacity) then old(capacity) else if room > n then room else n)
      ensures subscriberIterator == (if n <= old(capacity) then old(subscriberIterator) else -1)
    {
      if n > capacity {
        capacity := if room > n then room else n;
        subscriberIterator := -1;
      }
    }

    // The entry is gone even when the broker then refuses the request.
    method Unsubscribe(h: Handle, brokerOk: bool) returns (r: Result<int>)
      requires Valid()
      modifies this
      ensures Valid()
      ensures subscribersIterating == old(subscribersIterating)
      ensures Table() == Apply(old(Table()), DoUnsubscribe(h, brokerOk))
      ensures var j := Find(old(subscribers), h);
        if j == |old(subscribers)| then r == Err(NoData) && Walk() == old(Walk()) && Kept() == old(Kept())
        else
          && Walk() == Erase(old(Walk()), j) && Kept() == Erased(old(Kept()), j)
          && r == if brokerOk then Ok(old(subscribers)[j].userData) else Err(MqttError)
    {
      ghost var reg := Table();
      ApplyKeepsWellFormed(reg, DoUnsubscribe(h, brokerOk));
      var it := Find(subscribers, h);
      if it == |subscribers| {
        WithoutAbsent(subscribers, h);
        return Err(NoData);
      }
      WithoutIsErase(subscribers, it);
      var data := subscribers[it];
      if subscriberIterator == it {
        subscriberIteratorUpdated := true;
      }
      subscribers := subscribers[..it] + subscribers[it+1..];
      if !brokerOk {
        return Err(MqttError);
      }
      return Ok(data.userData);
    }

    // One callback: its requests, in order.
    method InvokeCallback(ops: seq<Op>)
      requires Valid() && subscribersIterating
      modifies this
      ensures Valid() && subscribersIterating
      ensures Table() == ApplyAll(old(Table()), ops) && Walk() == CursorAfterAll(old(Walk()), ops)
      ensures capacity == old(capacity)
    {
      var i := 0;
      while i < |ops|
        invariant 0 <= i <= |ops|
        invariant Valid() && subscribersIterating && capacity == old(capacity)
        invariant ApplyAll(Table(), ops[i..]) == ApplyAll(old(Table()), ops)
        invariant CursorAfterAll(Walk(), ops[i..]) == CursorAfterAll(old(Walk()), ops)
      {
        assert ops[i..][0] == ops[i] && ops[i..][1..] == ops[i+1..];
        match ops[i] {
          case DoSubscribe(topic, userData, ok) =>
            var _ := Subscribe(topic, userData, ok, 0);
          case DoUnsubscribe(h, ok) =>
            var _ := Unsubscribe(h, ok);
        }
        i := i + 1;
      }
      assert ops[i..] == [];
    }

    // The loop body: the entry at the index gets its turn, then the index moves on.
    method TakeTurn(fits: SubscribeData -> bool, react: Reaction, log: seq<SubscribeData>) returns (invoked: seq<SubscribeData>)
      requires Valid() && subscribersIterating
      requires 0 <= subscriberIterator < |subscribers|
      modifies this
      ensures Valid() && subscribersIterating
      ensures var (c, reg, log') := Turn(old(Walk()), old(Table()), log, fits, react);
        Walk() == Cursor(c.list, Next(c), false) && Table() == reg && invoked == log'
      ensures capacity == old(capacity)
    {
      var data := subscribers[subscriberIterator];
      invoked := log;
      if fits(data) {
        InvokeCallback(react(data, log, Table()));
        invoked := log + [data];
      }
      if !subscriberIteratorUpdated {
        subscriberIterator := subscriberIterator + 1;
      } else {
        subscriberIteratorUpdated := false;
      }
    }

    // One message. `fits` is the topic filter match, `react` the callbacks; `astray` says that the
    // index has passed the end of the list, from where on the code reads what is not there.
    method MessageCB(fits: SubscribeData -> bool, react: Reaction) returns (invoked: seq<SubscribeData>, astray: bool)
      requires Valid() && !subscribersIterating
      modifies this
      ensures Valid() && (subscribersIterating <==> astray)
      ensures var outcome := Visit(old(Start()), old(Table()), [], fits, react);
        && invoked == outcome.log && (astray <==> outcome.Astray?)
        && Table() == (if astray then outcome.reg else Committed(outcome.reg))
        && (!astray ==> subscribers == outcome.reg.active + outcome.reg.deferred && newSubscribers == [])
        && (!astray ==>
              subscriberIterator == (if |subscribers| <= old(capacity) then |outcome.reg.active| else -1))
      ensures |subscribers| <= old(capacity) ==> capacity == old(capacity)
      ensures !astray ==> (subscriberIteratorUpdated <==> old(subscriberIteratorUpdated) && old(subscribers) == [])
      // callbacks that keep the pace: the reference dispatch
      ensures old(KeepsPace(Start(), Table(), [], fits, react)) ==>
        Visit(old(Start()), old(Table()), [], fits, react) == Reference(old(Start()), old(Table()), fits, react)
    {
      if KeepsPace(Start(), Table(), [], fits, react) {
        VisitIsDispatch(Start(), Table(), [], fits, react);
      }
      subscribersIterating := true;
      subscriberIterator := 0;
      invoked, astray := WalkList(fits, react);
      if !astray {
        Commit();
      }
    }

    // The end of MessageCB.
    method Commit()
      requires Valid() && subscribersIterating
      modifies this
      ensures Valid() && !subscribersIterating && Table() == Committed(old(Table()))
      ensures subscriberIterator == (if |subscribers| <= old(capacity) then old(subscriberIterator) else -1)
      ensures |subscribers| <= old(capacity) ==> capacity == old(capacity)
      ensures subscriberIteratorUpdated == old(subscriberIteratorUpdated)
    {
      CommitKeepsWellFormed(Table());
      subscribersIterating := false;
      var room: nat := *;
      Reserve(|subscribers| + |newSubscribers|, room);
      subscribers := subscribers + newSubscribers;
      newSubscribers := [];
    }

    // The loop of MessageCB.
    method WalkList(fits: SubscribeData -> bool, react: Reaction) returns (invoked: seq<SubscribeData>, astray: bool)
      requires Valid() && subscribersIterating && subscriberIterator == 0
      modifies this
      ensures Valid() && subscribersIterating
      ensures var outcome := Visit(old(Walk()), old(Table()), [], fits, react);
        invoked == outcome.log && Table() == outcome.reg && (astray <==> outcome.Astray?)
      ensures capacity == old(capacity)
      ensures !astray ==> subscriberIterator == |subscribers|
      ensures !astray ==> (subscriberIteratorUpdated <==> old(subscriberIteratorUpdated) && old(subscribers) == [])
    {
      ghost var outcome := Visit(Walk(), Table(), [], fits, react);
      invoked := [];
      ghost var untouched := true;
      while subscriberIterator != |subscribers|
        invariant Valid() && subscribersIterating && capacity == old(capacity)
        invariant 0 <= subscriberIterator <= |subscribers|
        invariant outcome == Visit(Walk(), Table(), invoked, fits, react)
        invariant if untouched then Walk() == old(Walk()) else !subscriberIteratorUpdated && old(subscribers) != []
        decreases 2 * (|subscribers| - subscriberIterator) + if subscriberIteratorUpdated then 1 else 0
      {
        invoked := TakeTurn(fits, react, invoked);
        untouched := false;
        if subscriberIterator > |subscribers| {
          return invoked, true;
        }
      }
      return invoked, false;
    }

    ghost function Start(): Cursor reads this {
      Cursor(subscribers, 0, subscriberIteratorUpdated)
    }
  }

  // The deferred entries join the list.
  function Committed(reg: Registry): Registry {
    Registry(reg.active + reg.deferred, [], reg.nextHandle)
  }

  // The turns a walk at this position still takes: with the flag left set, the first entry gets two.
  function Turns(c: Cursor): seq<SubscribeData> {
    if !(0 <= c.position < |c.list|) then []
    else if c.updated then [c.list[c.position]] + c.list[c.position..]
    else c.list[c.position..]
  }

  lemma {:induction false} SubsequenceDistinct(s: seq<SubscribeData>, t: seq<SubscribeData>)
    requires Subsequence(s, t) && Distinct(t)
    ensures Distinct(s)
    ensures forall x <- s :: x in t
  {
    if s != [] {
      if s[0] == t[0] {
        SubsequenceDistinct(s[1..], t[1..]);
        assert s == [s[0]] + s[1..];
        forall x | x in s[1..] ensures x.handle != s[0].handle {
          var k :| 0 <= k < |t[1..]| && t[1..][k] == x;
          assert t[k + 1] == x;
        }
      } else {
        SubsequenceDistinct(s, t[1..]);
      }
    }
  }

  // With the flag clear, each entry is invoked at most once.
  lemma ClearFlagInvokesOnce(reg: Registry, fits: SubscribeData -> bool, react: Reaction)
    requires WellFormed(reg)
    ensures Distinct(Dispatch(Turns(Cursor(reg.active, 0, false)), reg, [], fits, react).1)
  {
    DispatchInOrder(reg.active, reg, [], fits, react);
    var log := Dispatch(reg.active, reg, [], fits, react).1;
    assert log[0..] == log;
    SubsequenceDistinct(log, reg.active);
  }

  // With the flag left set, the first entry is invoked twice exactly when it matches and its
  // callback leaves it subscribed.
  lemma StaleFlagRepeatsFirst(reg: Registry, fits: SubscribeData -> bool, react: Reaction)
    requires WellFormed(reg) && reg.active != []
    ensures
      var first := reg.active[0];
      var log := Dispatch(Turns(Cursor(reg.active, 0, true)), reg, [], fits, react).1;
      var repeats := fits(first) && first in ApplyAll(reg, react(first, [], reg)).active;
      if repeats then [first, first] <= log else Distinct(log)
  {
    var first, list := reg.active[0], reg.active;
    assert Turns(Cursor(list, 0, true)) == [first] + list;
    if fits(first) {
      var none: seq<SubscribeData> := [];
      assert none + [first] == [first];
      DispatchHead(first, list, reg, [], fits, react);
      var reg1 := ApplyAll(reg, react(first, [], reg));
      ApplyAllShrinks(reg, react(first, [], reg));
      if first in reg1.active {
        StartsTwice(list, reg1, fits, react);
      } else {
        DepartedStaysOut(list, reg1, first, fits, react);
      }
    } else {
      assert ([first] + list)[1..] == list;
      ClearFlagInvokesOnce(reg, fits, react);
    }
  }

  lemma DispatchHead(first: SubscribeData, rest: seq<SubscribeData>, reg: Registry, log: seq<SubscribeData>,
                     fits: SubscribeData -> bool, react: Reaction)
    requires first in reg.active && fits(first)
    ensures Dispatch([first] + rest, reg, log, fits, react)
         == Dispatch(rest, ApplyAll(reg, react(first, log, reg)), log + [first], fits, react)
  {
    assert ([first] + rest)[1..] == rest;
  }

  lemma StartsTwice(list: seq<SubscribeData>, reg: Registry, fits: SubscribeData -> bool, react: Reaction)
    requires WellFormed(reg) && list != [] && list[0] in reg.active && fits(list[0])
    ensures [list[0], list[0]] <= Dispatch(list, reg, [list[0]], fits, react).1
  {
    var first := list[0];
    var ops := react(first, [first], reg);
    ApplyAllShrinks(reg, ops);
    DispatchInOrder(list[1..], ApplyAll(reg, ops), [first, first], fits, react);
    assert [first] + [first] == [first, first];
  }

  lemma DepartedStaysOut(list: seq<SubscribeData>, reg: Registry, first: SubscribeData,
                         fits: SubscribeData -> bool, react: Reaction)
    requires WellFormed(reg) && Distinct(list) && first in list && first !in reg.active
    requires forall x <- reg.active :: x in list
    ensures Distinct(Dispatch(list, reg, [first], fits, react).1)
  {
    DispatchInOrder(list, reg, [first], fits, react);
    var log := Dispatch(list, reg, [first], fits, react).1;
    SubsequenceDistinct(log[1..], list);
    assert log == [first] + log[1..];
    var k :| 0 <= k < |list| && list[k] == first;
    forall x | x in log[1..] ensures x.handle != first.handle {
      var m :| 0 <= m < |list| && list[m] == x;
    }
  }

  function Everything(x: SubscribeData): bool {
    true
  }

  function NoRequests(x: SubscribeData, log: seq<SubscribeData>, reg: Registry): seq<Op> {
    []
  }

  function Chosen(pending: seq<SubscribeData>, fits: SubscribeData -> bool): seq<SubscribeData> {
    if pending == [] then []
    else (if fits(pending[0]) then [pending[0]] else []) + Chosen(pending[1..], fits)
  }

  lemma {:induction false} ChosenAll(pending: seq<SubscribeData>)
    ensures Chosen(pending, Everything) == pending
  {
    if pending != [] {
      assert Everything(pending[0]);
      ChosenAll(pending[1..]);
    }
  }

  lemma {:induction false} SilentDispatch(pending: seq<SubscribeData>, reg: Registry, log: seq<SubscribeData>,
                                          fits: SubscribeData -> bool)
    requires forall x <- pending :: x in reg.active
    ensures Dispatch(pending, reg, log, fits, NoRequests) == (reg, log + Chosen(pending, fits))
  {
    if pending == [] {
      assert log + Chosen(pending, fits) == log;
    } else {
      var x, rest := pending[0], pending[1..];
      if fits(x) {
        SilentDispatch(rest, reg, log + [x], fits);
        assert pending == [x] + rest && NoRequests(x, log, reg) == [];
        DispatchHead(x, rest, reg, log, fits, NoRequests);
        assert log + ([x] + Chosen(rest, fits)) == log + [x] + Chosen(rest, fits);
      } else {
        SilentDispatch(rest, reg, log, fits);
        assert [] + Chosen(rest, fits) == Chosen(rest, fits);
      }
    }
  }

  // A callback of the given subscriber that removes one subscription; the others do nothing.
  function Removing(remover: SubscribeData, gone: Handle): Reaction {
    (x: SubscribeData, log: seq<SubscribeData>, reg: Registry) => if x == remover then [DoUnsubscribe(gone, true)] else []
  }

  // How an entry is missed: `b`'s callback removes `a`, whose turn is over. `c` matches and stays
  // subscribed, and is never invoked.
  lemma MissedEntry(a: SubscribeData, b: SubscribeData, c: SubscribeData, n: Handle)
    requires Distinct([a, b, c])
    ensures Visit(Cursor([a, b, c], 0, false), Registry([a, b, c], [], n), [], Everything, Removing(b, a.handle))
         == Ended(Registry([b, c], [], n), [a, b])
  {
    assert [a, b, c][0].handle != [a, b, c][1].handle;
    var react := Removing(b, a.handle);
    var reg, reg' := Registry([a, b, c], [], n), Registry([b, c], [], n);
    var c0, c1, c2 := Cursor([a, b, c], 0, false), Cursor([a, b, c], 1, false), Cursor([b, c], 1, false);
    var ops := [DoUnsubscribe(a.handle, true)];
    var none: seq<SubscribeData> := [];
    assert react(a, none, reg) == [] && react(b, [a], reg) == ops && Everything(a) && Everything(b);
    assert none + [a] == [a];
    QuietTurn(c0, reg, none, react);
    assert [a, b, c][..0] + [a, b, c][1..] == [b, c];
    assert [a, b, c][0] == a && [a, b, c][1] == b;
    RemovingTurn(c1, reg, [a], react, 0);
    assert [a] + [b] == [a, b] && Erase(c1, 0) == c2;
    assert Turn(c1, reg, [a], Everything, react) == (c2, reg', [a, b]);
    assert Visit(Cursor([b, c], 2, false), reg', [a, b], Everything, react) == Ended(reg', [a, b]);
  }

  lemma QuietTurn(c: Cursor, reg: Registry, log: seq<SubscribeData>, react: Reaction)
    requires 0 <= c.position < |c.list| && react(c.list[c.position], log, reg) == []
    ensures Turn(c, reg, log, Everything, react) == (c, reg, log + [c.list[c.position]])
  {
    assert Everything(c.list[c.position]);
  }

  lemma RemovingTurn(c: Cursor, reg: Registry, log: seq<SubscribeData>, react: Reaction, j: nat)
    requires Distinct(c.list) && 0 <= c.position < |c.list| && j < |c.list| && !c.updated && reg.active == c.list
    requires react(c.list[c.position], log, reg) == [DoUnsubscribe(c.list[j].handle, true)]
    ensures Turn(c, reg, log, Everything, react)
         == (Erase(c, j), reg.(active := c.list[..j] + c.list[j+1..]), log + [c.list[c.position]])
  {
    assert Everything(c.list[c.position]);
    Removal(c.list, c.position, j, reg);
  }

  // One removal, on cursor and registry.
  lemma Removal(list: seq<SubscribeData>, position: nat, j: nat, reg: Registry)
    requires Distinct(list) && j < |list| && reg.active == list
    ensures var ops := [DoUnsubscribe(list[j].handle, true)];
      && CursorAfterAll(Cursor(list, position, false), ops) == Erase(Cursor(list, position, false), j)
      && ApplyAll(reg, ops) == reg.(active := list[..j] + list[j+1..])
  {
    var op := DoUnsubscribe(list[j].handle, true);
    assert [op][1..] == [];
    assert Find(list, list[j].handle) == j;
    WithoutIsErase(list, j);
  }

  lemma {:induction false} SilentIsPolite(pending: seq<SubscribeData>, reg: Registry, log: seq<SubscribeData>,
                                          fits: SubscribeData -> bool)
    ensures Polite(pending, reg, log, fits, NoRequests)
  {
    if pending != [] {
      SilentIsPolite(pending[1..], reg, log + [pending[0]], fits);
      SilentIsPolite(pending[1..], reg, log, fits);
      assert NoRequests(pending[0], log, reg) == [] && ApplyAll(reg, []) == reg;
    }
  }

  // Callbacks that request nothing: the walk invokes the matching entries among the turns it takes.
  lemma SilentVisit(c: Cursor, reg: Registry, fits: SubscribeData -> bool)
    requires WellFormed(reg) && c.list == reg.active && 0 <= c.position <= |c.list|
    ensures Visit(c, reg, [], fits, NoRequests) == Ended(reg, Chosen(Turns(c), fits))
  {
    SilentIsPolite(Turns(c), reg, [], fits);
    PoliteKeepsPace(c, reg, [], fits, NoRequests);
    VisitIsDispatch(c, reg, [], fits, NoRequests);
    SilentDispatch(Turns(c), reg, [], fits);
    assert [] + Chosen(Turns(c), fits) == Chosen(Turns(c), fits);
  }

  // A message to callbacks that request nothing.
  method SilentMessage(mq: MosquittoMQ, fits: SubscribeData -> bool) returns (invoked: seq<SubscribeData>)
    requires mq.Valid() && !mq.subscribersIterating
    modifies mq
    ensures mq.Valid() && !mq.subscribersIterating
    ensures invoked == Visit(old(mq.Start()), old(mq.Table()), [], fits, NoRequests).log
    ensures invoked == Chosen(Turns(old(mq.Start())), fits)
    ensures mq.Table() == old(mq.Table()) && mq.Kept() == Walked(old(mq.Kept()), |mq.subscribers|)
  {
    SilentVisit(mq.Start(), mq.Table(), fits);
    var astray;
    invoked, astray := mq.MessageCB(fits, NoRequests);
  }

  // The same as calls, for any list and any state of index and flag: a subscription that is
  // withdrawn again, which makes room in the vector, a message, another such subscription, and a
  // message that the first subscriber gets twice.
  method StaleIndexScenario(mq: MosquittoMQ, room: nat) returns (invoked: seq<SubscribeData>)
    requires mq.Valid() && !mq.subscribersIterating && mq.subscribers != []
    modifies mq
    ensures mq.subscribers == old(mq.subscribers)
    ensures invoked == [mq.subscribers[0]] + mq.subscribers
  {
    WithdrawnSubscription(mq, room);
    var _ := SilentMessage(mq, Everything);
    WithdrawnSubscription(mq, room);
    ChosenAll(Turns(mq.Start()));
    invoked := SilentMessage(mq, Everything);
  }

  lemma {:induction false} FindLast(list: seq<SubscribeData>, x: SubscribeData)
    requires forall y <- list :: y.handle != x.handle
    ensures Find(list + [x], x.handle) == |list|
  {
    if list != [] {
      assert (list + [x])[1..] == list[1..] + [x];
      FindLast(list[1..], x);
    }
  }

  // Subscribing and unsubscribing leaves the list alone, and the flag set if there was room in the
  // vector and the index was where the last walk ended.
  method WithdrawnSubscription(mq: MosquittoMQ, room: nat)
    requires mq.Valid() && !mq.subscribersIterating
    modifies mq
    ensures mq.Valid() && !mq.subscribersIterating
    ensures mq.subscribers == old(mq.subscribers) && |mq.subscribers| < mq.capacity
    ensures mq.subscriberIteratorUpdated <==>
      old(mq.subscriberIteratorUpdated)
      || (old(mq.subscriberIterator) == |mq.subscribers| && |mq.subscribers| < old(mq.capacity))
  {
    ghost var list := mq.subscribers;
    var added := mq.Subscribe("t", 0, true, room);
    FindLast(list, mq.subscribers[|list|]);
    var _ := mq.Unsubscribe(added.value, true);
    assert mq.subscribers == list;
  }
}
