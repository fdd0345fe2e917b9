/**
 * Which nodes are connected and what they subscribe to after any run of the network, said of the
 * events of the run alone. So the global number of subscriptions that a settled node counts is the
 * number of those made and not withdrawn, by nodes started and not gone.
 */
module DiscoveryHistory {
  import opened Results
  import opened Handles
  import opened Histories
  import opened Discovery
  import opened DiscoveryNetwork

  const Nobody := Net(map[], map[])

  // The network after the first n events, if they are possible.
  ghost function At(es: seq<Event>, n: nat): Option<Net>
    requires n <= |es|
  {
    if n == 0 then Some(Nobody)
    else
      var before := At(es, n - 1);
      if before.None? || !Enabled(before.value, es[n-1]) then None else Some(Step(before.value, es[n-1]))
  }

  lemma {:induction false} RunGoesOn(es: seq<Event>, n: nat, net: Net)
    requires n <= |es| && At(es, n).Some? && Run(At(es, n).value, es[n..], net)
    ensures At(es, |es|) == Some(net)
    decreases |es| - n
  {
    if n < |es| {
      assert es[n..][0] == es[n] && es[n..][1..] == es[n+1..];
      RunGoesOn(es, n + 1, net);
    } else {
      assert es[n..] == [];
    }
  }

  // A run ends in the state after all its events.
  lemma RunEndsAt(es: seq<Event>, net: Net)
    requires Run(Nobody, es, net)
    ensures At(es, |es|) == Some(net)
  {
    assert es[0..] == es;
    RunGoesOn(es, 0, net);
  }

  // ---------------------------------------------------------------- connections

  ghost function Starts(es: seq<Event>, c: ClientId): iset<nat> {
    iset m: nat | m < |es| && es[m].Start? && es[m].id == c
  }

  ghost function Goes(es: seq<Event>, c: ClientId): iset<nat> {
    iset m: nat | m < |es| && (es[m] == Stop(c) || es[m] == Crash(c))
  }

  // A client is connected exactly if it has started and neither stopped nor crashed since.
  lemma {:induction false} OnlineIff(es: seq<Event>, n: nat, c: ClientId)
    requires n <= |es| && At(es, n).Some?
    ensures c in Online(At(es, n).value) <==> Since(Starts(es, c), Goes(es, c), n)
  {
    if n > 0 {
      OnlineIff(es, n - 1, c);
      SinceStep(Starts(es, c), Goes(es, c), n - 1);
      OnlineStep(At(es, n - 1).value, es[n-1], c);
    }
  }

  lemma OnlineStep(net: Net, e: Event, c: ClientId)
    requires Enabled(net, e)
    ensures c in Online(Step(net, e)) <==>
      (e.Start? && e.id == c) || (c in Online(net) && e != Stop(c) && e != Crash(c))
  {
  }

  // ---------------------------------------------------------------- subscriptions

  ghost function Makes(es: seq<Event>, c: ClientId, h: Handle, topic: Topic): iset<nat> {
    iset m: nat | m < |es| && es[m] == Subscribe(c, h, topic)
  }

  ghost function Withdraws(es: seq<Event>, c: ClientId, h: Handle): iset<nat> {
    iset m: nat | m < |es| && (es[m] == Unsubscribe(c, h) || es[m] == Crash(c))
  }

  ghost predicate Holds(net: Net, c: ClientId, h: Handle, topic: Topic) {
    c in net.nodes && h in net.nodes[c].my && net.nodes[c].my[h] == topic
  }

  // A client holds a subscription exactly if it has made it and neither withdrawn it nor crashed
  // since; a stop does not end it.
  lemma {:induction false} HoldsIff(es: seq<Event>, n: nat, c: ClientId, h: Handle, topic: Topic)
    requires n <= |es| && At(es, n).Some?
    ensures Holds(At(es, n).value, c, h, topic) <==> Since(Makes(es, c, h, topic), Withdraws(es, c, h), n)
  {
    if n > 0 {
      HoldsIff(es, n - 1, c, h, topic);
      SinceStep(Makes(es, c, h, topic), Withdraws(es, c, h), n - 1);
      HoldsStep(At(es, n - 1).value, es[n-1], c, h, topic);
    }
  }

  lemma HoldsStep(net: Net, e: Event, c: ClientId, h: Handle, topic: Topic)
    requires Enabled(net, e)
    ensures Holds(Step(net, e), c, h, topic) <==>
      e == Subscribe(c, h, topic) || (Holds(net, c, h, topic) && e != Unsubscribe(c, h) && e != Crash(c))
  {
  }
}
