// The subscriber table inside the RPC handle's protocol: any run of the protocol is, for its subscribers, a run of the
// fan-out.
module RpcFeed {
  import opened Options
  import opened Text
  import opened Gateway
  import opened RpcProtocol
  import opened RpcGuarantees
  import opened LineDemux
  import opened ReaderRun
  import Fanout
  import EventFeed

  const HUB: Fanout.Hub := Fanout.Hub(RPC_CAPACITY, 0, {}, map[])

  // What a step of the protocol does to the table of subscribers
  function OpsOf(a: Action): seq<Fanout.Op> {
    match a
    case Subscribe => [Fanout.Subscribe]
    case Unsubscribe(id) => [Fanout.Unsubscribe(id)]
    case DrainSub(id) => [Fanout.Unsubscribe(id)]
    case WatchRemove(id) => [Fanout.Unsubscribe(id)]
    case Broadcast(event) => [Fanout.Broadcast(event)]
    case _ => []
  }

  function Ops(acts: seq<Action>): seq<Fanout.Op> {
    if acts == [] then [] else OpsOf(acts[0]) + Ops(acts[1..])
  }

  // The consumers' receives left out; they are nobody's step in the protocol and may come at any time.
  function WithoutReceives(ops: seq<Fanout.Op>): seq<Fanout.Op> {
    if ops == [] then [] else (if ops[0].Receive? then [] else [ops[0]]) + WithoutReceives(ops[1..])
  }

  ghost predicate Agrees(s: State, h: Fanout.Hub) {
    && h.live == s.table && h.nextId == s.nextSub && h.streams.Keys == s.subs.Keys
    && forall id :: id in h.streams ==> h.streams[id].open == s.subs[id].open
  }

  lemma AgreesReceive(s: State, h: Fanout.Hub, id: nat)
    requires Agrees(s, h)
    ensures Agrees(s, Fanout.Apply(h, Fanout.Receive(id)))
  {
  }

  lemma AgreesSilent(s: State, h: Fanout.Hub, a: Action)
    requires Agrees(s, h) && Enabled(s, a) && OpsOf(a) == []
    ensures Agrees(Step(s, a), h)
  {
    if OnSubs(a) {
      WatchesOnly(s, a);
    } else {
      SubsUntouched(s, a);
    }
  }

  lemma WatchesOnly(s: State, a: Action)
    requires Enabled(s, a) && (a.WatchContext? || a.WatchDone?)
    ensures Step(s, a).table == s.table && Step(s, a).nextSub == s.nextSub && Step(s, a).subs.Keys == s.subs.Keys
    ensures forall id :: id in s.subs ==> Step(s, a).subs[id].open == s.subs[id].open
  {
  }

  lemma AgreesOp(s: State, h: Fanout.Hub, a: Action)
    requires Inv(s) && Agrees(s, h) && Enabled(s, a) && OpsOf(a) != []
    ensures Agrees(Step(s, a), Fanout.Apply(h, OpsOf(a)[0]))
  {
    if a.DrainSub? || a.Unsubscribe? || a.WatchRemove? {
      RemovalEffect(s, a);
      AgreesRemoval(s, h, a);
    } else if a.Broadcast? {
      SubsUntouched(s, a);
    }
  }

  lemma AgreesRemoval(s: State, h: Fanout.Hub, a: Action)
    requires Inv(s) && Agrees(s, h) && Enabled(s, a) && (a.DrainSub? || a.Unsubscribe? || a.WatchRemove?)
    requires var t := Step(s, a);
      && t == s.(table := s.table - {a.id}, subs := s.subs[a.id := t.subs[a.id]], panicked := t.panicked)
      && t.subs[a.id].open == (s.subs[a.id].open && a.id !in s.table)
    ensures Agrees(Step(s, a), Fanout.Apply(h, Fanout.Unsubscribe(a.id)))
  {
  }

  lemma ApplyFirst(h: Fanout.Hub, op: Fanout.Op, rest: seq<Fanout.Op>)
    ensures Fanout.ApplyAll(h, [op] + rest) == Fanout.ApplyAll(Fanout.Apply(h, op), rest)
  {
    Fanout.ApplyAppend(h, [op], rest);
    assert [op][..0] == [];
  }

  // However the protocol runs and whenever the consumers receive, the table and the fan-out agree on who is
  // subscribed, under which id, and whose channel is open.
  lemma {:induction false} FanoutFollows(s: State, acts: seq<Action>, t: State, h: Fanout.Hub, ops: seq<Fanout.Op>)
    requires Inv(s) && Agrees(s, h) && Run(s, acts) == Some(t) && WithoutReceives(ops) == Ops(acts)
    ensures Agrees(t, Fanout.ApplyAll(h, ops))
    decreases |acts| + |ops|
  {
    if ops != [] && ops[0].Receive? {
      AgreesReceive(s, h, ops[0].id);
      ApplyFirst(h, ops[0], ops[1..]);
      assert ops == [ops[0]] + ops[1..];
      FanoutFollows(s, acts, t, Fanout.Apply(h, ops[0]), ops[1..]);
    } else if acts != [] {
      var a, mid := acts[0], Step(s, acts[0]);
      InvStep(s, a);
      if OpsOf(a) == [] {
        AgreesSilent(s, h, a);
        assert Ops(acts) == Ops(acts[1..]);
        FanoutFollows(mid, acts[1..], t, h, ops);
      } else {
        NextOp(acts, ops);
        AgreesOp(s, h, a);
        ApplyFirst(h, ops[0], ops[1..]);
        assert ops == [ops[0]] + ops[1..];
        FanoutFollows(mid, acts[1..], t, Fanout.Apply(h, ops[0]), ops[1..]);
      }
    }
  }

  lemma NextOp(acts: seq<Action>, ops: seq<Fanout.Op>)
    requires acts != [] && OpsOf(acts[0]) != [] && (ops != [] ==> !ops[0].Receive?) && WithoutReceives(ops) == Ops(acts)
    ensures ops != [] && ops[0] == OpsOf(acts[0])[0] && WithoutReceives(ops[1..]) == Ops(acts[1..])
  {
    assert OpsOf(acts[0]) == [OpsOf(acts[0])[0]];
    assert Ops(acts)[0] == OpsOf(acts[0])[0] && Ops(acts)[1..] == Ops(acts[1..]);
    assert ops != [] ==> WithoutReceives(ops)[0] == ops[0] && WithoutReceives(ops)[1..] == WithoutReceives(ops[1..]);
  }

  // ----- what is broadcast -----

  // The events of the steps given, in order
  function Sent(acts: seq<Action>): seq<GatewayEvent> {
    if acts == [] then [] else (if acts[0].Broadcast? then [acts[0].event] else []) + Sent(acts[1..])
  }

  lemma {:induction false} SentAppend(a: seq<Action>, b: seq<Action>)
    ensures Sent(a + b) == Sent(a) + Sent(b)
  {
    if a == [] {
      assert a + b == b;
    } else {
      assert (a + b)[1..] == a[1..] + b && (a + b)[0] == a[0];
      SentAppend(a[1..], b);
      Assoc(if a[0].Broadcast? then [a[0].event] else [], Sent(a[1..]), Sent(b));
    }
  }

  lemma {:induction false} SentIsRead(acts: seq<Action>)
    ensures Sent(Reads(acts)) == Sent(acts)
  {
    if acts != [] {
      SentIsRead(acts[1..]);
      var first := if acts[0].ReadResponse? || acts[0].Broadcast? then [acts[0]] else [];
      SentAppend(first, Reads(acts[1..]));
      assert first != [] ==> first[1..] == [];
    }
  }

  lemma {:induction false} SentOfCasts(events: seq<GatewayEvent>)
    ensures Sent(Casts(events)) == events
  {
    if events != [] {
      assert Casts(events)[1..] == Casts(events[1..]);
      SentOfCasts(events[1..]);
    }
  }

  lemma SentOfDemand(f: Fate)
    ensures Sent(Demand(f)) == if f.Mapped? then f.events else []
  {
    match f {
      case Command(env) =>
        assert [ReadResponse(env)][1..] == [];
      case Mapped(events) =>
        SentOfCasts(events);
      case _ =>
    }
  }

  lemma {:induction false} SentOfDemands(fate: string -> Fate, lines: seq<string>)
    ensures Sent(Demands(fate, lines)) == Log(fate, lines)
  {
    if lines != [] {
      SentOfDemands(fate, lines[1..]);
      SentOfDemand(fate(lines[0]));
      SentAppend(Demand(fate(lines[0])), Demands(fate, lines[1..]));
    }
  }

  lemma {:induction false} BroadcastsAppend(a: seq<Fanout.Op>, b: seq<Fanout.Op>)
    ensures EventFeed.Broadcasts(a + b) == EventFeed.Broadcasts(a) + EventFeed.Broadcasts(b)
    decreases |b|
  {
    if b == [] {
      assert a + b == a;
    } else {
      var front := b[..|b| - 1];
      assert (a + b)[..|a + b| - 1] == a + front;
      BroadcastsAppend(a, front);
      Assoc(EventFeed.Broadcasts(a), EventFeed.Broadcasts(front), if b[|b| - 1].Broadcast? then [b[|b| - 1].event] else []);
    }
  }

  lemma BroadcastsFirst(op: Fanout.Op, rest: seq<Fanout.Op>)
    ensures EventFeed.Broadcasts([op] + rest) == (if op.Broadcast? then [op.event] else []) + EventFeed.Broadcasts(rest)
  {
    BroadcastsAppend([op], rest);
    assert [op][..0] == [];
  }

  lemma {:induction false} ReceivesSendNothing(ops: seq<Fanout.Op>)
    ensures EventFeed.Broadcasts(WithoutReceives(ops)) == EventFeed.Broadcasts(ops)
  {
    if ops != [] {
      ReceivesSendNothing(ops[1..]);
      BroadcastsFirst(ops[0], ops[1..]);
      assert ops == [ops[0]] + ops[1..];
      if ops[0].Receive? {
        assert WithoutReceives(ops) == WithoutReceives(ops[1..]);
      } else {
        BroadcastsFirst(ops[0], WithoutReceives(ops[1..]));
      }
    }
  }

  lemma OneSends(a: Action, rest: seq<Fanout.Op>)
    ensures EventFeed.Broadcasts(OpsOf(a) + rest) == (if a.Broadcast? then [a.event] else []) + EventFeed.Broadcasts(rest)
  {
    if OpsOf(a) == [] {
      assert [] + rest == rest;
    } else {
      BroadcastsFirst(OpsOf(a)[0], rest);
      assert OpsOf(a) == [OpsOf(a)[0]];
    }
  }

  lemma {:induction false} OpsSend(acts: seq<Action>)
    ensures EventFeed.Broadcasts(Ops(acts)) == Sent(acts)
  {
    if acts != [] {
      OpsSend(acts[1..]);
      OneSends(acts[0], Ops(acts[1..]));
    }
  }

  // From the process's output to a subscriber, over any run of the protocol: one that subscribed before the first
  // event gets the whole log of the stream, in order, if and only if its backlog never outgrew its 128 places and
  // nothing was broadcast after its channel was closed.
  lemma FeedOfRun(
    acts: seq<Action>, t: State, ops: seq<Fanout.Op>, before: seq<Fanout.Op>, after: seq<Fanout.Op>, id: nat,
    fate: string -> Fate, stream: string)
    requires Run(INITIAL, acts) == Some(t) && ReadsStream(acts, fate, stream)
    requires WithoutReceives(ops) == Ops(acts) && ops == before + [Fanout.Subscribe] + after
    requires EventFeed.Broadcasts(before) == [] && id == Fanout.ApplyAll(HUB, before).nextId + 1
    ensures var h := Fanout.ApplyAll(HUB, ops);
      && id in h.streams && id in t.subs && (h.streams[id].open <==> id in t.table)
      && (h.streams[id].received + h.streams[id].buf == Log(fate, Lines(stream))
          <==> Fanout.NeverOver(128, Fanout.Project(after, id)) && EventFeed.NoneLate(after, id))
  {
    FanoutFollows(INITIAL, acts, t, HUB, ops);
    RunKeeps(INITIAL, acts, t);
    LogOfRun(acts, ops, before, after, fate, stream);
    EventFeed.FeedCompleteIff(HUB, before, after, id, fate, stream);
  }

  lemma LogOfRun(
    acts: seq<Action>, ops: seq<Fanout.Op>, before: seq<Fanout.Op>, after: seq<Fanout.Op>,
    fate: string -> Fate, stream: string)
    requires ReadsStream(acts, fate, stream)
    requires WithoutReceives(ops) == Ops(acts) && ops == before + [Fanout.Subscribe] + after && EventFeed.Broadcasts(before) == []
    ensures EventFeed.Broadcasts(after) == Log(fate, Lines(stream))
  {
    SentIsRead(acts);
    SentOfDemands(fate, Lines(stream));
    OpsSend(acts);
    ReceivesSendNothing(ops);
    Assoc(before, [Fanout.Subscribe], after);
    BroadcastsAppend(before, [Fanout.Subscribe] + after);
    BroadcastsFirst(Fanout.Subscribe, after);
  }
}
