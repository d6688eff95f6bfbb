// Subscriber fan-out: a bounded, lossy, non-blocking broadcast over a table of buffered channels. rpcHandle
// and noopHandle both work this way and differ only in the buffer size.
module Fanout {
  import opened Gateway

  datatype Offered = Offered(event: GatewayEvent, kept: bool)

  // One subscriber: everything broadcast while it was subscribed, what its consumer took, what its channel holds.
  datatype Stream = Stream(offered: seq<Offered>, received: seq<GatewayEvent>, buf: seq<GatewayEvent>, open: bool, closes: nat)

  const NEW: Stream := Stream([], [], [], true, 0)

  datatype Hub = Hub(capacity: nat, nextId: nat, live: set<nat>, streams: map<nat, Stream>)

  datatype Op = Subscribe | Unsubscribe(id: nat) | Broadcast(event: GatewayEvent) | Receive(id: nat) | CloseAll

  // select { case ch <- e: default: }
  function OfferTo(capacity: nat, s: Stream, e: GatewayEvent): Stream {
    if |s.buf| < capacity then s.(buf := s.buf + [e], offered := s.offered + [Offered(e, true)])
    else s.(offered := s.offered + [Offered(e, false)])
  }

  // A consumer's receive; on an empty channel it gets nothing.
  function TakeFrom(s: Stream): Stream {
    if s.buf == [] then s else s.(received := s.received + [s.buf[0]], buf := s.buf[1..])
  }

  function CloseStream(s: Stream): Stream {
    s.(open := false, closes := s.closes + 1)
  }

  function Apply(h: Hub, op: Op): Hub {
    match op
    case Subscribe => h.(nextId := h.nextId + 1, live := h.live + {h.nextId + 1}, streams := h.streams[h.nextId + 1 := NEW])
    case Unsubscribe(id) =>
      if id in h.live && id in h.streams
      then h.(live := h.live - {id}, streams := h.streams[id := CloseStream(h.streams[id])])
      else h
    case Broadcast(e) =>
      h.(streams := map id | id in h.streams :: if id in h.live then OfferTo(h.capacity, h.streams[id], e) else h.streams[id])
    case Receive(id) => if id in h.streams then h.(streams := h.streams[id := TakeFrom(h.streams[id])]) else h
    case CloseAll =>
      h.(live := {}, streams := map id | id in h.streams :: if id in h.live then CloseStream(h.streams[id]) else h.streams[id])
  }

  function ApplyAll(h: Hub, ops: seq<Op>): Hub {
    if ops == [] then h else Apply(ApplyAll(h, ops[..|ops| - 1]), ops[|ops| - 1])
  }

  predicate HubOk(h: Hub) {
    && h.live <= h.streams.Keys
    && forall id :: id in h.streams ==> id <= h.nextId && (h.streams[id].open <==> id in h.live)
  }

  // ----- one subscriber by itself -----

  datatype Local = Offer(event: GatewayEvent) | Take | Shut

  function PlayOne(capacity: nat, s: Stream, op: Local): Stream {
    match op
    case Offer(e) => if s.open then OfferTo(capacity, s, e) else s
    case Take => TakeFrom(s)
    case Shut => if s.open then CloseStream(s) else s
  }

  function Play(capacity: nat, s: Stream, ops: seq<Local>): Stream {
    if ops == [] then s else PlayOne(capacity, Play(capacity, s, ops[..|ops| - 1]), ops[|ops| - 1])
  }

  // What subscriber id sees of the hub's operations.
  function Sees(op: Op, id: nat): seq<Local> {
    match op
    case Subscribe => []
    case Unsubscribe(other) => if other == id then [Shut] else []
    case Broadcast(e) => [Offer(e)]
    case Receive(other) => if other == id then [Take] else []
    case CloseAll => [Shut]
  }

  function Project(ops: seq<Op>, id: nat): seq<Local> {
    if ops == [] then [] else Project(ops[..|ops| - 1], id) + Sees(ops[|ops| - 1], id)
  }

  lemma {:induction false} HubOkAll(h: Hub, ops: seq<Op>)
    requires HubOk(h)
    ensures HubOk(ApplyAll(h, ops)) && h.streams.Keys <= ApplyAll(h, ops).streams.Keys
    ensures ApplyAll(h, ops).capacity == h.capacity
    decreases |ops|
  {
    if ops != [] {
      HubOkAll(h, ops[..|ops| - 1]);
    }
  }

  // Independence: in any run a subscriber's stream is what its own view alone produces. No other subscriber,
  // however slow, can change it.
  lemma {:induction false} Independence(h: Hub, ops: seq<Op>, id: nat)
    requires HubOk(h) && id in h.streams
    ensures id in ApplyAll(h, ops).streams
    ensures ApplyAll(h, ops).streams[id] == Play(h.capacity, h.streams[id], Project(ops, id))
    decreases |ops|
  {
    if ops != [] {
      var front, last := ops[..|ops| - 1], ops[|ops| - 1];
      Independence(h, front, id);
      HubOkAll(h, front);
      SeesOne(ApplyAll(h, front), last, id);
      PlayMore(h.capacity, h.streams[id], Project(front, id), Sees(last, id));
    }
  }

  lemma PlayMore(capacity: nat, s: Stream, local: seq<Local>, more: seq<Local>)
    requires |more| <= 1
    ensures Play(capacity, s, local + more) == Play(capacity, Play(capacity, s, local), more)
  {
    if more == [] {
      assert local + more == local;
    } else {
      assert (local + more)[..|local|] == local && more[..0] == [];
    }
  }

  // One operation changes a stream by what its subscriber sees of it.
  lemma SeesOne(h: Hub, op: Op, id: nat)
    requires HubOk(h) && id in h.streams
    ensures |Sees(op, id)| <= 1
    ensures id in Apply(h, op).streams && Apply(h, op).streams[id] == Play(h.capacity, h.streams[id], Sees(op, id))
  {
    forall local: Local ensures Play(h.capacity, h.streams[id], [local]) == PlayOne(h.capacity, h.streams[id], local) {
      assert [local][..0] == [];
    }
  }

  // ----- conservation -----

  function Kept(offered: seq<Offered>): seq<GatewayEvent> {
    if offered == [] then []
    else Kept(offered[..|offered| - 1]) + (if offered[|offered| - 1].kept then [offered[|offered| - 1].event] else [])
  }

  function Dropped(offered: seq<Offered>): nat {
    if offered == [] then 0
    else Dropped(offered[..|offered| - 1]) + (if offered[|offered| - 1].kept then 0 else 1)
  }

  function Events(offered: seq<Offered>): seq<GatewayEvent> {
    if offered == [] then [] else Events(offered[..|offered| - 1]) + [offered[|offered| - 1].event]
  }

  // What was broadcast before the subscription ended.
  function Heard(ops: seq<Local>): seq<GatewayEvent> {
    if ops == [] then []
    else
      Heard(ops[..|ops| - 1])
      + (if ops[|ops| - 1].Offer? && Shut !in ops[..|ops| - 1] then [ops[|ops| - 1].event] else [])
  }

  predicate StreamOk(capacity: nat, s: Stream) {
    && |s.buf| <= capacity
    && s.received + s.buf == Kept(s.offered)
    && |s.received| + |s.buf| + Dropped(s.offered) == |s.offered|
    && s.closes == (if s.open then 0 else 1)
  }

  // Every event a subscriber could have seen is received, buffered or dropped; the order is kept; the buffer
  // never exceeds its capacity; the channel is closed at most once.
  lemma {:induction false} Conservation(capacity: nat, ops: seq<Local>)
    ensures StreamOk(capacity, Play(capacity, NEW, ops))
    ensures Events(Play(capacity, NEW, ops).offered) == Heard(ops)
    decreases |ops|
  {
    if ops != [] {
      Conservation(capacity, ops[..|ops| - 1]);
      OpenUntilShut(capacity, ops[..|ops| - 1]);
      var s := Play(capacity, NEW, ops[..|ops| - 1]);
      match ops[|ops| - 1]
      case Offer(e) =>
        var t := OfferTo(capacity, s, e);
        assert t.offered[..|t.offered| - 1] == s.offered;
        assert s.received + (s.buf + [e]) == (s.received + s.buf) + [e];
      case Take =>
        if s.buf != [] {
          assert s.received + s.buf == (s.received + [s.buf[0]]) + s.buf[1..];
        }
      case Shut =>
    }
  }

  // The queue an unbounded channel would hold after the same operations.
  function Outstanding(ops: seq<Local>): seq<GatewayEvent> {
    if ops == [] then []
    else
      var q := Outstanding(ops[..|ops| - 1]);
      match ops[|ops| - 1]
      case Offer(e) => if Shut in ops[..|ops| - 1] then q else q + [e]
      case Take => if q == [] then q else q[1..]
      case Shut => q
  }

  lemma {:induction false} OpenUntilShut(capacity: nat, ops: seq<Local>)
    ensures Play(capacity, NEW, ops).open <==> Shut !in ops
    decreases |ops|
  {
    if ops != [] {
      OpenUntilShut(capacity, ops[..|ops| - 1]);
      assert ops == ops[..|ops| - 1] + [ops[|ops| - 1]];
    }
  }

  // Loss, exactly: a subscriber misses an event if and only if an unbounded queue in its place would at some
  // point have held more than the capacity.
  lemma {:induction false} LosslessIff(capacity: nat, ops: seq<Local>)
    ensures Dropped(Play(capacity, NEW, ops).offered) == 0 <==> NeverOver(capacity, ops)
    ensures Dropped(Play(capacity, NEW, ops).offered) == 0 ==> Play(capacity, NEW, ops).buf == Outstanding(ops)
    decreases |ops|
  {
    if ops != [] {
      var front := ops[..|ops| - 1];
      LosslessIff(capacity, front);
      OpenUntilShut(capacity, front);
      OneMore(capacity, Play(capacity, NEW, front), ops[|ops| - 1]);
    }
  }

  // At no point does the unbounded queue hold more than capacity.
  predicate NeverOver(capacity: nat, ops: seq<Local>) {
    |Outstanding(ops)| <= capacity && (ops == [] || NeverOver(capacity, ops[..|ops| - 1]))
  }

  lemma OneMore(capacity: nat, s: Stream, op: Local)
    ensures var t := PlayOne(capacity, s, op);
      Dropped(t.offered) == Dropped(s.offered) + if op.Offer? && s.open && |s.buf| >= capacity then 1 else 0
  {
    var t := PlayOne(capacity, s, op);
    if op.Offer? && s.open {
      assert t.offered[..|t.offered| - 1] == s.offered;
    }
  }

  lemma {:induction false} ApplyAppend(h: Hub, a: seq<Op>, b: seq<Op>)
    ensures ApplyAll(h, a + b) == ApplyAll(ApplyAll(h, a), b)
    decreases |b|
  {
    if b == [] {
      assert a + b == a;
    } else {
      assert (a + b)[..|a + b| - 1] == a + b[..|b| - 1];
      ApplyAppend(h, a, b[..|b| - 1]);
    }
  }

  lemma Birth(h: Hub, before: seq<Op>, id: nat)
    requires HubOk(h) && id == ApplyAll(h, before).nextId + 1
    ensures var born := ApplyAll(h, before + [Subscribe]);
      HubOk(born) && id in born.streams && born.streams[id] == NEW && born.capacity == h.capacity
  {
    HubOkAll(h, before);
    HubOkAll(h, before + [Subscribe]);
    assert (before + [Subscribe])[..|before|] == before;
  }

  // A subscriber's whole life in any run: its stream depends on what follows its own Subscribe, through its own
  // view only, and accounts for every event broadcast until it was closed.
  lemma SubscriberLife(h: Hub, before: seq<Op>, after: seq<Op>, id: nat)
    requires HubOk(h) && id == ApplyAll(h, before).nextId + 1
    ensures var t := ApplyAll(h, before + [Subscribe] + after);
      && id in t.streams && t.streams[id] == Play(h.capacity, NEW, Project(after, id))
      && StreamOk(h.capacity, t.streams[id]) && Events(t.streams[id].offered) == Heard(Project(after, id))
  {
    Birth(h, before, id);
    ApplyAppend(h, before + [Subscribe], after);
    Independence(ApplyAll(h, before + [Subscribe]), after, id);
    Conservation(h.capacity, Project(after, id));
  }

  // ----- the table, updated in place -----

  class Table {
    const capacity: nat
    var nextId: nat
    var live: set<nat>
    var streams: map<nat, Stream>

    ghost function Contents(): Hub
      reads this
    {
      Hub(capacity, nextId, live, streams)
    }

    ghost predicate Valid()
      reads this
    {
      HubOk(Contents())
    }

    constructor (capacity: nat)
      ensures Valid() && Contents() == Hub(capacity, 0, {}, map[])
    {
      this.capacity := capacity;
      nextId, live, streams := 0, {}, map[];
    }

    method Subscribe() returns (id: nat)
      requires Valid()
      modifies this
      ensures Valid() && Contents() == Apply(old(Contents()), Op.Subscribe)
      ensures id !in old(streams) && id in live && streams[id] == NEW
    {
      nextId := nextId + 1;
      id := nextId;
      live := live + {id};
      streams := streams[id := NEW];
    }

    method Unsubscribe(id: nat)
      requires Valid()
      modifies this
      ensures Valid() && Contents() == Apply(old(Contents()), Op.Unsubscribe(id))
    {
      if id in live {
        live := live - {id};
        assert streams[id].open;  // never a second close
        streams := streams[id := CloseStream(streams[id])];
      }
    }

    method Receive(id: nat) returns (r: seq<GatewayEvent>)
      requires Valid() && id in streams
      modifies this
      ensures Valid() && Contents() == Apply(old(Contents()), Op.Receive(id))
      ensures r == if old(streams[id].buf) == [] then [] else [old(streams[id].buf)[0]]
    {
      var s := streams[id];
      if s.buf == [] {
        r := [];
      } else {
        r := [s.buf[0]];
        streams := streams[id := s.(received := s.received + [s.buf[0]], buf := s.buf[1..])];
      }
      assert Contents() == Apply(old(Contents()), Op.Receive(id));
    }

    // The loop visits the table in any order.
    method Broadcast(e: GatewayEvent)
      requires Valid()
      modifies this
      ensures Valid() && Contents() == Apply(old(Contents()), Op.Broadcast(e))
    {
      var todo := live;
      while todo != {}
        invariant todo <= live == old(live) && nextId == old(nextId) && streams.Keys == old(streams).Keys
        invariant forall id :: id in streams ==>
          streams[id] == (if id in live && id !in todo then OfferTo(capacity, old(streams)[id], e) else old(streams)[id])
      {
        var id :| id in todo;
        todo := todo - {id};
        var s := streams[id];
        assert s.open;  // never a send on a closed channel
        if |s.buf| < capacity {
          streams := streams[id := s.(buf := s.buf + [e], offered := s.offered + [Offered(e, true)])];
        } else {
          streams := streams[id := s.(offered := s.offered + [Offered(e, false)])];
        }
      }
    }

    // noopHandle.Close, and the second half of rpcHandle.waitLoop
    method CloseAll()
      requires Valid()
      modifies this
      ensures Valid() && Contents() == Apply(old(Contents()), Op.CloseAll)
    {
      while live != {}
        invariant live <= old(live) && nextId == old(nextId) && streams.Keys == old(streams).Keys
        invariant forall id :: id in streams ==>
          streams[id] == (if id in old(live) && id !in live then CloseStream(old(streams)[id]) else old(streams)[id])
      {
        var id :| id in live;
        live := live - {id};
        streams := streams[id := CloseStream(streams[id])];
      }
    }
  }

  // rpcHandle's subscriber table
  method NewRpcTable() returns (t: Table)
    ensures fresh(t) && t.Valid() && t.Contents() == Hub(128, 0, {}, map[])
  {
    t := new Table(RPC_CAPACITY);
  }

  // noopHandle's subscriber table
  method NewNoopTable() returns (t: Table)
    ensures fresh(t) && t.Valid() && t.Contents() == Hub(32, 0, {}, map[])
  {
    t := new Table(NOOP_CAPACITY);
  }
}
