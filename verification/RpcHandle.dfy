// The handle's own fields, updated the way its methods update them. The ghost field at carries the protocol
// state; every method is proved to take exactly one protocol step, except the wait loop, which takes the run
// that drains both maps.
module RpcHandle {
  import opened Options
  import opened RpcProtocol
  import opened RpcGuarantees

  // What a subscriber's removal changes of the state, and what it does not
  ghost predicate Dropped(s: State, t: State, id: nat) {
    && t.calls == s.calls && t.pending == s.pending && t.table == s.table - {id} && DoneClosed(t) == DoneClosed(s)
    && t.closed == s.closed && t.nextID == s.nextID && t.nextSub == s.nextSub && t.subs.Keys == s.subs.Keys
    && forall other :: other in s.subs ==> t.subs[other].open == (s.subs[other].open && other != id)
  }

  lemma DropStep(s: State, a: Action) returns (t: State)
    requires Inv(s) && Enabled(s, a) && (a.DrainSub? || a.Unsubscribe? || a.WatchRemove?)
    ensures t == Step(s, a) && Inv(t) && Dropped(s, t, a.id)
  {
    InvStep(s, a);
    RemovalEffect(s, a);
    t := Step(s, a);
  }

  // Removing an entry changes the pending table and no channel.
  lemma RemoveStep(s: State, c: nat) returns (t: State)
    requires Inv(s) && Enabled(s, Remove(c))
    ensures t == Step(s, Remove(c)) && Inv(t) && t.pending == s.pending - {Key(s.calls[c].num)}
    ensures t.calls.Keys == s.calls.Keys && forall d :: d in s.calls ==> t.calls[d].chan == s.calls[d].chan
    ensures t == s.(pending := t.pending, calls := t.calls)
  {
    InvStep(s, Remove(c));
    t := Step(s, Remove(c));
  }

  class Handle {
    var closed: bool
    var nextID: nat
    var nextSubID: nat
    var pending: map<string, nat>
    var chans: map<nat, Chan>
    var subscribers: set<nat>
    var streams: map<nat, bool>  // subscriber channels: still open?
    var done: bool
    ghost var at: State

    ghost predicate Valid()
      reads this
    {
      && Inv(at)
      && closed == at.closed && nextID == at.nextID && nextSubID == at.nextSub && pending == at.pending
      && subscribers == at.table && done == DoneClosed(at)
      && chans.Keys == at.calls.Keys && (forall c :: c in chans ==> chans[c] == at.calls[c].chan)
      && streams.Keys == at.subs.Keys && (forall id :: id in streams ==> streams[id] == at.subs[id].open)
    }

    constructor ()
      ensures Valid() && at == INITIAL
    {
      closed, nextID, nextSubID, done := false, 0, 0, false;
      pending, chans, streams, subscribers := map[], map[], map[], {};
      at := INITIAL;
    }

    // Steps that touch none of the handle's fields: sendCommand's writing and deciding, the reader's end and its
    // broadcasts, the process's exit, a watcher's waking.
    ghost method Meanwhile(a: Action)
      requires Valid() && Enabled(at, a)
      requires || a.MarshalFail? || a.WriteFail? || a.WriteOk? || a.SeeContext? || a.SeeDone?
               || a.ReaderStop? || a.Broadcast? || a.ProcessExit? || a.WatchContext? || a.WatchDone?
      modifies this`at
      ensures Valid() && at == Step(old(at), a)
    {
      InvStep(at, a);
      at := Step(at, a);
    }

    // sendCommand: draw a number, make the reply channel.
    method NewRequest(c: nat) returns (num: nat)
      requires Valid() && Enabled(at, Begin(c))
      modifies this
      ensures Valid() && at == Step(old(at), Begin(c)) && num == at.calls[c].num
    {
      nextID := nextID + 1;
      num := nextID;
      chans := chans[c := OPEN];
      InvStep(at, Begin(c));
      at := Step(at, Begin(c));
    }

    // sendCommand: the locked registration.
    method Register(c: nat, num: nat) returns (ok: bool)
      requires Valid() && Enabled(at, RpcProtocol.Register(c)) && num == at.calls[c].num
      modifies this
      ensures Valid() && at == Step(old(at), RpcProtocol.Register(c))
      ensures ok == !old(closed) && (!ok ==> At(at, c, Returned(Err(HandleClosed))))
    {
      InvStep(at, RpcProtocol.Register(c));
      ok := !closed;
      if !closed {
        pending := pending[Key(num) := c];
      }
      at := Step(at, RpcProtocol.Register(c));
    }

    // removePending on sendCommand's failure paths
    method RemovePending(c: nat, num: nat)
      requires Valid() && Enabled(at, Remove(c)) && num == at.calls[c].num
      modifies this
      ensures Valid() && at == Step(old(at), Remove(c)) && Key(num) !in pending
    {
      ghost var t := RemoveStep(at, c);
      pending := pending - {Key(num)};
      at := t;
    }

    // sendCommand's receive; on a closed empty channel Go yields the zero value.
    method Receive(c: nat) returns (r: Result)
      requires Valid() && Enabled(at, RpcProtocol.Receive(c))
      modifies this
      ensures Valid() && at == Step(old(at), RpcProtocol.Receive(c)) && At(at, c, Returned(r))
      ensures old(chans[c]).buf != [] ==>
        var env := old(chans[c]).buf[0];
        if env.success == Some(false) then r == Err(CommandFailed(if env.error != "" then env.error else "rpc command failed"))
        else r == Ok(env)
    {
      InvStep(at, RpcProtocol.Receive(c));
      var resp := ZERO;
      if chans[c].buf != [] {
        resp := chans[c].buf[0];
        chans := chans[c := chans[c].(buf := chans[c].buf[1..])];
      }
      if resp.success == Some(false) {
        if resp.error != "" {
          r := Err(CommandFailed(resp.error));
        } else {
          r := Err(CommandFailed("rpc command failed"));
        }
      } else {
        r := Ok(resp);
      }
      at := Step(at, RpcProtocol.Receive(c));
    }

    // readLoop: look the id up and take the entry, under the lock.
    method TakePending(env: Envelope) returns (target: Option<nat>)
      requires Valid() && Enabled(at, ReadResponse(env))
      modifies this
      ensures Valid() && at == Step(old(at), ReadResponse(env))
      ensures target == (if env.id in old(pending) then Some(old(pending)[env.id]) else None)
      ensures target.Some? ==> at.reader == Holding(target.value, env)
    {
      InvStep(at, ReadResponse(env));
      target := None;
      if env.id in pending {
        assert EntryOk(at, env.id);
        target := Some(pending[env.id]);
        pending := pending - {env.id};
      }
      at := Step(at, ReadResponse(env));
    }

    // readLoop: ch <- env, outside the lock. Neither branch of a Go panic or block is reachable.
    method SendReply(c: nat, env: Envelope)
      requires Valid() && at.reader == Holding(c, env)
      modifies this
      ensures Valid() && Enabled(old(at), ReaderSend) && at == Step(old(at), ReaderSend)
    {
      assert CallOk(at, c);
      InvStep(at, ReaderSend);
      assert !chans[c].closed && |chans[c].buf| < 1;
      chans := chans[c := chans[c].(buf := chans[c].buf + [env], sends := chans[c].sends + 1)];
      at := Step(at, ReaderSend);
    }

    // readLoop: close(ch), outside the lock
    method CloseReply(c: nat)
      requires Valid() && at.reader == Closing(c)
      modifies this
      ensures Valid() && Enabled(old(at), ReaderClose) && at == Step(old(at), ReaderClose)
    {
      assert CallOk(at, c);
      InvStep(at, ReaderClose);
      assert !chans[c].closed;
      chans := chans[c := chans[c].(closed := true, closes := chans[c].closes + 1)];
      at := Step(at, ReaderClose);
    }

    // One round of waitLoop's first loop
    method DrainOne(key: string)
      requires Valid() && at.waiter.Draining? && key in pending
      modifies this
      ensures Valid() && Enabled(old(at), DrainEntry(key)) && at == Step(old(at), DrainEntry(key))
      ensures pending == old(pending) - {key}
    {
      assert EntryOk(at, key);
      assert CallOk(at, at.pending[key]);
      InvStep(at, DrainEntry(key));
      var c := pending[key];
      pending := pending - {key};
      assert !chans[c].closed;
      chans := chans[c := chans[c].(closed := true, closes := chans[c].closes + 1)];
      at := Step(at, DrainEntry(key));
    }

    // delete from subscribers and close, if still there: waitLoop's second loop and unsubscribe
    method DropSubscriber(id: nat, ghost a: Action)
      requires Valid() && Enabled(at, a) && id in at.subs && (a == DrainSub(id) || a == Unsubscribe(id) || a == WatchRemove(id))
      modifies this
      ensures Valid() && at == Step(old(at), a) && subscribers == old(subscribers) - {id} && pending == old(pending)
    {
      ghost var t := DropStep(at, a);
      RemoveStream(id, t);
    }

    method RemoveStream(id: nat, ghost t: State)
      requires Valid() && id in at.subs && Inv(t) && Dropped(at, t, id)
      modifies this
      ensures Valid() && at == t && subscribers == old(subscribers) - {id} && pending == old(pending)
    {
      if id in subscribers {
        assert streams[id];
        subscribers := subscribers - {id};
        streams := streams[id := false];
      }
      at := t;
    }

    // waitLoop's first loop
    method DrainPending() returns (ghost acts: seq<Action>)
      requires Valid() && at.waiter.Draining?
      modifies this
      ensures Valid() && at.waiter.Draining? && pending == map[] && Run(old(at), acts) == Some(at)
    {
      ghost var start := at;
      acts := [];
      while pending != map[]
        invariant Valid() && at.waiter.Draining? && Run(start, acts) == Some(at)
        decreases pending.Keys
      {
        var key :| key in pending;
        assert EntryOk(at, key);
        RunSnoc(start, acts, at, DrainEntry(key));
        acts := acts + [DrainEntry(key)];
        DrainOne(key);
      }
    }

    // waitLoop's second loop
    method DrainSubscribers() returns (ghost acts: seq<Action>)
      requires Valid() && at.waiter.Draining? && pending == map[]
      modifies this
      ensures Valid() && at.waiter.Draining? && pending == map[] && subscribers == {} && Run(old(at), acts) == Some(at)
    {
      ghost var start := at;
      acts := [];
      while subscribers != {}
        invariant Valid() && at.waiter.Draining? && pending == map[] && Run(start, acts) == Some(at)
        decreases subscribers
      {
        var id :| id in subscribers;
        RunSnoc(start, acts, at, DrainSub(id));
        acts := acts + [DrainSub(id)];
        DropSubscriber(id, DrainSub(id));
      }
    }

    // waitLoop's last statements: closed = true, unlock, close(done)
    method FinishWait()
      requires Valid() && at.waiter.Draining? && pending == map[] && subscribers == {}
      modifies this
      ensures Valid() && done && closed && pending == map[] && subscribers == {}
      ensures Run(old(at), [DrainEnd, CloseDone]) == Some(at)
    {
      ghost var s := at;
      ghost var mid := Step(s, DrainEnd);
      InvStep(s, DrainEnd);
      InvStep(mid, CloseDone);
      closed := true;
      done := true;
      at := Step(mid, CloseDone);
      RunCons(mid, CloseDone, []);
      RunCons(s, DrainEnd, [CloseDone]);
    }

    // waitLoop after cmd.Wait returned: drain both maps under the lock, mark closed, then close done.
    method WaitLoop() returns (ghost acts: seq<Action>)
      requires Valid() && at.waiter.Exited?
      modifies this
      ensures Valid() && Run(old(at), acts) == Some(at)
      ensures done && closed && pending == map[] && subscribers == {}
    {
      ghost var s0 := at;
      InvStep(at, DrainStart);
      at := Step(at, DrainStart);
      ghost var s1 := at;
      ghost var requests := DrainPending();
      ghost var s2 := at;
      ghost var subs := DrainSubscribers();
      ghost var s3 := at;
      FinishWait();
      RunAppend(s2, subs, s3, [DrainEnd, CloseDone], at);
      RunAppend(s1, requests, s2, subs + [DrainEnd, CloseDone], at);
      RunCons(s0, DrainStart, requests + (subs + [DrainEnd, CloseDone]));
      acts := [DrainStart] + (requests + (subs + [DrainEnd, CloseDone]));
    }

    // Close: the first caller marks the handle closed; later ones return at once.
    method Close() returns (first: bool)
      requires Valid() && Enabled(at, MarkClosed)
      modifies this
      ensures Valid() && at == Step(old(at), MarkClosed) && first == !old(closed) && closed
      ensures pending == old(pending) && chans == old(chans) && subscribers == old(subscribers) && done == old(done)
    {
      InvStep(at, MarkClosed);
      first := !closed;
      if first {
        closed := true;
      }
      at := Step(at, MarkClosed);
    }

    method Subscribe() returns (id: nat)
      requires Valid() && LockFree(at)
      modifies this
      ensures Valid() && Enabled(old(at), RpcProtocol.Subscribe) && at == Step(old(at), RpcProtocol.Subscribe)
      ensures id !in old(streams) && id in subscribers
    {
      InvStep(at, RpcProtocol.Subscribe);
      nextSubID := nextSubID + 1;
      id := nextSubID;
      subscribers := subscribers + {id};
      streams := streams[id := true];
      at := Step(at, RpcProtocol.Subscribe);
    }
  }
}
