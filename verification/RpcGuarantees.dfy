// What holds of the RPC handle over every run, whatever the interleaving.
module RpcGuarantees {
  import opened Options
  import opened RpcProtocol

  lemma {:induction false} RunKeeps(s: State, acts: seq<Action>, t: State)
    requires Inv(s) && Run(s, acts) == Some(t)
    ensures Inv(t)
    decreases |acts|
  {
    if acts != [] {
      InvStep(s, acts[0]);
      RunKeeps(Step(s, acts[0]), acts[1..], t);
    }
  }

  lemma ReachableKeeps(s: State)
    requires Reachable(s)
    ensures Inv(s)
  {
    var acts :| Run(INITIAL, acts) == Some(s);
    RunKeeps(INITIAL, acts, s);
  }

  // Channel ownership: no send or close ever hits a closed channel, no channel sees two sends or two closes,
  // the reader's send outside the lock finds room, and no two calls share a request id.
  lemma ChannelSafety(s: State)
    requires Reachable(s)
    ensures !s.panicked
    ensures forall c :: c in s.calls ==>
      s.calls[c].chan.sends <= 1 && s.calls[c].chan.closes == if s.calls[c].chan.closed then 1 else 0
    ensures s.reader.Holding? ==> Enabled(s, ReaderSend) && !s.calls[s.reader.call].chan.closed
    ensures s.reader.Closing? ==> Enabled(s, ReaderClose) && !s.calls[s.reader.call].chan.closed
    ensures forall c, d :: c in s.calls && d in s.calls && Key(s.calls[c].num) == Key(s.calls[d].num) ==> c == d
    ensures forall id :: id in s.subs ==> s.subs[id].closes <= 1 && (id in s.table <==> s.subs[id].open)
  {
    ReachableKeeps(s);
    forall c | c in s.calls
      ensures s.calls[c].chan.sends <= 1 && s.calls[c].chan.closes == if s.calls[c].chan.closed then 1 else 0
    {
      assert CallOk(s, c);
    }
    forall c, d | c in s.calls && d in s.calls && Key(s.calls[c].num) == Key(s.calls[d].num) ensures c == d {
      KeyOfOne(s, c, d);
    }
    if s.reader.Holding? || s.reader.Closing? {
      assert CallOk(s, s.reader.call);
    }
  }

  // Pi answered call c: some line read after c registered carried c's own id and was routed to c.
  ghost predicate AnsweredBy(s: State, c: nat, env: Envelope)
    requires c in s.calls
  {
    exists i: nat :: RoutedTo(s, c, i) && s.lines[i].env == env
  }

  // The waiter closed c's channel with nothing ever sent on it.
  predicate DrainedUnanswered(s: State, c: nat)
    requires c in s.calls
  {
    s.calls[c].chan.closed && s.calls[c].chan.sends == 0
  }

  // Correlation: a nil error brings Pi's answer to this very request, or the zero envelope of a drained entry,
  // and the caller can tell which from the envelope's type.
  lemma Correlation(s: State, c: nat, env: Envelope)
    requires Reachable(s) && At(s, c, Returned(Ok(env)))
    ensures AnsweredBy(s, c, env) <==> !DrainedUnanswered(s, c)
    ensures AnsweredBy(s, c, env) <==> env.typ == "response"
    ensures (DrainedUnanswered(s, c) && env == ZERO) <==> env.typ != "response"
  {
    ReachableKeeps(s);
    assert CallOk(s, c);
    var k := s.calls[c];
    if !k.owner.Drained? {
      assert RoutedTo(s, c, k.owner.line);
    }
    forall i: nat | RoutedTo(s, c, i) ensures !k.owner.Drained? && s.lines[i].env.typ == "response" {
      assert LineOk(s, i);
    }
  }

  // A line reaches at most the call whose id it carries, and a call at most one line: duplicates and late
  // answers go nowhere.
  lemma NoCrossTalk(s: State, i: nat, j: nat)
    requires Reachable(s) && i < |s.lines| && j < |s.lines|
    ensures s.lines[i].target.Some? ==> s.lines[i].target.value in s.calls && RoutedTo(s, s.lines[i].target.value, i)
    ensures s.lines[i].target.Some? && s.lines[i].target == s.lines[j].target ==> i == j
  {
    ReachableKeeps(s);
    assert LineOk(s, i) && LineOk(s, j);
    if s.lines[i].target.Some? {
      assert CallOk(s, s.lines[i].target.value);
    }
  }

  // A call parked in its select, in a handle where nothing else has happened
  function Parked(): State {
    INITIAL.(nextID := 1, pending := map[Key(1) := 0], calls := map[0 := Call(1, Waiting, OPEN, 0, Table)])
  }

  lemma ParkedReachable()
    ensures Run(INITIAL, [Begin(0)] + ([Register(0)] + [WriteOk(0)])) == Some(Parked())
  {
    var s1 := Step(INITIAL, Begin(0));
    var s2 := Step(s1, Register(0));
    RunCons(INITIAL, Begin(0), [Register(0)] + [WriteOk(0)]);
    RunCons(s1, Register(0), [WriteOk(0)]);
    RunCons(s2, WriteOk(0), []);
    assert Step(s2, WriteOk(0)) == Parked();
    assert [WriteOk(0)] + [] == [WriteOk(0)];
  }

  // The same call with its entry drained and the waiter still inside its critical section
  function ParkedDrained(): State {
    INITIAL.(nextID := 1, waiter := Draining, calls := map[0 := Call(1, Waiting, Chan([], true, 0, 1), 0, Drained)])
  }

  lemma ParkedDrains()
    ensures Run(Parked(), [ProcessExit] + ([DrainStart] + [DrainEntry(Key(1))])) == Some(ParkedDrained())
  {
    var s1 := Parked().(waiter := Exited);
    var s2 := Parked().(waiter := Draining);
    RunCons(Parked(), ProcessExit, [DrainStart] + [DrainEntry(Key(1))]);
    RunCons(s1, DrainStart, [DrainEntry(Key(1))]);
    RunCons(s2, DrainEntry(Key(1)), []);
    assert [DrainEntry(Key(1))] + [] == [DrainEntry(Key(1))];
    DrainParked(s2);
  }

  lemma DrainParked(s: State)
    requires s == Parked().(waiter := Draining)
    ensures Enabled(s, DrainEntry(Key(1))) && Step(s, DrainEntry(Key(1))) == ParkedDrained()
  {
    assert s.pending - {Key(1)} == map[];
  }

  lemma DrainedReceives()
    ensures var t := Run(ParkedDrained(), [Receive(0)]);
      t.Some? && At(t.value, 0, Returned(Ok(ZERO))) && t.value.lines == [] && !DoneClosed(t.value)
  {
    RunCons(ParkedDrained(), Receive(0), []);
    assert [Receive(0)] + [] == [Receive(0)];
  }

  // "A nil error means Pi answered" is not true: a call drained at exit returns nil with nothing ever read,
  // and does so before h.done is closed.
  lemma NilErrorWithoutAnswer() returns (s: State)
    ensures Reachable(s) && At(s, 0, Returned(Ok(ZERO))) && s.lines == [] && !DoneClosed(s)
  {
    ParkedReachable();
    ParkedDrains();
    DrainedReceives();
    var park := [Begin(0)] + ([Register(0)] + [WriteOk(0)]);
    var drain := [ProcessExit] + ([DrainStart] + [DrainEntry(Key(1))]);
    s := Run(ParkedDrained(), [Receive(0)]).value;
    RunAppend(Parked(), drain, ParkedDrained(), [Receive(0)], s);
    RunAppend(INITIAL, park, Parked(), drain + [Receive(0)], s);
    assert Leads(INITIAL, s);
  }

  lemma RunCons(s: State, a: Action, rest: seq<Action>)
    requires Enabled(s, a)
    ensures Run(s, [a] + rest) == Run(Step(s, a), rest)
  {
    assert ([a] + rest)[1..] == rest;
  }

  lemma {:induction false} RunAppend(s: State, acts: seq<Action>, mid: State, more: seq<Action>, t: State)
    requires Run(s, acts) == Some(mid) && Run(mid, more) == Some(t)
    ensures Run(s, acts + more) == Some(t)
    decreases |acts|
  {
    if acts == [] {
      assert acts + more == more;
    } else {
      assert (acts + more)[1..] == acts[1..] + more;
      RunAppend(Step(s, acts[0]), acts[1..], mid, more, t);
    }
  }

  lemma RunSnoc(s: State, acts: seq<Action>, t: State, a: Action)
    requires Run(s, acts) == Some(t) && Enabled(t, a)
    ensures Run(s, acts + [a]) == Some(Step(t, a))
  {
    RunCons(t, a, []);
    RunAppend(s, acts, t, [a], Step(t, a));
  }

  // ----- exit -----

  predicate PastDrain(s: State) {
    s.waiter.Unlocked? || s.waiter.Finished?
  }

  // Exit is final: once closed, closed; once the waiter has drained, no entry is ever pending again, and no
  // caller that had not registered by then gets anything but the handle-closed error.
  lemma {:induction false} ExitIsFinal(s: State, acts: seq<Action>, t: State)
    requires Inv(s) && Run(s, acts) == Some(t)
    ensures s.closed ==> t.closed
    ensures PastDrain(s) ==> PastDrain(t) && t.closed && t.pending == map[]
    ensures forall c :: s.closed && c in t.calls && (c !in s.calls || s.calls[c].pc.Numbered?) ==>
      t.calls[c].pc.Numbered? || t.calls[c].pc == Returned(Err(HandleClosed))
    decreases |acts|
  {
    if acts != [] {
      var a := acts[0];
      InvStep(s, a);
      ExitStep(s, a);
      if s.closed {
        ShutOutStep(s, a);
      }
      var mid := Step(s, a);
      ExitIsFinal(mid, acts[1..], t);
      forall c | s.closed && c in t.calls && (c !in s.calls || s.calls[c].pc.Numbered?)
        ensures t.calls[c].pc.Numbered? || t.calls[c].pc == Returned(Err(HandleClosed))
      {
        if c in mid.calls && mid.calls[c].pc.Returned? {
          ReturnedStays(mid, acts[1..], t, c);
        }
      }
    }
  }

  lemma ExitStep(s: State, a: Action)
    requires Inv(s) && Enabled(s, a)
    ensures s.closed ==> Step(s, a).closed
    ensures PastDrain(s) ==> PastDrain(Step(s, a))
  {
  }

  lemma ShutOutStep(s: State, a: Action)
    requires s.closed && Enabled(s, a)
    ensures forall c :: c in Step(s, a).calls && (c !in s.calls || s.calls[c].pc.Numbered?) ==>
      Step(s, a).calls[c].pc.Numbered? || Step(s, a).calls[c].pc == Returned(Err(HandleClosed))
  {
    forall c | c in Step(s, a).calls && (c !in s.calls || s.calls[c].pc.Numbered?)
      ensures Step(s, a).calls[c].pc.Numbered? || Step(s, a).calls[c].pc == Returned(Err(HandleClosed))
    {
      if c in s.calls && Mover(a) != Some(Caller(c)) {
        OthersWait(s, a, c);
      }
    }
  }

  lemma {:induction false} ReturnedStays(s: State, acts: seq<Action>, t: State, c: nat)
    requires Run(s, acts) == Some(t) && c in s.calls && s.calls[c].pc.Returned?
    ensures c in t.calls && t.calls[c].pc == s.calls[c].pc
    decreases |acts|
  {
    if acts != [] {
      ReturnedStep(s, acts[0], c);
      ReturnedStays(Step(s, acts[0]), acts[1..], t, c);
    }
  }

  lemma ReturnedStep(s: State, a: Action, c: nat)
    requires Enabled(s, a) && c in s.calls && s.calls[c].pc.Returned?
    ensures c in Step(s, a).calls && Step(s, a).calls[c].pc == s.calls[c].pc
  {
    ReturnedRests(s, a, c);
    OthersWait(s, a, c);
  }

  lemma ReturnedRests(s: State, a: Action, c: nat)
    requires Enabled(s, a) && c in s.calls
    ensures Mover(a) == Some(Caller(c)) ==> !s.calls[c].pc.Returned?
  {
  }

  // Those who may have to wait: callers of sendCommand and subscribers' watcher goroutines.
  datatype Party = Caller(c: nat) | Watch(id: nat)

  ghost function Parties(s: State): set<Party> {
    (set c | c in s.calls :: Caller(c)) + (set id | id in s.subs :: Watch(id))
  }

  // How many steps a party still has to take, at most.
  function Rank(s: State, p: Party): nat {
    match p
    case Caller(c) =>
      if c !in s.calls then 0
      else (match s.calls[c].pc
        case Numbered => 4
        case Registered => 3
        case Waiting => 2
        case Removing(_) => 1
        case Returned(_) => 0)
    case Watch(id) =>
      if id !in s.subs then 0
      else (match s.subs[id].watcher
        case Watching => 2
        case Unsubscribing => 1
        case Gone => 0)
  }

  function Mover(a: Action): Option<Party> {
    match a
    case Register(c) => Some(Caller(c))
    case MarshalFail(c) => Some(Caller(c))
    case WriteFail(c) => Some(Caller(c))
    case WriteOk(c) => Some(Caller(c))
    case SeeContext(c) => Some(Caller(c))
    case SeeDone(c) => Some(Caller(c))
    case Receive(c) => Some(Caller(c))
    case Remove(c) => Some(Caller(c))
    case WatchContext(id) => Some(Watch(id))
    case WatchDone(id) => Some(Watch(id))
    case WatchRemove(id) => Some(Watch(id))
    case _ => None
  }

  lemma RankStep(s: State, a: Action, p: Party)
    requires Enabled(s, a) && p in Parties(s)
    ensures p in Parties(Step(s, a))
    ensures Rank(Step(s, a), p) <= Rank(s, p)
    ensures Mover(a) == Some(p) ==> Rank(Step(s, a), p) < Rank(s, p)
  {
    match p
    case Caller(c) =>
      CallerRankStep(s, a, c);
    case Watch(id) =>
      WatchRankStep(s, a, id);
  }

  lemma CallerRankStep(s: State, a: Action, c: nat)
    requires Enabled(s, a) && c in s.calls
    ensures c in Step(s, a).calls && Rank(Step(s, a), Caller(c)) <= Rank(s, Caller(c))
    ensures Mover(a) == Some(Caller(c)) ==> Rank(Step(s, a), Caller(c)) < Rank(s, Caller(c))
  {
    if Mover(a) == Some(Caller(c)) {
      MoverAdvances(s, a, c);
    } else {
      OthersWait(s, a, c);
    }
  }

  lemma MoverAdvances(s: State, a: Action, c: nat)
    requires Enabled(s, a) && c in s.calls && Mover(a) == Some(Caller(c))
    ensures c in Step(s, a).calls && Rank(Step(s, a), Caller(c)) < Rank(s, Caller(c))
  {
  }

  lemma OthersWait(s: State, a: Action, c: nat)
    requires Enabled(s, a) && c in s.calls && Mover(a) != Some(Caller(c))
    ensures c in Step(s, a).calls && Step(s, a).calls[c].pc == s.calls[c].pc
  {
    if a.Remove? {
      RemoveKeepsPc(s, a, c);
    } else if TouchesEntry(a) {
      EntryStepsKeepPc(s, a, c);
    } else {
      CallStepsKeepPc(s, a, c);
    }
  }

  lemma RemoveKeepsPc(s: State, a: Action, c: nat)
    requires Enabled(s, a) && c in s.calls && a.Remove? && a.c != c
    ensures c in Step(s, a).calls && Step(s, a).calls[c].pc == s.calls[c].pc
  {
  }

  lemma EntryStepsKeepPc(s: State, a: Action, c: nat)
    requires Enabled(s, a) && c in s.calls && TouchesEntry(a) && !a.Remove?
    ensures c in Step(s, a).calls && Step(s, a).calls[c].pc == s.calls[c].pc
  {
  }

  lemma CallStepsKeepPc(s: State, a: Action, c: nat)
    requires Enabled(s, a) && c in s.calls && Mover(a) != Some(Caller(c)) && !TouchesEntry(a)
    ensures c in Step(s, a).calls && Step(s, a).calls[c].pc == s.calls[c].pc
  {
    if Internal(a) {
      InternalEffect(s, a);
    }
  }

  lemma WatchRankStep(s: State, a: Action, id: nat)
    requires Enabled(s, a) && id in s.subs
    ensures id in Step(s, a).subs && Rank(Step(s, a), Watch(id)) <= Rank(s, Watch(id))
    ensures Mover(a) == Some(Watch(id)) ==> Rank(Step(s, a), Watch(id)) < Rank(s, Watch(id))
  {
    if Mover(a) == Some(Watch(id)) {
      WatcherAdvances(s, a, id);
    } else {
      WatchersWait(s, a, id);
    }
  }

  lemma WatcherAdvances(s: State, a: Action, id: nat)
    requires Enabled(s, a) && id in s.subs && Mover(a) == Some(Watch(id))
    ensures id in Step(s, a).subs && Rank(Step(s, a), Watch(id)) < Rank(s, Watch(id))
  {
  }

  lemma WatchersWait(s: State, a: Action, id: nat)
    requires Enabled(s, a) && id in s.subs && Mover(a) != Some(Watch(id))
    ensures id in Step(s, a).subs && Step(s, a).subs[id].watcher == s.subs[id].watcher
  {
    if OnSubs(a) {
      SubStepsKeepWatcher(s, a, id);
    } else {
      SubsUntouched(s, a);
    }
  }

  lemma SubStepsKeepWatcher(s: State, a: Action, id: nat)
    requires Enabled(s, a) && OnSubs(a) && id in s.subs && Mover(a) != Some(Watch(id))
    ensures id in Step(s, a).subs && Step(s, a).subs[id].watcher == s.subs[id].watcher
  {
    if a.DrainSub? || a.Unsubscribe? || a.WatchRemove? {
      RemovalEffect(s, a);
    }
  }

  // The steps the parties of p still owe, as a set of tokens.
  ghost function Owed(s: State, ps: set<Party>): set<(Party, nat)> {
    set p, r: nat | p in ps && 0 <= r < Rank(s, p) :: (p, r)
  }

  function Moves(acts: seq<Action>, ps: set<Party>): nat {
    if acts == [] then 0
    else (if Mover(acts[0]).Some? && Mover(acts[0]).value in ps then 1 else 0) + Moves(acts[1..], ps)
  }

  lemma SubsetSize<T>(a: set<T>, b: set<T>)
    requires a <= b
    ensures |a| <= |b| && (a != b ==> |a| < |b|)
  {
    assert b == a + (b - a);
  }

  // However the others interleave, the parties present take at most as many steps as they owe.
  lemma {:induction false} MovesBounded(s: State, acts: seq<Action>, t: State, ps: set<Party>)
    requires Run(s, acts) == Some(t) && ps <= Parties(s)
    ensures ps <= Parties(t)
    ensures Moves(acts, ps) + |Owed(t, ps)| <= |Owed(s, ps)|
    decreases |acts|
  {
    if acts != [] {
      var a := acts[0];
      var mid := Step(s, a);
      forall p | p in ps
        ensures p in Parties(mid) && Rank(mid, p) <= Rank(s, p)
        ensures Mover(a) == Some(p) ==> Rank(mid, p) < Rank(s, p)
      {
        RankStep(s, a, p);
      }
      if Mover(a).Some? && Mover(a).value in ps {
        var token := (Mover(a).value, Rank(s, Mover(a).value) - 1);
        assert token in Owed(s, ps) && token !in Owed(mid, ps);
      }
      SubsetSize(Owed(mid, ps), Owed(s, ps));
      MovesBounded(mid, acts[1..], t, ps);
    }
  }

  // After h.done is closed every party that still owes a step can take one, a late subscriber's watcher included.
  lemma NobodyStuck(s: State, p: Party) returns (a: Action)
    requires DoneClosed(s) && p in Parties(s) && Rank(s, p) > 0
    ensures Mover(a) == Some(p) && Enabled(s, a)
    ensures DoneClosed(Step(s, a)) && Parties(Step(s, a)) == Parties(s)
  {
    match p
    case Caller(c) =>
      a := match s.calls[c].pc
        case Numbered => Register(c)
        case Registered => WriteFail(c)
        case Waiting => SeeDone(c)
        case _ => Remove(c);
      CallerStepKeepsParties(s, a);
    case Watch(id) =>
      a := if s.subs[id].watcher.Watching? then WatchDone(id) else WatchRemove(id);
      WatchStepKeepsParties(s, a);
  }

  lemma CallerStepKeepsParties(s: State, a: Action)
    requires DoneClosed(s) && Enabled(s, a) && (a.Register? || a.WriteFail? || a.SeeDone? || a.Remove?)
    ensures DoneClosed(Step(s, a)) && Parties(Step(s, a)) == Parties(s)
  {
    assert Step(s, a).calls.Keys == s.calls.Keys && Step(s, a).subs == s.subs;
  }

  lemma WatchStepKeepsParties(s: State, a: Action)
    requires DoneClosed(s) && Enabled(s, a) && (a.WatchDone? || a.WatchRemove?)
    ensures DoneClosed(Step(s, a)) && Parties(Step(s, a)) == Parties(s)
  {
    assert Step(s, a).calls == s.calls && Step(s, a).subs.Keys == s.subs.Keys;
  }

  // Exit drains everyone: from any state with h.done closed the parties can all finish, in at most the steps owed.
  lemma ExitDrains(s: State) returns (acts: seq<Action>, t: State)
    requires DoneClosed(s)
    ensures Run(s, acts) == Some(t) && |acts| <= |Owed(s, Parties(s))|
    ensures Parties(t) == Parties(s) && forall p :: p in Parties(t) ==> Rank(t, p) == 0
    decreases |Owed(s, Parties(s))|
  {
    if p :| p in Parties(s) && Rank(s, p) > 0 {
      var a := NobodyStuck(s, p);
      var mid := Step(s, a);
      RunCons(s, a, []);
      MovesBounded(s, [a], mid, Parties(s));
      assert [a][1..] == [];
      assert Moves([a], Parties(s)) == 1;
      var rest, end := ExitDrains(mid);
      acts, t := [a] + rest, end;
      RunCons(s, a, rest);
    } else {
      acts, t := [], s;
    }
  }
}
