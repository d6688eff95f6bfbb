// The Pi RPC handle as a state machine: command senders, the stdout reader, the process waiter, Close callers
// and subscribers interleave over the handle's shared maps. A critical section under h.mu is one step, except
// that the waiter's, which drains two maps, is one step per entry with the lock held throughout; the reader's
// channel operations happen outside the lock and are steps of their own.
module RpcProtocol {
  import opened Options
  import opened Decimals
  import opened Gateway

  // The fields of rpcEnvelope that decide anything.
  datatype Envelope = Envelope(typ: string, id: string, success: Option<bool>, error: string, data: string)

  const ZERO: Envelope := Envelope("", "", None, "", "")

  datatype Failure = HandleClosed | MarshalFailed | WriteFailed | ContextDone | ProcessExited | CommandFailed(message: string)

  datatype Result = Ok(env: Envelope) | Err(failure: Failure)

  // make(chan rpcEnvelope, 1), with counts of the sends and closes it has seen
  datatype Chan = Chan(buf: seq<Envelope>, closed: bool, sends: nat, closes: nat)

  const OPEN: Chan := Chan([], false, 0, 0)

  datatype Pc = Numbered | Registered | Waiting | Removing(failure: Failure) | Returned(result: Result)

  // Who may still send on or close a call's channel. History only: no step looks at it.
  datatype Owner = Unregistered | Table | Reader(line: nat) | Answered(line: nat) | Drained | Abandoned

  // One invocation of sendCommand. since: how many response lines had been read when it registered.
  datatype Call = Call(num: nat, pc: Pc, chan: Chan, since: nat, owner: Owner)

  datatype ReaderPc = Reading | Holding(call: nat, env: Envelope) | Closing(call: nat) | Stopped

  datatype WaiterPc = Running | Exited | Draining | Unlocked | Finished

  datatype Watcher = Watching | Unsubscribing | Gone

  datatype Sub = Sub(watcher: Watcher, open: bool, closes: nat)

  // A response line, and the call whose entry it removed from the table.
  datatype Line = Line(env: Envelope, target: Option<nat>)

  datatype State = State(
    closed: bool,
    nextID: nat,
    pending: map<string, nat>,
    calls: map<nat, Call>,
    reader: ReaderPc,
    waiter: WaiterPc,
    lines: seq<Line>,
    nextSub: nat,
    table: set<nat>,
    subs: map<nat, Sub>,
    panicked: bool)

  const INITIAL: State := State(false, 0, map[], map[], Reading, Running, [], 0, {}, map[], false)

  datatype Action =
    | Begin(c: nat) | Register(c: nat) | MarshalFail(c: nat) | WriteFail(c: nat) | WriteOk(c: nat)
    | SeeContext(c: nat) | SeeDone(c: nat) | Receive(c: nat) | Remove(c: nat)
    | ReadResponse(env: Envelope) | ReaderSend | ReaderClose | ReaderStop | Broadcast(event: GatewayEvent)
    | ProcessExit | DrainStart | DrainEntry(key: string) | DrainSub(id: nat) | DrainEnd | CloseDone
    | MarkClosed
    | Subscribe | Unsubscribe(id: nat) | WatchContext(id: nat) | WatchDone(id: nat) | WatchRemove(id: nat)

  // fmt.Sprintf("req-%d", id)
  function Key(num: nat): string {
    "req-" + Decimal(num)
  }

  lemma KeyInjective(m: nat, n: nat)
    ensures Key(m) == Key(n) ==> m == n
    ensures "req-" <= Key(m)
  {
    if Key(m) == Key(n) {
      assert Decimal(m) == Key(m)[4..] && Decimal(n) == Key(n)[4..];
      DecimalInjective(m, n);
    }
  }

  predicate LockFree(s: State) {
    !s.waiter.Draining?
  }

  // h.done is closed
  predicate DoneClosed(s: State) {
    s.waiter.Finished?
  }

  predicate At(s: State, c: nat, pc: Pc) {
    c in s.calls && s.calls[c].pc == pc
  }

  predicate Enabled(s: State, a: Action) {
    match a
    case Begin(c) => c !in s.calls
    case Register(c) => At(s, c, Numbered) && LockFree(s)
    case MarshalFail(c) => At(s, c, Registered)
    case WriteFail(c) => At(s, c, Registered)
    case WriteOk(c) => At(s, c, Registered)
    case SeeContext(c) => At(s, c, Waiting)
    case SeeDone(c) => At(s, c, Waiting) && DoneClosed(s)
    case Receive(c) => At(s, c, Waiting) && (s.calls[c].chan.buf != [] || s.calls[c].chan.closed)
    case Remove(c) => c in s.calls && s.calls[c].pc.Removing? && LockFree(s)
    case ReadResponse(env) => s.reader.Reading? && LockFree(s) && env.typ == "response"
    // a send on a full open channel would block
    case ReaderSend => s.reader.Holding? && s.reader.call in s.calls
                       && (s.calls[s.reader.call].chan.closed || |s.calls[s.reader.call].chan.buf| < 1)
    case ReaderClose => s.reader.Closing? && s.reader.call in s.calls
    case ReaderStop => s.reader.Reading?
    case Broadcast(_) => s.reader.Reading? && LockFree(s)
    case ProcessExit => s.waiter.Running?
    case DrainStart => s.waiter.Exited?
    case DrainEntry(key) => s.waiter.Draining? && key in s.pending && s.pending[key] in s.calls
    case DrainSub(id) => s.waiter.Draining? && s.pending == map[] && id in s.table && id in s.subs
    case DrainEnd => s.waiter.Draining? && s.pending == map[] && s.table == {}
    case CloseDone => s.waiter.Unlocked?
    case MarkClosed => LockFree(s)
    case Subscribe => LockFree(s) && s.nextSub + 1 !in s.subs
    case Unsubscribe(id) => id in s.subs && LockFree(s)
    case WatchContext(id) => id in s.subs && s.subs[id].watcher.Watching?
    case WatchDone(id) => id in s.subs && s.subs[id].watcher.Watching? && DoneClosed(s)
    case WatchRemove(id) => id in s.subs && s.subs[id].watcher.Unsubscribing? && LockFree(s)
  }

  function SetPc(s: State, c: nat, pc: Pc): State
    requires c in s.calls
  {
    s.(calls := s.calls[c := s.calls[c].(pc := pc)])
  }

  // ch <- env
  function SendOn(s: State, c: nat, env: Envelope): State
    requires c in s.calls
  {
    var k := s.calls[c];
    if k.chan.closed then s.(panicked := true)
    else s.(calls := s.calls[c := k.(chan := k.chan.(buf := k.chan.buf + [env], sends := k.chan.sends + 1))])
  }

  // close(ch)
  function CloseChan(s: State, c: nat, owner: Owner): State
    requires c in s.calls
  {
    var k := s.calls[c];
    if k.chan.closed then s.(panicked := true)
    else s.(calls := s.calls[c := k.(chan := k.chan.(closed := true, closes := k.chan.closes + 1), owner := owner)])
  }

  // delete(h.pending, id): whoever's entry stands there loses its channel.
  function DeletePending(s: State, key: string): State {
    if key in s.pending then
      var d := s.pending[key];
      s.(pending := s.pending - {key},
         calls := if d in s.calls then s.calls[d := s.calls[d].(owner := Abandoned)] else s.calls)
    else s
  }

  function RemoveSub(s: State, id: nat, watcher: Watcher): State
    requires id in s.subs
  {
    var sub := s.subs[id].(watcher := watcher);
    if id !in s.table then s.(subs := s.subs[id := sub])
    else if !sub.open then s.(table := s.table - {id}, subs := s.subs[id := sub], panicked := true)
    else s.(table := s.table - {id}, subs := s.subs[id := sub.(open := false, closes := sub.closes + 1)])
  }

  // What sendCommand's select returns on a receive.
  function Outcome(env: Envelope): Result {
    if env.success == Some(false)
    then Err(CommandFailed(if env.error != "" then env.error else "rpc command failed"))
    else Ok(env)
  }

  function Step(s: State, a: Action): State
    requires Enabled(s, a)
  {
    match a
    case Begin(c) => s.(nextID := s.nextID + 1, calls := s.calls[c := Call(s.nextID + 1, Numbered, OPEN, 0, Unregistered)])
    case Register(c) =>
      if s.closed then SetPc(s, c, Returned(Err(HandleClosed)))
      else s.(pending := s.pending[Key(s.calls[c].num) := c],
              calls := s.calls[c := s.calls[c].(pc := Registered, since := |s.lines|, owner := Table)])
    case MarshalFail(c) => SetPc(s, c, Removing(MarshalFailed))
    case WriteFail(c) => SetPc(s, c, Removing(WriteFailed))
    case WriteOk(c) => SetPc(s, c, Waiting)
    case SeeContext(c) => SetPc(s, c, Removing(ContextDone))
    case SeeDone(c) => SetPc(s, c, Removing(ProcessExited))
    case Receive(c) =>
      var k := s.calls[c];
      if k.chan.buf != []
      then s.(calls := s.calls[c := k.(pc := Returned(Outcome(k.chan.buf[0])), chan := k.chan.(buf := k.chan.buf[1..]))])
      else SetPc(s, c, Returned(Outcome(ZERO)))
    case Remove(c) =>
      var t := DeletePending(s, Key(s.calls[c].num));
      SetPc(t, c, Returned(Err(s.calls[c].pc.failure)))
    case ReadResponse(env) =>
      if env.id in s.pending && s.pending[env.id] in s.calls then
        var c := s.pending[env.id];
        s.(pending := s.pending - {env.id},
           calls := s.calls[c := s.calls[c].(owner := Reader(|s.lines|))],
           reader := Holding(c, env),
           lines := s.lines + [Line(env, Some(c))])
      else s.(lines := s.lines + [Line(env, None)])
    case ReaderSend => SendOn(s, s.reader.call, s.reader.env).(reader := Closing(s.reader.call))
    case ReaderClose =>
      var k := s.calls[s.reader.call];
      CloseChan(s, s.reader.call, if k.owner.Reader? then Answered(k.owner.line) else k.owner).(reader := Reading)
    case ReaderStop => s.(reader := Stopped)
    case Broadcast(_) => if forall id :: id in s.table && id in s.subs ==> s.subs[id].open then s else s.(panicked := true)
    case ProcessExit => s.(waiter := Exited)
    case DrainStart => s.(waiter := Draining)
    case DrainEntry(key) => CloseChan(s, s.pending[key], Drained).(pending := s.pending - {key})
    case DrainSub(id) => RemoveSub(s, id, s.subs[id].watcher)
    case DrainEnd => s.(waiter := Unlocked, closed := true)
    case CloseDone => s.(waiter := Finished)
    case MarkClosed => s.(closed := true)
    case Subscribe => s.(nextSub := s.nextSub + 1, table := s.table + {s.nextSub + 1},
                         subs := s.subs[s.nextSub + 1 := Sub(Watching, true, 0)])
    case Unsubscribe(id) => RemoveSub(s, id, s.subs[id].watcher)
    case WatchContext(id) => s.(subs := s.subs[id := s.subs[id].(watcher := Unsubscribing)])
    case WatchDone(id) => s.(subs := s.subs[id := s.subs[id].(watcher := Unsubscribing)])
    case WatchRemove(id) => RemoveSub(s, id, Gone)
  }

  // A run is the list of the steps it takes.
  function Run(s: State, acts: seq<Action>): Option<State>
    decreases |acts|
  {
    if acts == [] then Some(s)
    else if Enabled(s, acts[0]) then Run(Step(s, acts[0]), acts[1..])
    else None
  }

  ghost predicate Leads(s: State, t: State) {
    exists acts :: Run(s, acts) == Some(t)
  }

  ghost predicate Reachable(s: State) {
    Leads(INITIAL, s)
  }

  // ----- the invariant -----

  // Line i answered call c, and nothing read before c registered did.
  ghost predicate RoutedTo(s: State, c: nat, i: nat)
    requires c in s.calls
  {
    && i < |s.lines| && s.lines[i].target == Some(c) && s.calls[c].since <= i
    && s.lines[i].env.id == Key(s.calls[c].num) && s.lines[i].env.typ == "response"
  }

  ghost predicate SentOnce(s: State, c: nat, i: nat)
    requires c in s.calls && i < |s.lines|
  {
    var k := s.calls[c];
    && k.chan.sends == 1
    && (k.chan.buf == [s.lines[i].env] || (k.chan.buf == [] && k.pc.Returned?))
  }

  ghost predicate ChanOk(s: State, c: nat)
    requires c in s.calls
  {
    var k := s.calls[c];
    match k.owner
    case Unregistered => k.chan == OPEN && (k.pc.Numbered? || k.pc == Returned(Err(HandleClosed)))
    case Table =>
      && k.chan == OPEN && (k.pc.Registered? || k.pc.Waiting? || k.pc.Removing?)
      && Key(k.num) in s.pending && s.pending[Key(k.num)] == c && k.since <= |s.lines|
    case Reader(i) =>
      && RoutedTo(s, c, i)
      && ((s.reader == Holding(c, s.lines[i].env) && k.chan == OPEN)
          || (s.reader == Closing(c) && !k.chan.closed && k.chan.closes == 0 && SentOnce(s, c, i)))
    case Answered(i) => RoutedTo(s, c, i) && k.chan.closed && k.chan.closes == 1 && SentOnce(s, c, i)
    case Drained => k.chan == Chan([], true, 0, 1)
    case Abandoned => k.chan == OPEN && k.pc.Returned? && k.pc.result.Err?
  }

  ghost predicate ResultOk(s: State, c: nat)
    requires c in s.calls
  {
    var k := s.calls[c];
    && (k.pc.Numbered? ==> k.owner.Unregistered?)
    && (k.pc.Returned? && k.pc.result.Ok? ==>
          || ((k.owner.Reader? || k.owner.Answered?)
              && k.owner.line < |s.lines| && k.pc.result.env == s.lines[k.owner.line].env)
          || (k.owner.Drained? && k.pc.result.env == ZERO))
  }

  ghost predicate CallOk(s: State, c: nat)
    requires c in s.calls
  {
    1 <= s.calls[c].num <= s.nextID && ChanOk(s, c) && ResultOk(s, c)
  }

  ghost predicate SameNumber(s: State, c: nat, d: nat)
    requires c in s.calls && d in s.calls
  {
    s.calls[c].num == s.calls[d].num
  }

  ghost predicate CallsOk(s: State) {
    && (forall c {:trigger CallOk(s, c)} :: c in s.calls ==> CallOk(s, c))
    && (forall c, d {:trigger SameNumber(s, c, d)} :: c in s.calls && d in s.calls && SameNumber(s, c, d) ==> c == d)
  }

  ghost predicate EntryOk(s: State, key: string)
    requires key in s.pending
  {
    s.pending[key] in s.calls && s.calls[s.pending[key]].owner.Table? && key == Key(s.calls[s.pending[key]].num)
  }

  ghost predicate TableOk(s: State) {
    forall key {:trigger EntryOk(s, key)} :: key in s.pending ==> EntryOk(s, key)
  }

  ghost predicate LineOk(s: State, i: nat)
    requires i < |s.lines|
  {
    match s.lines[i].target
    case None => true
    case Some(c) => c in s.calls && (s.calls[c].owner == Reader(i) || s.calls[c].owner == Answered(i))
  }

  ghost predicate LinesOk(s: State) {
    forall i {:trigger LineOk(s, i)} :: 0 <= i < |s.lines| ==> LineOk(s, i)
  }

  ghost predicate ReaderOk(s: State) {
    s.reader.Holding? || s.reader.Closing? ==> s.reader.call in s.calls && s.calls[s.reader.call].owner.Reader?
  }

  ghost predicate WaiterOk(s: State) {
    s.waiter.Unlocked? || s.waiter.Finished? ==> s.closed && s.pending == map[]
  }

  ghost predicate SubsOk(s: State) {
    && s.table <= s.subs.Keys
    && forall id :: id in s.subs ==>
         && id <= s.nextSub
         && (s.subs[id].open <==> id in s.table)
         && s.subs[id].closes == (if s.subs[id].open then 0 else 1)
         && (s.subs[id].watcher.Gone? ==> !s.subs[id].open)
  }

  ghost predicate RequestsOk(s: State) {
    CallsOk(s) && TableOk(s) && LinesOk(s) && ReaderOk(s)
  }

  ghost predicate Inv(s: State) {
    !s.panicked && RequestsOk(s) && (WaiterOk(s) && SubsOk(s))
  }

  // A step that leaves call d alone keeps what is known of it.
  lemma CallKept(s: State, t: State, d: nat)
    requires d in s.calls && d in t.calls && t.calls[d] == s.calls[d] && CallOk(s, d)
    requires s.lines <= t.lines && s.nextID <= t.nextID
    requires s.calls[d].owner.Table? ==>
      Key(s.calls[d].num) in s.pending && Key(s.calls[d].num) in t.pending
      && t.pending[Key(s.calls[d].num)] == s.pending[Key(s.calls[d].num)]
    requires s.calls[d].owner.Reader? ==> t.reader == s.reader
    ensures CallOk(t, d)
  {
  }

  // A step that changes only what one call c, already numbered, knows of itself.
  ghost predicate OnlyCall(s: State, t: State, c: nat) {
    && c in s.calls && t.calls.Keys == s.calls.Keys
    && (forall d :: d in s.calls && d != c ==> t.calls[d] == s.calls[d])
    && t.calls[c].num == s.calls[c].num
    && t.nextID == s.nextID && s.lines <= t.lines
  }

  lemma OnlyCallKeeps(s: State, t: State, c: nat)
    requires CallsOk(s) && OnlyCall(s, t, c) && CallOk(t, c)
    requires forall d :: d in s.calls && d != c && s.calls[d].owner.Table? && Key(s.calls[d].num) in s.pending ==>
      Key(s.calls[d].num) in t.pending && t.pending[Key(s.calls[d].num)] == s.pending[Key(s.calls[d].num)]
    requires forall d :: d in s.calls && d != c && s.calls[d].owner.Reader? ==> t.reader == s.reader
    ensures CallsOk(t)
  {
    forall d {:trigger CallOk(t, d)} | d in t.calls ensures CallOk(t, d) {
      if d != c {
        assert CallOk(s, d);
        CallKept(s, t, d);
      }
    }
    forall d, e {:trigger SameNumber(t, d, e)} | d in t.calls && e in t.calls && SameNumber(t, d, e) ensures d == e {
      assert SameNumber(s, d, e);
    }
  }

  // Only one call can stand under a key.
  lemma KeyOfOne(s: State, c: nat, d: nat)
    requires CallsOk(s) && c in s.calls && d in s.calls && Key(s.calls[c].num) == Key(s.calls[d].num)
    ensures c == d
  {
    KeyInjective(s.calls[c].num, s.calls[d].num);
    assert SameNumber(s, c, d);
  }

  lemma NumberBound(s: State, c: nat)
    requires CallsOk(s) && c in s.calls
    ensures s.calls[c].num <= s.nextID
  {
    assert CallOk(s, c);
  }

  // The reader holds the only channel that is its to use.
  lemma ReaderHolds(s: State, c: nat)
    requires CallsOk(s) && c in s.calls && s.calls[c].owner.Reader?
    ensures (s.reader.Holding? || s.reader.Closing?) && s.reader.call == c
  {
    assert CallOk(s, c);
  }

  lemma BeginKeeps(s: State, c: nat)
    requires RequestsOk(s) && Enabled(s, Begin(c))
    ensures RequestsOk(Step(s, Begin(c)))
  {
    var t := Step(s, Begin(c));
    forall d {:trigger CallOk(t, d)} | d in t.calls ensures CallOk(t, d) {
      if d != c {
        assert CallOk(s, d);
        CallKept(s, t, d);
      }
    }
    forall d, e {:trigger SameNumber(t, d, e)} | d in t.calls && e in t.calls && SameNumber(t, d, e) ensures d == e {
      if d != c && e != c {
        assert SameNumber(s, d, e);
      } else if d != c {
        NumberBound(s, d);
      } else if e != c {
        NumberBound(s, e);
      }
    }
    OwnersKept(s, t);
  }

  // Steps that move no entry, read no line and change no owner.
  lemma OwnersKept(s: State, t: State)
    requires TableOk(s) && LinesOk(s) && ReaderOk(s)
    requires t.pending == s.pending && t.lines == s.lines
    requires t.reader == s.reader || t.reader.Stopped? || (t.reader.Closing? && s.reader.Holding? && t.reader.call == s.reader.call)
    requires forall d :: d in s.calls ==> d in t.calls && t.calls[d].owner == s.calls[d].owner && t.calls[d].num == s.calls[d].num
    ensures TableOk(t) && LinesOk(t) && ReaderOk(t)
  {
    forall key {:trigger EntryOk(t, key)} | key in t.pending ensures EntryOk(t, key) {
      assert EntryOk(s, key);
    }
    forall i: nat {:trigger LineOk(t, i)} | i < |t.lines| ensures LineOk(t, i) {
      assert LineOk(s, i);
    }
  }

  predicate Internal(a: Action) {
    a.MarshalFail? || a.WriteFail? || a.WriteOk? || a.SeeContext? || a.SeeDone? || a.Receive?
  }

  // An internal step of a call rewrites that call's pc, and at most takes from its channel.
  lemma InternalEffect(s: State, a: Action)
    requires Internal(a) && Enabled(s, a)
    ensures var c := a.c; var k := s.calls[c]; var t := Step(s, a);
      && t == s.(calls := s.calls[c := t.calls[c]])
      && t.calls[c] == k.(pc := t.calls[c].pc, chan := t.calls[c].chan)
      && (!a.Receive? ==> t.calls[c].chan == k.chan && (t.calls[c].pc.Waiting? || t.calls[c].pc.Removing?))
  {
  }

  lemma InternalCallOk(s: State, t: State, c: nat, pc: Pc)
    requires c in s.calls && CallOk(s, c) && (s.calls[c].pc.Registered? || s.calls[c].pc.Waiting?)
    requires pc.Waiting? || pc.Removing?
    requires t == s.(calls := s.calls[c := s.calls[c].(pc := pc)])
    ensures CallOk(t, c)
  {
  }

  // What the caller receives is the one line routed to it, or a zero envelope from a drained channel.
  lemma ReceiveCallOk(s: State, c: nat)
    requires Enabled(s, Receive(c)) && CallOk(s, c)
    ensures CallOk(Step(s, Receive(c)), c)
  {
  }

  lemma InternalKeeps(s: State, a: Action)
    requires RequestsOk(s) && Internal(a) && Enabled(s, a)
    ensures RequestsOk(Step(s, a))
  {
    var t := Step(s, a);
    assert CallOk(s, a.c);
    InternalEffect(s, a);
    if a.Receive? {
      ReceiveCallOk(s, a.c);
    } else {
      InternalCallOk(s, t, a.c, t.calls[a.c].pc);
    }
    CallRewritten(s, t, a.c);
  }

  lemma CallRewritten(s: State, t: State, c: nat)
    requires RequestsOk(s) && c in s.calls && c in t.calls && CallOk(t, c)
    requires t == s.(calls := s.calls[c := t.calls[c]])
    requires t.calls[c].owner == s.calls[c].owner && t.calls[c].num == s.calls[c].num
    ensures RequestsOk(t)
  {
    OnlyCallKeeps(s, t, c);
    OwnersKept(s, t);
  }

  lemma RegisterKeeps(s: State, c: nat)
    requires RequestsOk(s) && Enabled(s, Register(c))
    ensures RequestsOk(Step(s, Register(c)))
  {
    var t := Step(s, Register(c));
    assert CallOk(s, c);
    if s.closed {
      OnlyCallKeeps(s, t, c);
      OwnersKept(s, t);
    } else {
      forall d | d in s.calls && Key(s.calls[d].num) == Key(s.calls[c].num) ensures d == c {
        KeyOfOne(s, c, d);
      }
      OnlyCallKeeps(s, t, c);
      EntryAddedKeeps(s, t, c);
    }
  }

  // Putting a call under its key, and into the table's ownership.
  lemma EntryAddedKeeps(s: State, t: State, c: nat)
    requires TableOk(s) && LinesOk(s) && ReaderOk(s) && OnlyCall(s, t, c)
    requires t.pending == s.pending[Key(s.calls[c].num) := c] && s.calls[c].owner.Unregistered? && t.calls[c].owner.Table?
    requires t.reader == s.reader && t.lines == s.lines
    ensures TableOk(t) && LinesOk(t) && ReaderOk(t)
  {
    forall key {:trigger EntryOk(t, key)} | key in t.pending ensures EntryOk(t, key) {
      if key in s.pending {
        assert EntryOk(s, key);
      }
    }
    forall i: nat {:trigger LineOk(t, i)} | i < |t.lines| ensures LineOk(t, i) {
      assert LineOk(s, i);
    }
  }

  lemma RemoveKeeps(s: State, c: nat)
    requires RequestsOk(s) && Enabled(s, Remove(c))
    ensures RequestsOk(Step(s, Remove(c)))
  {
    var t := Step(s, Remove(c));
    var key := Key(s.calls[c].num);
    assert CallOk(s, c);
    if key in s.pending {
      assert EntryOk(s, key);
      KeyOfOne(s, c, s.pending[key]);
      forall d | d in s.calls && Key(s.calls[d].num) == key ensures d == c {
        KeyOfOne(s, c, d);
      }
      OnlyCallKeeps(s, t, c);
      EntryRemovedKeeps(s, t, key);
    } else {
      OnlyCallKeeps(s, t, c);
      OwnersKept(s, t);
    }
  }

  // Taking the entry under key out of the table, and its call out of the table's ownership.
  lemma EntryRemovedKeeps(s: State, t: State, key: string)
    requires CallsOk(s) && TableOk(s) && LinesOk(s) && ReaderOk(s)
    requires key in s.pending && EntryOk(s, key) && t.pending == s.pending - {key} && OnlyCall(s, t, s.pending[key])
    requires t.reader == s.reader && t.lines == s.lines
    ensures TableOk(t) && LinesOk(t) && ReaderOk(t)
  {
    forall other {:trigger EntryOk(t, other)} | other in t.pending ensures EntryOk(t, other) {
      assert EntryOk(s, other);
    }
    forall i: nat {:trigger LineOk(t, i)} | i < |t.lines| ensures LineOk(t, i) {
      assert LineOk(s, i);
    }
  }

  lemma ReadKeeps(s: State, env: Envelope)
    requires RequestsOk(s) && Enabled(s, ReadResponse(env))
    ensures RequestsOk(Step(s, ReadResponse(env)))
  {
    var t := Step(s, ReadResponse(env));
    if env.id in s.pending {
      var c := s.pending[env.id];
      assert EntryOk(s, env.id);
      assert CallOk(s, c);
      forall d | d in s.calls && Key(s.calls[d].num) == env.id ensures d == c {
        KeyOfOne(s, c, d);
      }
      forall d | d in s.calls && s.calls[d].owner.Reader? ensures false {
        ReaderHolds(s, d);
      }
      OnlyCallKeeps(s, t, c);
      var mid := t.(reader := s.reader, lines := s.lines);
      EntryRemovedKeeps(s, mid, env.id);
      LineAddedKeeps(mid, t);
    } else {
      UnknownLineKeeps(s, t);
    }
  }

  // A line that answers no pending call
  lemma UnknownLineKeeps(s: State, t: State)
    requires RequestsOk(s) && |t.lines| == |s.lines| + 1 && s.lines <= t.lines && t.lines[|s.lines|].target.None?
    requires t == s.(lines := t.lines)
    ensures RequestsOk(t)
  {
    forall d {:trigger CallOk(t, d)} | d in t.calls ensures CallOk(t, d) {
      assert CallOk(s, d);
      CallKept(s, t, d);
    }
    forall d, e {:trigger SameNumber(t, d, e)} | d in t.calls && e in t.calls && SameNumber(t, d, e) ensures d == e {
      assert SameNumber(s, d, e);
    }
    LineAddedKeeps(s, t);
  }

  lemma LineAddedKeeps(s: State, t: State)
    requires TableOk(s) && LinesOk(s)
    requires t.pending == s.pending && t.calls == s.calls && |t.lines| == |s.lines| + 1 && s.lines <= t.lines
    requires LineOk(t, |s.lines|)
    ensures TableOk(t) && LinesOk(t)
  {
    forall key {:trigger EntryOk(t, key)} | key in t.pending ensures EntryOk(t, key) {
      assert EntryOk(s, key);
    }
    forall i: nat {:trigger LineOk(t, i)} | i < |t.lines| ensures LineOk(t, i) {
      if i < |s.lines| {
        assert LineOk(s, i);
      }
    }
  }

  // The reader's channel operations: neither blocks nor panics, because the call it holds is its own.
  lemma ReaderKeeps(s: State, a: Action)
    requires RequestsOk(s) && (a == ReaderSend || a == ReaderClose) && Enabled(s, a) && !s.panicked
    ensures RequestsOk(Step(s, a)) && !Step(s, a).panicked
  {
    var t := Step(s, a);
    var c := s.reader.call;
    assert CallOk(s, c);
    forall d | d in s.calls && s.calls[d].owner.Reader? ensures d == c {
      ReaderHolds(s, d);
    }
    OnlyCallKeeps(s, t, c);
    if a == ReaderSend {
      OwnersKept(s, t);
    } else {
      forall key {:trigger EntryOk(t, key)} | key in t.pending ensures EntryOk(t, key) {
        assert EntryOk(s, key);
      }
      forall i: nat {:trigger LineOk(t, i)} | i < |t.lines| ensures LineOk(t, i) {
        assert LineOk(s, i);
      }
    }
  }

  lemma DrainKeeps(s: State, key: string)
    requires RequestsOk(s) && Enabled(s, DrainEntry(key)) && !s.panicked
    ensures RequestsOk(Step(s, DrainEntry(key))) && !Step(s, DrainEntry(key)).panicked
  {
    var t := Step(s, DrainEntry(key));
    var c := s.pending[key];
    assert EntryOk(s, key);
    assert CallOk(s, c);
    forall d | d in s.calls && Key(s.calls[d].num) == key ensures d == c {
      KeyOfOne(s, c, d);
    }
    OnlyCallKeeps(s, t, c);
    EntryRemovedKeeps(s, t, key);
  }

  // Steps of the waiter, of Close and of the subscribers leave the requests alone.
  lemma RequestsUntouched(s: State, t: State)
    requires RequestsOk(s)
    requires t.calls == s.calls && t.pending == s.pending && t.lines == s.lines && t.nextID == s.nextID
    requires t.reader == s.reader || (s.reader.Reading? && t.reader.Stopped?)
    ensures RequestsOk(t)
  {
    forall d {:trigger CallOk(t, d)} | d in t.calls ensures CallOk(t, d) {
      assert CallOk(s, d);
      CallKept(s, t, d);
    }
    forall d, e {:trigger SameNumber(t, d, e)} | d in t.calls && e in t.calls && SameNumber(t, d, e) ensures d == e {
      assert SameNumber(s, d, e);
    }
    OwnersKept(s, t);
  }

  lemma RequestsStep(s: State, a: Action)
    requires RequestsOk(s) && Enabled(s, a) && !s.panicked
    ensures RequestsOk(Step(s, a))
  {
    if a.Begin? {
      BeginKeeps(s, a.c);
    } else if a.Register? {
      RegisterKeeps(s, a.c);
    } else if a.Remove? {
      RemoveKeeps(s, a.c);
    } else if a.ReadResponse? {
      ReadKeeps(s, a.env);
    } else if a.ReaderSend? || a.ReaderClose? {
      ReaderKeeps(s, a);
    } else if a.DrainEntry? {
      DrainKeeps(s, a.key);
    } else if Internal(a) {
      InternalKeeps(s, a);
    } else {
      RequestsUntouched(s, Step(s, a));
    }
  }

  lemma WaiterStep(s: State, a: Action)
    requires WaiterOk(s) && Enabled(s, a)
    ensures WaiterOk(Step(s, a))
  {
    if TouchesEntry(a) {
      EntryStepsEmpty(s, a);
    }
  }

  lemma EntryStepsEmpty(s: State, a: Action)
    requires Enabled(s, a) && TouchesEntry(a)
    ensures Step(s, a).waiter == s.waiter && Step(s, a).closed == s.closed && Step(s, a).pending.Keys <= s.pending.Keys
  {
  }

  // Steps on the table of pending calls, or on a channel that came from it
  predicate TouchesEntry(a: Action) {
    a.ReadResponse? || a.ReaderSend? || a.ReaderClose? || a.DrainEntry? || a.Remove?
  }

  predicate OnSubs(a: Action) {
    a.DrainSub? || a.Subscribe? || a.Unsubscribe? || a.WatchContext? || a.WatchDone? || a.WatchRemove?
  }

  lemma SubsStep(s: State, a: Action)
    requires SubsOk(s) && Enabled(s, a)
    ensures SubsOk(Step(s, a))
    ensures OnSubs(a) || a.Broadcast? ==> Step(s, a).panicked == s.panicked
  {
    if a.DrainSub? {
      RemoveSubKeeps(s, a.id, s.subs[a.id].watcher);
    } else if a.Unsubscribe? {
      RemoveSubKeeps(s, a.id, s.subs[a.id].watcher);
    } else if a.WatchRemove? {
      RemoveSubKeeps(s, a.id, Gone);
    } else if !OnSubs(a) {
      SubsUntouched(s, a);
    }
  }

  lemma RemoveSubKeeps(s: State, id: nat, watcher: Watcher)
    requires SubsOk(s) && id in s.subs && (watcher == s.subs[id].watcher || watcher.Gone?)
    ensures SubsOk(RemoveSub(s, id, watcher)) && RemoveSub(s, id, watcher).panicked == s.panicked
  {
  }

  lemma SubsUntouched(s: State, a: Action)
    requires Enabled(s, a) && !OnSubs(a)
    ensures Step(s, a).subs == s.subs && Step(s, a).table == s.table && Step(s, a).nextSub == s.nextSub
  {
    if TouchesEntry(a) {
      EntryStepsSpareSubs(s, a);
    }
  }

  lemma EntryStepsSpareSubs(s: State, a: Action)
    requires Enabled(s, a) && TouchesEntry(a)
    ensures Step(s, a).subs == s.subs && Step(s, a).table == s.table && Step(s, a).nextSub == s.nextSub
  {
    match a {
      case Remove(c) =>
        assert DeletePending(s, Key(s.calls[c].num)).subs == s.subs;
      case ReadResponse(_) =>
      case _ =>
    }
  }

  // Only the watcher's state, the table and whether the stream is open.
  lemma RemoveSubEffect(s: State, id: nat, watcher: Watcher)
    requires id in s.subs
    ensures var t := RemoveSub(s, id, watcher);
      && t == s.(table := s.table - {id}, subs := s.subs[id := t.subs[id]], panicked := t.panicked)
      && t.subs[id].watcher == watcher
      && t.subs[id].open == (s.subs[id].open && id !in s.table)
  {
  }

  lemma RemovalEffect(s: State, a: Action)
    requires Enabled(s, a) && (a.DrainSub? || a.Unsubscribe? || a.WatchRemove?)
    ensures var t := Step(s, a);
      && t == s.(table := s.table - {a.id}, subs := s.subs[a.id := t.subs[a.id]], panicked := t.panicked)
      && t.subs[a.id].watcher == (if a.WatchRemove? then Gone else s.subs[a.id].watcher)
      && t.subs[a.id].open == (s.subs[a.id].open && a.id !in s.table)
  {
    RemoveSubEffect(s, a.id, if a.WatchRemove? then Gone else s.subs[a.id].watcher);
  }

  lemma InvStep(s: State, a: Action)
    requires Inv(s) && Enabled(s, a)
    ensures Inv(Step(s, a))
  {
    RequestsStep(s, a);
    WaiterStep(s, a);
    SubsStep(s, a);
    PanicStep(s, a);
  }

  lemma PanicStep(s: State, a: Action)
    requires !s.panicked && RequestsOk(s) && SubsOk(s) && Enabled(s, a)
    ensures !Step(s, a).panicked
  {
    if a.ReaderSend? || a.ReaderClose? {
      ReaderKeeps(s, a);
    } else if a.DrainEntry? {
      DrainKeeps(s, a.key);
    } else if OnSubs(a) || a.Broadcast? {
      SubsStep(s, a);
    }
  }
}
