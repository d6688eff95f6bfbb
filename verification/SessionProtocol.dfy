// Create, Resume and Delete interleaved, split where the code takes and releases the manager's lock and where
// it talks to the store. Create holds the lock throughout; Resume reads its row before locking and touches it
// after unlocking; Delete takes the handle under the lock and removes the row after it.
module SessionProtocol {
  import opened Options
  import opened SessionIds
  import opened SessionStore

  datatype Request = Request(user: string, project: string, external: string)

  datatype Result = Created(id: string) | Resumed(id: string) | AlreadyLive(id: string) | Deleted | Missing | Failed

  // Processes are numbered in the order they were started.
  datatype Pc =
    | CreateHeld(sid: string, req: Request, dir: string)
    | CreateStarted(sid: string, req: Request, dir: string, p: nat)
    | CreateStored(sid: string, p: nat)
    | CreateDiscard(sid: string, p: nat)
    | ResumeRead(id: string)
    | ResumeAttached(id: string)
    | DeleteTaken(id: string, handle: Option<nat>)
    | DeleteClosing(id: string, handle: Option<nat>, stored: bool)
    | Returned(result: Result)

  datatype State = State(
    counter: nat,
    rows: Rows,
    handles: map<string, nat>,
    started: nat,
    closed: seq<nat>,
    lock: Option<nat>,
    calls: map<nat, Pc>)

  function Start(counter: nat, rows: Rows): State {
    State(counter, rows, map[], 0, [], None, map[])
  }

  // Environment choices ride on the action: dir is what ResolveWorkingDir gave, ok whether the process started,
  // up whether the store answered; for FinishDelete, ok whether Close reported no error.
  datatype Action =
    | BeginCreate(c: nat, req: Request, dir: Option<string>)
    | StartCreate(c: nat, ok: bool)
    | StoreCreate(c: nat, up: bool, now: string)
    | AttachCreate(c: nat)
    | DiscardCreate(c: nat)
    | BeginResume(c: nat, id: string, up: bool)
    | AttachResume(c: nat, ok: bool)
    | TouchResume(c: nat, up: bool, now: string)
    | BeginDelete(c: nat, id: string)
    | DropRow(c: nat, up: bool)
    | FinishDelete(c: nat, ok: bool)
    | Bump(id: string, up: bool, now: string)

  predicate Enabled(s: State, a: Action) {
    match a
    case BeginCreate(c, _, _) => c !in s.calls && s.lock.None?
    case StartCreate(c, _) => c in s.calls && s.calls[c].CreateHeld?
    case StoreCreate(c, _, _) => c in s.calls && s.calls[c].CreateStarted?
    case AttachCreate(c) => c in s.calls && s.calls[c].CreateStored?
    case DiscardCreate(c) => c in s.calls && s.calls[c].CreateDiscard?
    case BeginResume(c, _, _) => c !in s.calls
    case AttachResume(c, _) => c in s.calls && s.calls[c].ResumeRead? && s.lock.None?
    case TouchResume(c, _, _) => c in s.calls && s.calls[c].ResumeAttached?
    case BeginDelete(c, _) => c !in s.calls && s.lock.None?
    case DropRow(c, _) => c in s.calls && s.calls[c].DeleteTaken?
    case FinishDelete(c, _) => c in s.calls && s.calls[c].DeleteClosing?
    case Bump(_, _, _) => true
  }

  function NewRecord(sid: string, req: Request, dir: string, now: string): Record {
    Record(sid, req.user, req.project, req.external, "active", dir, now, now)
  }

  function To(s: State, c: nat, pc: Pc): State {
    s.(calls := s.calls[c := pc])
  }

  function Step(s: State, a: Action): State
    requires Enabled(s, a)
  {
    match a
    case BeginCreate(c, req, dir) =>
      var t := s.(counter := s.counter + 1);
      if dir.None? then To(t, c, Returned(Failed))
      else To(t.(lock := Some(c)), c, CreateHeld(FormatId(t.counter), req, dir.value))
    case StartCreate(c, ok) =>
      var pc := s.calls[c];
      if ok then To(s.(started := s.started + 1), c, CreateStarted(pc.sid, pc.req, pc.dir, s.started))
      else To(s.(lock := None), c, Returned(Failed))
    case StoreCreate(c, up, now) =>
      var pc := s.calls[c];
      var rec := NewRecord(pc.sid, pc.req, pc.dir, now);
      if up && !Conflicts(s.rows, rec) then To(s.(rows := Insert(s.rows, rec)), c, CreateStored(pc.sid, pc.p))
      else To(s, c, CreateDiscard(pc.sid, pc.p))
    case AttachCreate(c) =>
      var pc := s.calls[c];
      To(s.(handles := s.handles[pc.sid := pc.p], lock := None), c, Returned(Created(pc.sid)))
    case DiscardCreate(c) =>
      To(s.(closed := s.closed + [s.calls[c].p], lock := None), c, Returned(Failed))
    case BeginResume(c, id, up) =>
      To(s, c, if !up then Returned(Failed) else if id !in s.rows then Returned(Missing) else ResumeRead(id))
    case AttachResume(c, ok) =>
      var id := s.calls[c].id;
      if id in s.handles then To(s, c, Returned(AlreadyLive(id)))
      else if !ok then To(s, c, Returned(Failed))
      else To(s.(handles := s.handles[id := s.started], started := s.started + 1), c, ResumeAttached(id))
    case TouchResume(c, up, now) =>
      var id := s.calls[c].id;
      To(s.(rows := if up then Touch(s.rows, id, now) else s.rows), c, Returned(Resumed(id)))
    case BeginDelete(c, id) =>
      To(s.(handles := s.handles - {id}), c, DeleteTaken(id, if id in s.handles then Some(s.handles[id]) else None))
    case DropRow(c, up) =>
      var pc := s.calls[c];
      To(s.(rows := if up then s.rows - {pc.id} else s.rows), c,
         DeleteClosing(pc.id, pc.handle, up && pc.id in s.rows))
    case FinishDelete(c, ok) =>
      var pc := s.calls[c];
      if pc.handle.Some? then To(s.(closed := s.closed + [pc.handle.value]), c, Returned(if ok then Deleted else Failed))
      else To(s, c, Returned(if pc.stored then Deleted else Missing))
    case Bump(id, up, now) => s.(rows := if up then Touch(s.rows, id, now) else s.rows)
  }

  function Run(s: State, acts: seq<Action>): Option<State>
    decreases |acts|
  {
    if acts == [] then Some(s)
    else if Enabled(s, acts[0]) then Run(Step(s, acts[0]), acts[1..])
    else None
  }

  // ----- process conservation -----

  // Where a started process can be: attached under an id, in the hands of an operation, or handed to Close
  // (as the k-th close).
  datatype Place = Attached(id: string) | Carried(c: nat) | Closed(k: nat)

  function Carries(pc: Pc): Option<nat> {
    match pc
    case CreateStarted(_, _, _, p) => Some(p)
    case CreateStored(_, p) => Some(p)
    case CreateDiscard(_, p) => Some(p)
    case DeleteTaken(_, handle) => handle
    case DeleteClosing(_, handle, _) => handle
    case _ => None
  }

  // The process at a place, if there is one.
  function Occupant(s: State, place: Place): Option<nat> {
    match place
    case Attached(id) => if id in s.handles then Some(s.handles[id]) else None
    case Carried(c) => if c in s.calls then Carries(s.calls[c]) else None
    case Closed(k) => if k < |s.closed| then Some(s.closed[k]) else None
  }

  ghost predicate PlacedAs(s: State, where: seq<Place>) {
    && |where| == s.started
    && (forall p {:trigger where[p]} :: 0 <= p < |where| ==> Occupant(s, where[p]) == Some(p))
    && (forall place {:trigger Occupant(s, place)} :: Occupant(s, place).Some? ==>
          Occupant(s, place).value < |where| && where[Occupant(s, place).value] == place)
  }

  // Every started process is at exactly one place, and every place holds a process of its own: none is lost,
  // none is owned twice, none is closed twice.
  ghost predicate Conserved(s: State) {
    exists where :: PlacedAs(s, where)
  }

  predicate Creating(pc: Pc) {
    pc.CreateHeld? || pc.CreateStarted? || pc.CreateStored? || pc.CreateDiscard?
  }

  // The id a call has been given by the counter.
  function Issued(pc: Pc): Option<string> {
    match pc
    case CreateHeld(sid, _, _) => Some(sid)
    case CreateStarted(sid, _, _, _) => Some(sid)
    case CreateStored(sid, _) => Some(sid)
    case Returned(Created(sid)) => Some(sid)
    case _ => None
  }

  ghost predicate LockOk(s: State) {
    forall c {:trigger Creating(s.calls[c])} :: c in s.calls && Creating(s.calls[c]) ==>
      && s.lock == Some(c)
      && (Issued(s.calls[c]).Some? ==> Issued(s.calls[c]).value == FormatId(s.counter) && FormatId(s.counter) !in s.handles)
      && (s.calls[c].CreateHeld? || s.calls[c].CreateStarted? ==> FormatId(s.counter) !in s.rows)
  }

  // No id the counter will still reach is in use anywhere.
  ghost predicate AheadFree(s: State) {
    && FreshAfter(s.counter, s.rows.Keys)
    && FreshAfter(s.counter, s.handles.Keys)
    && forall c {:trigger s.calls[c]} :: c in s.calls && s.calls[c].ResumeRead? ==>
         forall n: nat :: n > s.counter ==> FormatId(n) != s.calls[c].id
  }

  ghost predicate Inv(s: State) {
    LockOk(s) && AheadFree(s)
  }

  // ----- how steps move processes -----

  ghost predicate SameAway(s: State, t: State, a: Place, b: Place) {
    forall place {:trigger Occupant(t, place)} {:trigger Occupant(s, place)} ::
      place != a && place != b ==> Occupant(t, place) == Occupant(s, place)
  }

  lemma Stays(s: State, t: State, where: seq<Place>)
    requires PlacedAs(s, where) && t.started == s.started
    requires forall place {:trigger Occupant(t, place)} {:trigger Occupant(s, place)} :: Occupant(t, place) == Occupant(s, place)
    ensures PlacedAs(t, where)
  {
  }

  lemma Moves(s: State, t: State, where: seq<Place>, p: nat, a: Place, b: Place)
    requires PlacedAs(s, where) && t.started == s.started && SameAway(s, t, a, b) && a != b
    requires Occupant(s, a) == Some(p) && Occupant(s, b) == None && Occupant(t, a) == None && Occupant(t, b) == Some(p)
    ensures p < |where| && PlacedAs(t, where[p := b])
  {
    var next := where[p := b];
    forall q {:trigger next[q]} | 0 <= q < |next| ensures Occupant(t, next[q]) == Some(q) {
      assert Occupant(s, where[q]) == Some(q);
    }
    forall place {:trigger Occupant(t, place)} | Occupant(t, place).Some?
      ensures Occupant(t, place).value < |next| && next[Occupant(t, place).value] == place
    {
      assert place != b ==> Occupant(s, place) == Occupant(t, place);
    }
  }

  lemma Born(s: State, t: State, where: seq<Place>, b: Place)
    requires PlacedAs(s, where) && t.started == s.started + 1 && SameAway(s, t, b, b)
    requires Occupant(s, b) == None && Occupant(t, b) == Some(s.started)
    ensures PlacedAs(t, where + [b])
  {
    var next := where + [b];
    forall q {:trigger next[q]} | 0 <= q < |next| ensures Occupant(t, next[q]) == Some(q) {
      if q < |where| {
        assert Occupant(s, where[q]) == Some(q);
      }
    }
    forall place {:trigger Occupant(t, place)} | Occupant(t, place).Some?
      ensures Occupant(t, place).value < |next| && next[Occupant(t, place).value] == place
    {
      assert place != b ==> Occupant(s, place) == Occupant(t, place);
    }
  }

  lemma BirthStep(s: State, a: Action, where: seq<Place>)
    requires PlacedAs(s, where) && Enabled(s, a) && Step(s, a).started != s.started
    ensures Conserved(Step(s, a))
  {
    var place := if a.StartCreate? then Carried(a.c) else Attached(s.calls[a.c].id);
    Born(s, Step(s, a), where, place);
    assert PlacedAs(Step(s, a), where + [place]);
  }

  // The places a step moves a process from and to.
  function Transfer(s: State, a: Action): Option<(Place, Place)>
    requires Enabled(s, a)
  {
    match a
    case AttachCreate(c) => Some((Carried(c), Attached(s.calls[c].sid)))
    case DiscardCreate(c) => Some((Carried(c), Closed(|s.closed|)))
    case BeginDelete(c, id) => if id in s.handles then Some((Attached(id), Carried(c))) else None
    case FinishDelete(c, _) => if s.calls[c].handle.Some? then Some((Carried(c), Closed(|s.closed|))) else None
    case _ => None
  }

  lemma TransferEffect(s: State, a: Action)
    requires Enabled(s, a) && Transfer(s, a).Some?
    requires a.AttachCreate? ==> s.calls[a.c].sid !in s.handles
    ensures var (from, to) := Transfer(s, a).value; var t := Step(s, a);
      && t.started == s.started && SameAway(s, t, from, to) && from != to
      && Occupant(s, from).Some? && Occupant(s, to) == None
      && Occupant(t, from) == None && Occupant(t, to) == Occupant(s, from)
  {
  }

  lemma QuietEffect(s: State, a: Action)
    requires Enabled(s, a) && Transfer(s, a).None? && Step(s, a).started == s.started
    ensures forall place {:trigger Occupant(Step(s, a), place)} {:trigger Occupant(s, place)} ::
      Occupant(Step(s, a), place) == Occupant(s, place)
  {
    QuietTables(s, a);
    forall place ensures Occupant(Step(s, a), place) == Occupant(s, place) {
    }
  }

  lemma QuietTables(s: State, a: Action)
    requires Enabled(s, a) && Transfer(s, a).None? && Step(s, a).started == s.started
    ensures Step(s, a).closed == s.closed
    ensures Step(s, a).handles == s.handles
    ensures forall c :: c in s.calls ==> c in Step(s, a).calls && Carries(Step(s, a).calls[c]) == Carries(s.calls[c])
    ensures forall c :: c in Step(s, a).calls && c !in s.calls ==> Carries(Step(s, a).calls[c]) == None
  {
    if a.BeginDelete? {
      assert s.handles - {a.id} == s.handles;
    } else if a.BeginCreate? || a.StartCreate? || a.StoreCreate? || a.DiscardCreate? {
      QuietCreate(s, a);
    }
  }

  lemma QuietCreate(s: State, a: Action)
    requires Enabled(s, a) && Transfer(s, a).None? && Step(s, a).started == s.started
    requires a.BeginCreate? || a.StartCreate? || a.StoreCreate? || a.DiscardCreate?
    ensures Step(s, a).closed == s.closed && Step(s, a).handles == s.handles
    ensures forall c :: c in s.calls ==> c in Step(s, a).calls && Carries(Step(s, a).calls[c]) == Carries(s.calls[c])
    ensures forall c :: c in Step(s, a).calls && c !in s.calls ==> Carries(Step(s, a).calls[c]) == None
  {
  }

  // The only step that could lose a process is attaching over a handle that is already there.
  lemma ConservedStep(s: State, a: Action)
    requires Conserved(s) && Enabled(s, a)
    requires a.AttachCreate? ==> s.calls[a.c].sid !in s.handles
    ensures Conserved(Step(s, a))
  {
    var where :| PlacedAs(s, where);
    var t := Step(s, a);
    if t.started != s.started {
      BirthStep(s, a, where);
    } else if Transfer(s, a).Some? {
      TransferEffect(s, a);
      var (from, to) := Transfer(s, a).value;
      var p := Occupant(s, from).value;
      Moves(s, t, where, p, from, to);
      assert PlacedAs(t, where[p := to]);
    } else {
      QuietEffect(s, a);
      Stays(s, t, where);
    }
  }

  lemma LockHolder(s: State, c: nat)
    requires LockOk(s) && c in s.calls && Creating(s.calls[c])
    ensures s.lock == Some(c)
  {
  }

  lemma BeginCreateKeeps(s: State, a: Action)
    requires Inv(s) && a.BeginCreate? && Enabled(s, a)
    ensures Inv(Step(s, a))
  {
    var t := Step(s, a);
    forall c {:trigger Creating(t.calls[c])} | c in t.calls && Creating(t.calls[c]) ensures c == a.c {
      if c != a.c {
        LockHolder(s, c);
      }
    }
  }

  lemma CreateKeeps(s: State, a: Action)
    requires Inv(s) && Enabled(s, a) && (a.StartCreate? || a.StoreCreate? || a.AttachCreate? || a.DiscardCreate?)
    ensures Inv(Step(s, a))
  {
    var t := Step(s, a);
    assert Creating(s.calls[a.c]);
    forall c {:trigger Creating(t.calls[c])} | c in t.calls && Creating(t.calls[c]) ensures c == a.c {
      if c != a.c {
        LockHolder(s, c);
      }
    }
    forall n: nat | n > s.counter ensures FormatId(n) != FormatId(s.counter) {
      if FormatId(n) == FormatId(s.counter) {
        FormatInjective(n, s.counter);
      }
    }
  }

  lemma OtherKeeps(s: State, a: Action)
    requires Inv(s) && Enabled(s, a)
    requires a.BeginResume? || a.AttachResume? || a.TouchResume? || a.BeginDelete? || a.DropRow? || a.FinishDelete? || a.Bump?
    ensures Inv(Step(s, a))
  {
    var t := Step(s, a);
    assert t.rows.Keys <= s.rows.Keys && t.counter == s.counter && t.lock == s.lock;
    forall c {:trigger Creating(t.calls[c])} | c in t.calls && Creating(t.calls[c])
      ensures c in s.calls && Creating(s.calls[c]) && t.calls[c] == s.calls[c] {
    }
    assert FreshAfter(t.counter, t.handles.Keys);
  }

  lemma InvStep(s: State, a: Action)
    requires Inv(s) && Enabled(s, a)
    ensures Inv(Step(s, a))
  {
    if a.BeginCreate? {
      BeginCreateKeeps(s, a);
    } else if a.StartCreate? || a.StoreCreate? || a.AttachCreate? || a.DiscardCreate? {
      CreateKeeps(s, a);
    } else {
      OtherKeeps(s, a);
    }
  }
}
