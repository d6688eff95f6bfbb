// How many live processes a session id can have at a time: exactly when two share one, and with it the session's
// directory.
module SessionLive {
  import opened Options
  import opened SessionIds
  import opened SessionStore
  import opened SessionProtocol
  import opened SessionGuarantees

  // ----- what became of every process -----

  // For each process, in the order they were started: the id it was started for, and where it is now; None if its
  // handle was overwritten. Kept beside a run; no step looks at it.
  datatype History = History(born: seq<string>, where: seq<Option<Place>>)

  const NOTHING: History := History([], [])

  // The id of the process at a place, while it is not closed
  function IdAt(s: State, place: Place): Option<string> {
    match place
    case Attached(id) => if id in s.handles then Some(id) else None
    case Carried(c) =>
      if c !in s.calls || Carries(s.calls[c]).None? then None
      else if Creating(s.calls[c]) then Some(s.calls[c].sid)
      else Some(s.calls[c].id)
    case Closed(_) => None
  }

  function Put(where: seq<Option<Place>>, p: nat, place: Option<Place>): seq<Option<Place>> {
    if p < |where| then where[p := place] else where
  }

  function BirthPlace(s: State, a: Action): Place
    requires Enabled(s, a) && Step(s, a).started != s.started
  {
    if a.StartCreate? then Carried(a.c) else Attached(s.calls[a.c].id)
  }

  function Record(h: History, s: State, a: Action): History
    requires Enabled(s, a)
  {
    if Step(s, a).started != s.started then
      var b := BirthPlace(s, a);
      History(h.born + [if a.StartCreate? then s.calls[a.c].sid else s.calls[a.c].id], h.where + [Some(b)])
    else if Transfer(s, a).Some? then
      var (from, to) := Transfer(s, a).value;
      var cleared := if Occupant(s, to).Some? then Put(h.where, Occupant(s, to).value, None) else h.where;
      h.(where := if Occupant(s, from).Some? then Put(cleared, Occupant(s, from).value, Some(to)) else cleared)
    else h
  }

  function HistoryOf(h: History, s: State, acts: seq<Action>): History
    decreases |acts|
  {
    if acts == [] || !Enabled(s, acts[0]) then h
    else HistoryOf(Record(h, s, acts[0]), Step(s, acts[0]), acts[1..])
  }

  ghost predicate PlaceOk(s: State, h: History, p: nat)
    requires p < |h.where| && |h.born| == |h.where|
  {
    h.where[p].Some? ==>
      && Occupant(s, h.where[p].value) == Some(p)
      && (!h.where[p].value.Closed? ==> IdAt(s, h.where[p].value) == Some(h.born[p]))
  }

  ghost predicate OccupantOk(s: State, h: History, place: Place) {
    Occupant(s, place).Some? ==> Occupant(s, place).value < |h.where| && h.where[Occupant(s, place).value] == Some(place)
  }

  // The history tells where everything is, and every place holds a process of its own. Overwritten processes are
  // nowhere.
  ghost predicate Tracks(s: State, h: History) {
    && |h.born| == |h.where| == s.started
    && (forall p: nat {:trigger PlaceOk(s, h, p)} :: p < |h.where| ==> PlaceOk(s, h, p))
    && (forall place {:trigger OccupantOk(s, h, place)} :: OccupantOk(s, h, place))
  }

  // A step that moves nothing keeps every id.
  lemma IdKept(s: State, a: Action, place: Place)
    requires Enabled(s, a) && Occupant(s, place).Some? && Occupant(Step(s, a), place) == Occupant(s, place)
    ensures IdAt(Step(s, a), place) == IdAt(s, place)
  {
  }

  lemma IdMoved(s: State, a: Action)
    requires Enabled(s, a) && Transfer(s, a).Some? && Occupant(s, Transfer(s, a).value.0).Some?
    ensures var (from, to) := Transfer(s, a).value;
      !to.Closed? ==> IdAt(Step(s, a), to) == IdAt(s, from)
  {
  }

  lemma IdBorn(s: State, a: Action)
    requires Enabled(s, a) && Step(s, a).started != s.started
    ensures IdAt(Step(s, a), BirthPlace(s, a)) == Some(if a.StartCreate? then s.calls[a.c].sid else s.calls[a.c].id)
  {
  }

  // Also when a process is already there, which is then nowhere.
  lemma MoveEffect(s: State, a: Action)
    requires Enabled(s, a) && Transfer(s, a).Some?
    ensures var (from, to) := Transfer(s, a).value; var t := Step(s, a);
      && t.started == s.started && SameAway(s, t, from, to) && from != to
      && Occupant(s, from).Some? && Occupant(t, from) == None && Occupant(t, to) == Occupant(s, from)
  {
  }

  lemma BirthEffect(s: State, a: Action)
    requires Enabled(s, a) && Step(s, a).started != s.started
    ensures var b := BirthPlace(s, a); var t := Step(s, a);
      && t.started == s.started + 1 && SameAway(s, t, b, b)
      && Occupant(s, b) == None && Occupant(t, b) == Some(s.started)
  {
  }

  lemma TracksBirth(s: State, h: History, a: Action)
    requires Tracks(s, h) && Enabled(s, a) && Step(s, a).started != s.started
    ensures Tracks(Step(s, a), Record(h, s, a))
  {
    var t, g, b := Step(s, a), Record(h, s, a), BirthPlace(s, a);
    BirthEffect(s, a);
    IdBorn(s, a);
    forall p: nat {:trigger PlaceOk(t, g, p)} | p < |g.where| ensures PlaceOk(t, g, p) {
      if p < |h.where| && h.where[p].Some? {
        assert PlaceOk(s, h, p);
        IdKept(s, a, h.where[p].value);
      }
    }
    forall place {:trigger OccupantOk(t, g, place)} ensures OccupantOk(t, g, place) {
      assert OccupantOk(s, h, place);
    }
  }

  lemma TracksMove(s: State, h: History, a: Action)
    requires Tracks(s, h) && Enabled(s, a) && Transfer(s, a).Some?
    ensures Tracks(Step(s, a), Record(h, s, a))
  {
    var t, g := Step(s, a), Record(h, s, a);
    var (from, to) := Transfer(s, a).value;
    MoveEffect(s, a);
    IdMoved(s, a);
    assert OccupantOk(s, h, from) && OccupantOk(s, h, to);
    forall p: nat {:trigger PlaceOk(t, g, p)} | p < |g.where| ensures PlaceOk(t, g, p) {
      assert PlaceOk(s, h, p);
      if h.where[p].Some? && h.where[p].value != from && h.where[p].value != to {
        IdKept(s, a, h.where[p].value);
      }
    }
    forall place {:trigger OccupantOk(t, g, place)} ensures OccupantOk(t, g, place) {
      assert OccupantOk(s, h, place);
    }
  }

  lemma TracksQuiet(s: State, h: History, a: Action)
    requires Tracks(s, h) && Enabled(s, a) && Transfer(s, a).None? && Step(s, a).started == s.started
    ensures Tracks(Step(s, a), Record(h, s, a))
  {
    var t := Step(s, a);
    QuietEffect(s, a);
    forall p: nat {:trigger PlaceOk(t, h, p)} | p < |h.where| ensures PlaceOk(t, h, p) {
      assert PlaceOk(s, h, p);
      if h.where[p].Some? {
        IdKept(s, a, h.where[p].value);
      }
    }
    forall place {:trigger OccupantOk(t, h, place)} ensures OccupantOk(t, h, place) {
      assert OccupantOk(s, h, place);
    }
  }

  lemma {:induction false} TracksRun(s: State, h: History, acts: seq<Action>, t: State)
    requires Tracks(s, h) && Run(s, acts) == Some(t)
    ensures Tracks(t, HistoryOf(h, s, acts))
    decreases |acts|
  {
    if acts != [] {
      var a := acts[0];
      if Step(s, a).started != s.started {
        TracksBirth(s, h, a);
      } else if Transfer(s, a).Some? {
        TracksMove(s, h, a);
      } else {
        TracksQuiet(s, h, a);
      }
      TracksRun(Step(s, a), Record(h, s, a), acts[1..], t);
    }
  }

  // ----- sharing -----

  // Started for id and never handed to Close, whoever still knows of it
  ghost predicate Lives(s: State, h: History, p: nat, id: string) {
    p < |h.born| && h.born[p] == id && p !in s.closed
  }

  ghost predicate Shared(s: State, h: History, id: string) {
    exists p, q :: p != q && Lives(s, h, p, id) && Lives(s, h, q, id)
  }

  // Who keeps a process of an id from being closed: the table of handles, a Create that has started one, a Delete
  // that has taken one, or nobody, after its handle was overwritten.
  datatype Holder = Table | Hand(c: nat) | Nobody(p: nat)

  predicate Holds(s: State, h: History, x: Holder, id: string) {
    match x
    case Table => id in s.handles
    case Hand(c) => IdAt(s, Carried(c)) == Some(id)
    case Nobody(p) => p < |h.where| && p < |h.born| && h.where[p].None? && h.born[p] == id
  }

  ghost predicate TwoHolders(s: State, h: History, id: string) {
    exists x, y :: x != y && Holds(s, h, x, id) && Holds(s, h, y, id)
  }

  function HolderAt(place: Option<Place>, p: nat): Holder {
    match place
    case None => Nobody(p)
    case Some(Attached(_)) => Table
    case Some(Carried(c)) => Hand(c)
    case Some(Closed(_)) => Nobody(p)
  }

  lemma HeldWhileLive(s: State, h: History, p: nat, id: string)
    requires Tracks(s, h) && Lives(s, h, p, id)
    ensures p < |h.where| && Holds(s, h, HolderAt(h.where[p], p), id)
    ensures h.where[p].Some? ==> h.where[p].value.Carried? || h.where[p].value == Attached(id)
  {
    assert PlaceOk(s, h, p);
  }

  // The process that a holder holds
  lemma HeldProcess(s: State, h: History, x: Holder, id: string) returns (p: nat)
    requires Tracks(s, h) && Holds(s, h, x, id)
    ensures Lives(s, h, p, id) && p < |h.where| && HolderAt(h.where[p], p) == x
  {
    match x {
      case Nobody(q) =>
        p := q;
      case Table =>
        assert OccupantOk(s, h, Attached(id));
        p := s.handles[id];
      case Hand(c) =>
        assert OccupantOk(s, h, Carried(c));
        p := Occupant(s, Carried(c)).value;
    }
    assert PlaceOk(s, h, p);
    ClosedPlace(s, h, p);
  }

  lemma ClosedPlace(s: State, h: History, p: nat)
    requires Tracks(s, h) && p < |h.where|
    ensures p in s.closed ==> h.where[p].Some? && h.where[p].value.Closed?
  {
    if p in s.closed {
      var k :| 0 <= k < |s.closed| && s.closed[k] == p;
      assert OccupantOk(s, h, Closed(k));
    }
  }

  lemma StartTracked(counter: nat, rows: Rows)
    ensures Tracks(Start(counter, rows), NOTHING)
  {
  }

  // Two live processes share a session id, exactly: when the id has two holders. From any start, over any run.
  lemma SharedExactly(counter: nat, rows: Rows, past: seq<Action>, s: State, id: string)
    requires Run(Start(counter, rows), past) == Some(s)
    ensures var h := HistoryOf(NOTHING, Start(counter, rows), past); Shared(s, h, id) <==> TwoHolders(s, h, id)
  {
    var h := HistoryOf(NOTHING, Start(counter, rows), past);
    StartTracked(counter, rows);
    TracksRun(Start(counter, rows), NOTHING, past, s);
    if p, q :| p != q && Lives(s, h, p, id) && Lives(s, h, q, id) {
      HeldWhileLive(s, h, p, id);
      HeldWhileLive(s, h, q, id);
      Apart(s, h, p, q, id);
    }
    if x, y :| x != y && Holds(s, h, x, id) && Holds(s, h, y, id) {
      var p := HeldProcess(s, h, x, id);
      var q := HeldProcess(s, h, y, id);
      assert p != q && Lives(s, h, p, id) && Lives(s, h, q, id);
    }
  }

  lemma Apart(s: State, h: History, p: nat, q: nat, id: string)
    requires Tracks(s, h) && p != q && p < |h.where| && q < |h.where|
    requires h.where[p].Some? ==> h.where[p].value.Carried? || h.where[p].value == Attached(id)
    requires h.where[q].Some? ==> h.where[q].value.Carried? || h.where[q].value == Attached(id)
    requires Holds(s, h, HolderAt(h.where[p], p), id) && Holds(s, h, HolderAt(h.where[q], q), id)
    ensures TwoHolders(s, h, id)
  {
    assert PlaceOk(s, h, p) && PlaceOk(s, h, q);
    var x, y := HolderAt(h.where[p], p), HolderAt(h.where[q], q);
    assert x != y;
  }

  // ----- when no stored id lies ahead of the counter -----

  // Delete d has taken id's process from the handles and not yet closed it.
  predicate Holding(s: State, d: nat, id: string) {
    && d in s.calls && (s.calls[d].DeleteTaken? || s.calls[d].DeleteClosing?)
    && s.calls[d].id == id && s.calls[d].handle.Some?
  }

  // A Create in progress has its id to itself, and no Delete holds an id still to be given out.
  ghost predicate OwnId(s: State) {
    && (forall c {:trigger Creating(s.calls[c])} :: c in s.calls && Creating(s.calls[c]) ==>
          && s.calls[c].sid == FormatId(s.counter) && s.calls[c].sid !in s.handles
          && forall d :: !Holding(s, d, s.calls[c].sid))
    && (forall d, n: nat {:trigger Holding(s, d, FormatId(n))} :: n > s.counter ==> !Holding(s, d, FormatId(n)))
  }

  // Only a Delete that finds a handle begins to hold one.
  lemma HoldingBefore(s: State, a: Action, d: nat, id: string)
    requires Enabled(s, a) && Holding(Step(s, a), d, id)
    ensures Holding(s, d, id) || (a.BeginDelete? && a.c == d && a.id == id && id in s.handles)
  {
  }

  lemma HandlesOnlyFrom(s: State, a: Action, id: string)
    requires Enabled(s, a) && id in Step(s, a).handles && id !in s.handles
    ensures a.c in s.calls && ((a.AttachCreate? && Creating(s.calls[a.c]) && s.calls[a.c].sid == id)
                               || (a.AttachResume? && s.lock.None?))
  {
  }

  lemma CreatingBefore(s: State, a: Action, c: nat)
    requires Enabled(s, a) && c in Step(s, a).calls && Creating(Step(s, a).calls[c])
    ensures (c in s.calls && Creating(s.calls[c]) && Step(s, a).calls[c].sid == s.calls[c].sid && Step(s, a).counter == s.counter)
         || (a.BeginCreate? && a.c == c && Step(s, a).calls[c].sid == FormatId(s.counter + 1) && Step(s, a).counter == s.counter + 1)
         || (a.BeginCreate? && a.c != c && c in s.calls && Creating(s.calls[c]))
  {
    if !a.BeginCreate? {
      CreatingKept(s, a, c);
    }
  }

  lemma CreatingKept(s: State, a: Action, c: nat)
    requires Enabled(s, a) && !a.BeginCreate? && c in Step(s, a).calls && Creating(Step(s, a).calls[c])
    ensures c in s.calls && Creating(s.calls[c]) && Step(s, a).calls[c].sid == s.calls[c].sid && Step(s, a).counter == s.counter
  {
  }

  lemma CreatingOwns(s: State, a: Action, c: nat)
    requires Inv(s) && OwnId(s) && Enabled(s, a) && c in Step(s, a).calls && Creating(Step(s, a).calls[c])
    ensures Step(s, a).calls[c].sid == FormatId(Step(s, a).counter) && Step(s, a).calls[c].sid !in Step(s, a).handles
    ensures forall d :: !Holding(Step(s, a), d, Step(s, a).calls[c].sid)
  {
    var t := Step(s, a);
    CreatingBefore(s, a, c);
    if a.BeginCreate? {
      if a.c != c {
        LockHolder(s, c);
      }
      forall d ensures !Holding(t, d, t.calls[c].sid) {
        assert !Holding(s, d, FormatId(s.counter + 1));
      }
    } else {
      LockHolder(s, c);
      CreatingKeepsAway(s, a, c);
    }
  }

  // While a Create holds the lock nothing else comes to own its id.
  lemma CreatingKeepsAway(s: State, a: Action, c: nat)
    requires Inv(s) && OwnId(s) && Enabled(s, a) && !a.BeginCreate?
    requires c in s.calls && Creating(s.calls[c]) && c in Step(s, a).calls && Creating(Step(s, a).calls[c])
    ensures s.calls[c].sid !in Step(s, a).handles
    ensures forall d :: !Holding(Step(s, a), d, s.calls[c].sid)
  {
    var id := s.calls[c].sid;
    LockHolder(s, c);
    if id in Step(s, a).handles {
      HandlesOnlyFrom(s, a, id);
      LockHolder(s, a.c);
    }
    forall d ensures !Holding(Step(s, a), d, id) {
      if Holding(Step(s, a), d, id) {
        HoldingBefore(s, a, d, id);
      }
    }
  }

  lemma OwnIdStep(s: State, a: Action)
    requires Inv(s) && OwnId(s) && Enabled(s, a)
    ensures OwnId(Step(s, a))
  {
    var t := Step(s, a);
    forall c {:trigger Creating(t.calls[c])} | c in t.calls && Creating(t.calls[c])
      ensures t.calls[c].sid == FormatId(t.counter) && t.calls[c].sid !in t.handles
      ensures forall d :: !Holding(t, d, t.calls[c].sid)
    {
      CreatingOwns(s, a, c);
    }
    forall d, n: nat {:trigger Holding(t, d, FormatId(n))} | n > t.counter ensures !Holding(t, d, FormatId(n)) {
      CounterOnlyGrows(s, a);
      if Holding(t, d, FormatId(n)) {
        HoldingBefore(s, a, d, FormatId(n));
      }
    }
  }

  lemma CounterOnlyGrows(s: State, a: Action)
    requires Enabled(s, a)
    ensures s.counter <= Step(s, a).counter
  {
  }

  lemma {:induction false} OwnIdRun(s: State, acts: seq<Action>, t: State)
    requires Inv(s) && OwnId(s) && Run(s, acts) == Some(t)
    ensures OwnId(t)
    decreases |acts|
  {
    if acts != [] {
      OwnIdStep(s, acts[0]);
      InvStep(s, acts[0]);
      OwnIdRun(Step(s, acts[0]), acts[1..], t);
    }
  }

  ghost predicate NoneOverwritten(h: History) {
    forall p :: 0 <= p < |h.where| ==> h.where[p].Some?
  }

  lemma RecordKeepsAll(s: State, h: History, a: Action)
    requires Enabled(s, a) && NoneOverwritten(h) && (a.AttachCreate? ==> s.calls[a.c].sid !in s.handles)
    ensures NoneOverwritten(Record(h, s, a))
  {
    if Step(s, a).started == s.started && Transfer(s, a).Some? {
      TransferEffect(s, a);
    }
  }

  lemma {:induction false} NoneOverwrittenRun(s: State, h: History, acts: seq<Action>, t: State)
    requires Inv(s) && NoneOverwritten(h) && Run(s, acts) == Some(t)
    ensures NoneOverwritten(HistoryOf(h, s, acts))
    decreases |acts|
  {
    if acts != [] {
      var a := acts[0];
      if a.AttachCreate? {
        assert Creating(s.calls[a.c]);
      }
      RecordKeepsAll(s, h, a);
      InvStep(s, a);
      NoneOverwrittenRun(Step(s, a), Record(h, s, a), acts[1..], t);
    }
  }

  lemma HandMeans(s: State, c: nat, id: string)
    ensures IdAt(s, Carried(c)) == Some(id) <==>
      Holding(s, c, id) || (c in s.calls && Creating(s.calls[c]) && s.calls[c].sid == id && Carries(s.calls[c]).Some?)
  {
  }

  // A Create in progress is then the only holder of its id.
  lemma CreateAlone(s: State, h: History, c: nat, x: Holder)
    requires Inv(s) && OwnId(s) && NoneOverwritten(h)
    requires c in s.calls && Creating(s.calls[c]) && Holds(s, h, x, s.calls[c].sid)
    ensures x == Hand(c)
  {
    LockHolder(s, c);
    if x.Hand? {
      HandMeans(s, x.c, s.calls[c].sid);
      if x.c in s.calls && Creating(s.calls[x.c]) {
        LockHolder(s, x.c);
      }
    }
  }

  // If no stored id lies ahead of the counter at the start, only Delete can bring it about: two live processes share
  // an id exactly when a Delete holds one of them unclosed, and the id is live again or a second Delete holds another.
  lemma SharedUnderDelete(counter: nat, rows: Rows, past: seq<Action>, s: State, id: string)
    requires FreshAfter(counter, rows.Keys) && Run(Start(counter, rows), past) == Some(s)
    ensures Shared(s, HistoryOf(NOTHING, Start(counter, rows), past), id)
       <==> exists d :: Holding(s, d, id) && (id in s.handles || exists e :: e != d && Holding(s, e, id))
  {
    var h := HistoryOf(NOTHING, Start(counter, rows), past);
    StartOk(counter, rows);
    RunKeeps(Start(counter, rows), past, s);
    OwnIdRun(Start(counter, rows), past, s);
    NoneOverwrittenRun(Start(counter, rows), NOTHING, past, s);
    SharedExactly(counter, rows, past, s, id);
    if x, y :| x != y && Holds(s, h, x, id) && Holds(s, h, y, id) {
      HolderIsDelete(s, h, x, y, id);
      HolderIsDelete(s, h, y, x, id);
    }
    if d :| Holding(s, d, id) && (id in s.handles || exists e :: e != d && Holding(s, e, id)) {
      HandMeans(s, d, id);
      assert Holds(s, h, Hand(d), id);
      if id in s.handles {
        assert Holds(s, h, Table, id);
      } else {
        var e :| e != d && Holding(s, e, id);
        HandMeans(s, e, id);
        assert Holds(s, h, Hand(e), id);
      }
    }
  }

  lemma HolderIsDelete(s: State, h: History, x: Holder, y: Holder, id: string)
    requires Inv(s) && OwnId(s) && NoneOverwritten(h) && x != y && Holds(s, h, x, id) && Holds(s, h, y, id)
    ensures !x.Nobody? && (x.Hand? ==> Holding(s, x.c, id))
  {
    if x.Hand? {
      HandMeans(s, x.c, id);
      if x.c in s.calls && Creating(s.calls[x.c]) {
        CreateAlone(s, h, x.c, y);
      }
    }
  }

  // ----- runs that get there -----

  // Deleting a live session and resuming it at the same time
  lemma ResumedBesideDelete(s: State, id: string, c: nat, d: nat) returns (acts: seq<Action>, t: State)
    requires s.lock.None? && id in s.rows && id in s.handles && c !in s.calls && d !in s.calls && c != d
    ensures Run(s, acts) == Some(t) && Holding(t, d, id) && id in t.handles
  {
    var a1, a2, a3 := BeginDelete(d, id), BeginResume(c, id, true), AttachResume(c, true);
    var s1 := Step(s, a1);
    var s2 := Step(s1, a2);
    t := Step(s2, a3);
    RunCons(s2, a3, []);
    RunCons(s1, a2, [a3]);
    RunCons(s, a1, [a2] + [a3]);
    assert [a3] + [] == [a3];
    acts := [a1] + ([a2] + [a3]);
  }

  // From a counter behind the store, no Delete need hold anything: a Create starts a process for an id that a Resume
  // has already attached.
  lemma StaleSeedShares(counter: nat, rows: Rows) returns (past: seq<Action>, s: State, id: string)
    requires !FreshAfter(counter, rows.Keys)
    ensures Run(Start(counter, rows), past) == Some(s) && Shared(s, HistoryOf(NOTHING, Start(counter, rows), past), id)
    ensures forall d :: !Holding(s, d, id)
  {
    var n: nat :| n > counter && FormatId(n) in rows.Keys;
    id := FormatId(n);
    var start, k := Start(counter, rows), n - counter - 1;
    var burn, mid := BurnNumbers(start, k, 0);
    var race, end := AttachAndStart(mid, id, k);
    RunAppend(start, burn, mid, race, end);
    past, s := burn + race, end;
    SharedWithCreate(counter, rows, past, s, id, k + 2);
  }

  lemma AttachAndStart(s: State, id: string, base: nat) returns (acts: seq<Action>, t: State)
    requires s.lock.None? && s.handles == map[] && id in s.rows && id == FormatId(s.counter + 1)
    requires forall c :: c in s.calls ==> c < base && s.calls[c] == Returned(Failed)
    ensures Run(s, acts) == Some(t) && id in t.handles && forall d :: !Holding(t, d, id)
    ensures base + 2 in t.calls && t.calls[base + 2].CreateStarted? && t.calls[base + 2].sid == id
  {
    var race, mid := HandleOutlivesRow(s, id, base, base + 1);
    var last, end := StartsAnother(mid, base + 2);
    RunAppend(s, race, mid, last, end);
    acts, t := race + last, end;
  }

  lemma SharedWithCreate(counter: nat, rows: Rows, past: seq<Action>, s: State, id: string, c: nat)
    requires Run(Start(counter, rows), past) == Some(s)
    requires id in s.handles && c in s.calls && s.calls[c].CreateStarted? && s.calls[c].sid == id
    ensures Shared(s, HistoryOf(NOTHING, Start(counter, rows), past), id)
  {
    var h := HistoryOf(NOTHING, Start(counter, rows), past);
    assert Holds(s, h, Table, id) && Holds(s, h, Hand(c), id);
    SharedExactly(counter, rows, past, s, id);
  }

  lemma StartsAnother(s: State, c: nat) returns (acts: seq<Action>, t: State)
    requires s.lock.None? && c !in s.calls
    ensures Run(s, acts) == Some(t) && t.handles == s.handles
    ensures t.calls == s.calls[c := CreateStarted(FormatId(s.counter + 1), NOBODY, "", s.started)]
  {
    var a1, a2 := BeginCreate(c, NOBODY, Some("")), StartCreate(c, true);
    var s1 := Step(s, a1);
    t := Step(s1, a2);
    RunCons(s1, a2, []);
    RunCons(s, a1, [a2]);
    assert [a2] + [] == [a2];
    acts := [a1] + [a2];
    assert t.calls == s.calls[c := CreateStarted(FormatId(s.counter + 1), NOBODY, "", s.started)];
  }
}
