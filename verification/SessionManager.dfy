// The manager's own methods, one call at a time. Each is proved to be an uninterrupted run of the protocol, and
// keeps what only holds without interleaving: every live handle has its row.
module SessionManager {
  import opened Options
  import opened Decimals
  import opened Text
  import opened SessionIds
  import opened SessionStore
  import opened SessionProtocol
  import opened SessionGuarantees

  // SQLiteStore. up says whether the database answers.
  class Store {
    var rows: Rows

    constructor (rows: Rows)
      ensures this.rows == rows
    {
      this.rows := rows;
    }

    method CreateSession(rec: Record, up: bool) returns (err: Option<StoreError>)
      modifies this
      ensures err == (if !up then Some(Down) else if Conflicts(old(rows), rec) then Some(Conflict) else None)
      ensures rows == if err.None? then old(rows)[rec.id := ToRow(rec)] else old(rows)
    {
      if !up {
        return Some(Down);
      }
      if Conflicts(rows, rec) {
        return Some(Conflict);
      }
      rows := rows[rec.id := ToRow(rec)];
      return None;
    }

    method GetSession(id: string, up: bool) returns (rec: Option<Record>, err: Option<StoreError>)
      ensures err == (if !up then Some(Down) else if id !in rows then Some(NotFound) else None)
      ensures rec == if err.None? then Some(ToRecord(id, rows[id])) else None
    {
      if !up {
        return None, Some(Down);
      }
      if id !in rows {
        return None, Some(NotFound);
      }
      return Some(ToRecord(id, rows[id])), None;
    }

    method DeleteSession(id: string, up: bool) returns (err: Option<StoreError>)
      modifies this
      ensures err == (if !up then Some(Down) else if id !in old(rows) then Some(NotFound) else None)
      ensures rows == if up then old(rows) - {id} else old(rows)
    {
      if !up {
        return Some(Down);
      }
      err := if id in rows then None else Some(NotFound);
      rows := rows - {id};
    }

    method UpdateSessionActivity(id: string, now: string, up: bool) returns (err: Option<StoreError>)
      modifies this
      ensures err == (if !up then Some(Down) else if id !in old(rows) then Some(NotFound) else None)
      ensures rows == if up then Touch(old(rows), id, now) else old(rows)
    {
      if !up {
        return Some(Down);
      }
      if id !in rows {
        return Some(NotFound);
      }
      rows := rows[id := rows[id].(lastActive := now)];
      return None;
    }

    // The scan that ORDER BY id DESC LIMIT 1 stands for, in any order of the rows
    method GetMaxSessionID(up: bool) returns (maxId: string, err: Option<StoreError>)
      ensures err == if up then None else Some(Down)
      ensures up ==> maxId == MaxSessionId(rows.Keys)
    {
      maxId := "";
      if !up {
        return maxId, Some(Down);
      }
      var todo := rows.Keys;
      while todo != {}
        invariant todo <= rows.Keys && (maxId == "" || (maxId in rows && GlobMatches(maxId)))
        invariant forall id :: id in rows.Keys - todo && GlobMatches(id) ==> maxId != "" && LexLe(id, maxId)
      {
        var id :| id in todo;
        MaxOfMore(rows.Keys - todo, maxId, id);
        if GlobMatches(id) && (maxId == "" || LexLe(maxId, id)) {
          maxId := id;
        }
        todo := todo - {id};
      }
      MaxUnique(rows.Keys, maxId);
      return maxId, None;
    }
  }

  // The process manager, seen only through what it has started and been told to close.
  class Host {
    var started: nat
    var closed: seq<nat>

    constructor ()
      ensures started == 0 && closed == []
    {
      started, closed := 0, [];
    }

    method Start(ok: bool) returns (p: Option<nat>)
      modifies this
      ensures closed == old(closed)
      ensures started == (if ok then old(started) + 1 else old(started)) && p == if ok then Some(old(started)) else None
    {
      if ok {
        p := Some(started);
        started := started + 1;
      } else {
        p := None;
      }
    }

    method Close(p: nat, ok: bool) returns (err: bool)
      modifies this
      ensures err == !ok
      ensures started == old(started) && closed == old(closed) + [p]
    {
      closed := closed + [p];
      err := !ok;
    }
  }

  class Manager {
    var counter: nat
    var handles: map<string, nat>
    const store: Store
    const host: Host

    // The protocol state with no call in flight.
    ghost function Idle(): State
      reads this, store, host
    {
      State(counter, store.rows, handles, host.started, host.closed, None, map[])
    }

    ghost predicate Valid()
      reads this, store, host
    {
      Quiet(Idle())
    }

    // What one call leaves behind: the protocol ran acts, all of them steps of call 0, and 0 returned r.
    ghost predicate Ran(before: State, acts: seq<Action>, r: Result)
      reads this, store, host
    {
      Run(before, acts) == Some(Idle().(calls := map[0 := Returned(r)]))
    }

    constructor (store: Store, host: Host)
      requires host.started == 0 && host.closed == [] && ExternalsDistinct(store.rows)
      ensures Valid() && Idle() == Start(0, store.rows) && this.store == store && this.host == host
    {
      this.store, this.host, counter, handles := store, host, 0, map[];
      new;
      StartOk(0, store.rows);
    }

    method Init(up: bool) returns (ok: bool)
      requires Valid()
      modifies this
      ensures Valid() && ok == up && Idle() == old(Idle()).(counter := counter)
      ensures counter == if up then SeedCounter(old(counter), MaxSessionId(store.rows.Keys)) else old(counter)
    {
      ghost var before := Idle();
      var maxId, err := store.GetMaxSessionID(up);
      ok := err.None?;
      if ok && maxId != "" {
        var n := ParseId(maxId);
        if n.Some? && n.value > counter {
          counter := n.value;
        }
      }
      CounterIrrelevant(before, Idle());
    }

    method Create(req: Request, dir: Option<string>, startOk: bool, up: bool, now: string)
      returns (r: Result, ghost acts: seq<Action>)
      requires Valid()
      modifies this, store, host
      ensures Valid() && Ran(old(Idle()), acts, r)
      ensures (Idle(), r) == CreateOutcome(old(Idle()), req, dir, startOk, up, now)
    {
      ghost var s0 := Idle();
      acts := CreateRuns(s0, req, dir, startOk, up, now);
      counter := counter + 1;
      var sid := FormatId(counter);
      if dir.None? {
        return Failed, acts;
      }
      var h := host.Start(startOk);
      if h.None? {
        return Failed, acts;
      }
      var rec := NewRecord(sid, req, dir.value, now);
      PersistAfterStart(s0, Idle(), rec, up);
      r := Persist(rec, h.value, up);
    }

    // The second half of Create: store the row and attach the process, or close it again.
    method Persist(rec: Record, p: nat, up: bool) returns (r: Result)
      modifies this, store, host
      ensures r == CreateResult(old(Idle()), rec, up)
      ensures Idle() == Persisted(old(Idle()), rec, p, up)
    {
      var err := store.CreateSession(rec, up);
      if err.Some? {
        var _ := host.Close(p, true);  // its error is ignored
        return Failed;
      }
      handles := handles[rec.id := p];
      return Created(rec.id);
    }

    method Get(id: string, up: bool) returns (rec: Option<Record>, handle: Option<nat>, err: Option<StoreError>)
      requires Valid()
      ensures err == if id !in handles then Some(NotFound) else if !up then Some(Down) else None
      ensures err.Some? ==> rec.None? && handle.None?
      ensures err.None? ==> rec == Some(ToRecord(id, store.rows[id])) && handle == Some(handles[id])
    {
      if id !in handles {
        return None, None, Some(NotFound);
      }
      rec, err := store.GetSession(id, up);
      if err.Some? {
        return None, None, err;
      }
      handle := Some(handles[id]);
    }

    method Resume(id: string, readUp: bool, startOk: bool, touchUp: bool, now: string)
      returns (r: Result, ghost acts: seq<Action>)
      requires Valid()
      modifies this, store, host
      ensures Valid() && Ran(old(Idle()), acts, r)
      ensures r == (if !readUp then Failed else if id !in old(store.rows) then Missing
                    else if id in old(handles) then AlreadyLive(id) else if !startOk then Failed else Resumed(id))
      // only a session without a live handle starts a process, and only one
      ensures r != Resumed(id) ==> Idle() == old(Idle())
      ensures r == Resumed(id) ==> Idle() == AfterResume(old(Idle()), id, touchUp, now)
    {
      ghost var s0 := Idle();
      var rec, err := store.GetSession(id, readUp);
      if err.Some? {
        acts := ResumeEndsAtRead(s0, id, readUp);
        return if err.value == NotFound then Missing else Failed, acts;
      }
      if id in handles {
        acts := ResumeEndsAtLock(s0, id, startOk);
        return AlreadyLive(id), acts;
      }
      var h := host.Start(startOk);
      if h.None? {
        acts := ResumeEndsAtLock(s0, id, startOk);
        return Failed, acts;
      }
      handles := handles[id := h.value];
      var _ := store.UpdateSessionActivity(id, now, touchUp);
      acts := ResumeIsRun(s0, id, touchUp, now);
      return Resumed(id), acts;
    }

    // closeOk says whether the process's Close reports no error.
    method Delete(id: string, up: bool, closeOk: bool) returns (r: Result, ghost acts: seq<Action>)
      requires Valid()
      modifies this, store, host
      ensures Valid() && Ran(old(Idle()), acts, r)
      ensures id !in handles && (up ==> id !in store.rows)
      ensures handles == old(handles) - {id} && store.rows == if up then old(store.rows) - {id} else old(store.rows)
      ensures r == if id in old(handles) then (if closeOk then Deleted else Failed)
                   else if up && id in old(store.rows) then Deleted else Missing
      ensures host.closed == if id in old(handles) then old(host.closed) + [old(handles)[id]] else old(host.closed)
      ensures host.started == old(host.started) && counter == old(counter)
    {
      ghost var s0 := Idle();
      var ok := id in handles;
      var h := if ok then handles[id] else 0;
      if ok {
        handles := handles - {id};
      }
      assert handles == s0.handles - {id};
      var err := store.DeleteSession(id, up);
      acts := DeleteIsRun(s0, id, up, closeOk);
      if ok {
        var failed := host.Close(h, closeOk);
        return if failed then Failed else Deleted, acts;
      }
      if err.Some? {
        return Missing, acts;
      }
      return Deleted, acts;
    }

    // The listener that Create and Resume leave behind. events pairs each event's type with the time it is seen
    // at; up says which updates the database took.
    method BumpLastActiveOnRunEnd(id: string, events: seq<(string, string)>, up: nat -> bool) returns (ghost acts: seq<Action>)
      requires Valid()
      modifies store
      ensures Valid() && Run(old(Idle()), acts) == Some(Idle())
      ensures Idle() == old(Idle()).(rows := Bumped(old(store.rows), id, events, up))
    {
      ghost var before := Idle();
      acts := [];
      for i := 0 to |events|
        invariant Quiet(Idle()) && Idle() == before.(rows := Bumped(before.rows, id, events[..i], up))
        invariant Run(before, acts) == Some(Idle())
      {
        assert events[..i + 1][..i] == events[..i];
        if events[i].0 != "agent.run.end" {
          continue;
        }
        acts := BumpRuns(before, acts, Idle(), id, up(i), events[i].1);
        var _ := store.UpdateSessionActivity(id, events[i].1, up(i));
      }
      assert events[..|events|] == events;
    }
  }

  // The rows after a stretch of events: only the session's own activity stamp can differ, and it is that of the
  // last recorded end of a run.
  function Bumped(rows: Rows, id: string, events: seq<(string, string)>, up: nat -> bool): Rows {
    if events == [] then rows
    else
      var k := |events| - 1;
      var front := Bumped(rows, id, events[..k], up);
      if events[k].0 == "agent.run.end" && up(k) then Touch(front, id, events[k].1) else front
  }

  lemma {:induction false} BumpedTouchesOnly(rows: Rows, id: string, events: seq<(string, string)>, up: nat -> bool)
    ensures Bumped(rows, id, events, up).Keys == rows.Keys
    ensures forall other :: other in rows && other != id ==> Bumped(rows, id, events, up)[other] == rows[other]
    ensures id in rows ==> Bumped(rows, id, events, up)[id] == rows[id].(lastActive := LastRunEnd(rows[id].lastActive, events, up))
  {
    if events != [] {
      BumpedTouchesOnly(rows, id, events[..|events| - 1], up);
    }
  }

  function LastRunEnd(was: string, events: seq<(string, string)>, up: nat -> bool): string {
    if events == [] then was
    else if events[|events| - 1].0 == "agent.run.end" && up(|events| - 1) then events[|events| - 1].1
    else LastRunEnd(was, events[..|events| - 1], up)
  }

  lemma BumpRuns(s: State, acts: seq<Action>, t: State, id: string, up: bool, now: string) returns (more: seq<Action>)
    requires Run(s, acts) == Some(t) && Quiet(t)
    ensures var u := t.(rows := if up then Touch(t.rows, id, now) else t.rows);
      Run(s, more) == Some(u) && Quiet(u)
  {
    var a := Bump(id, up, now);
    RunCons(t, a, []);
    assert [a] + [] == [a];
    RunAppend(s, acts, t, [a], Step(t, a));
    more := acts + [a];
    ConservedStep(t, a);
    TouchKeepsDistinct(t.rows, id, now);
  }

  // Conservation speaks of processes, not of the counter or the rows.
  lemma CounterIrrelevant(s: State, t: State)
    requires Conserved(s) && t.handles == s.handles && t.started == s.started && t.closed == s.closed && t.calls == s.calls
    ensures Conserved(t)
  {
    var where :| PlacedAs(s, where);
    forall place ensures Occupant(s, place) == Occupant(t, place) {
    }
    Stays(s, t, where);
  }

  // A finished call holds nothing.
  lemma ForgetReturned(s: State, r: Result)
    requires Conserved(s) && s.calls == map[0 := Returned(r)]
    ensures Conserved(s.(calls := map[]))
  {
    var where :| PlacedAs(s, where);
    var t := s.(calls := map[]);
    forall place ensures Occupant(s, place) == Occupant(t, place) {
    }
    Stays(s, t, where);
  }

  // What holds between calls: every live handle has its row, and no process is lost or shared.
  ghost predicate Quiet(s: State) {
    s.lock.None? && s.calls == map[] && Conserved(s) && s.handles.Keys <= s.rows.Keys && ExternalsDistinct(s.rows)
  }

  function Finished(s: State, r: Result): State {
    s.(calls := map[0 := Returned(r)])
  }

  // One step of the only call in flight.
  lemma Advance(s: State, a: Action, rest: seq<Action>, t: State)
    requires Conserved(s) && Enabled(s, a) && (a.AttachCreate? ==> s.calls[a.c].sid !in s.handles)
    requires t == Step(s, a)
    ensures Run(s, [a] + rest) == Run(t, rest) && Conserved(t)
  {
    RunCons(s, a, rest);
    ConservedStep(s, a);
  }

  lemma CreateUnresolved(s: State, req: Request) returns (acts: seq<Action>)
    requires Quiet(s)
    ensures Run(s, acts) == Some(Finished(s.(counter := s.counter + 1), Failed))
    ensures Quiet(s.(counter := s.counter + 1))
  {
    acts := [BeginCreate(0, req, None)];
    RunCons(s, BeginCreate(0, req, None), []);
    CounterIrrelevant(s, s.(counter := s.counter + 1));
  }

  lemma CreateUnstarted(s: State, req: Request, dir: string) returns (acts: seq<Action>)
    requires Quiet(s)
    ensures Run(s, acts) == Some(Finished(s.(counter := s.counter + 1), Failed))
    ensures Quiet(s.(counter := s.counter + 1))
  {
    var a1, a2 := BeginCreate(0, req, Some(dir)), StartCreate(0, false);
    BeginEffect(s, req, dir);
    UnstartedEffect(s, Held(s, req, dir));
    acts := [a1] + [a2];
    RunCons(s, a1, [a2]);
    RunCons(Held(s, req, dir), a2, []);
    assert [a2] + [] == [a2];
    CounterIrrelevant(s, s.(counter := s.counter + 1));
  }

  // A Create that has drawn its number and holds the lock
  function Held(s: State, req: Request, dir: string): State {
    s.(counter := s.counter + 1, lock := Some(0), calls := map[0 := CreateHeld(FormatId(s.counter + 1), req, dir)])
  }

  lemma BeginEffect(s: State, req: Request, dir: string)
    requires Quiet(s)
    ensures Enabled(s, BeginCreate(0, req, Some(dir))) && Step(s, BeginCreate(0, req, Some(dir))) == Held(s, req, dir)
  {
  }

  lemma UnstartedEffect(s: State, held: State)
    requires Quiet(s) && held.calls.Keys == {0} && held.calls[0].CreateHeld?
    requires held == s.(counter := s.counter + 1, lock := Some(0), calls := held.calls)
    ensures Enabled(held, StartCreate(0, false))
    ensures Step(held, StartCreate(0, false)) == Finished(s.(counter := s.counter + 1), Failed)
  {
    assert held.calls[0 := Returned(Failed)] == map[0 := Returned(Failed)];
  }

  function Persisted(s: State, rec: Record, p: nat, up: bool): State {
    if up && !Conflicts(s.rows, rec)
    then s.(rows := s.rows[rec.id := ToRow(rec)], handles := s.handles[rec.id := p])
    else s.(closed := s.closed + [p])
  }

  function AfterCreate(s: State, rec: Record, up: bool): State {
    Persisted(s, rec, s.started, up).(counter := s.counter + 1, started := s.started + 1)
  }

  function Begun(s: State, req: Request, dir: string): State {
    s.(counter := s.counter + 1, started := s.started + 1, lock := Some(0),
       calls := map[0 := CreateStarted(FormatId(s.counter + 1), req, dir, s.started)])
  }

  lemma CreateBegins(s: State, req: Request, dir: string, rest: seq<Action>)
    requires Quiet(s)
    ensures Run(s, [BeginCreate(0, req, Some(dir))] + ([StartCreate(0, true)] + rest)) == Run(Begun(s, req, dir), rest)
    ensures Conserved(Begun(s, req, dir))
  {
    var a1, a2 := BeginCreate(0, req, Some(dir)), StartCreate(0, true);
    var s1 := Held(s, req, dir);
    BeginEffect(s, req, dir);
    Advance(s, a1, [a2] + rest, s1);
    assert Step(s1, a2) == Begun(s, req, dir);
    Advance(s1, a2, rest, Begun(s, req, dir));
  }

  function LastOfCreate(s: State, rec: Record, up: bool): Action {
    if up && !Conflicts(s.rows, rec) then AttachCreate(0) else DiscardCreate(0)
  }

  function CreateResult(s: State, rec: Record, up: bool): Result {
    if up && !Conflicts(s.rows, rec) then Created(rec.id) else Failed
  }

  // Drawing the number and starting the process first makes no difference to the second half.
  lemma PersistAfterStart(s: State, t: State, rec: Record, up: bool)
    requires t == s.(counter := s.counter + 1, started := s.started + 1)
    ensures Persisted(t, rec, s.started, up) == AfterCreate(s, rec, up) && CreateResult(t, rec, up) == CreateResult(s, rec, up)
  {
  }

  // What Create does to an idle manager.
  function CreateOutcome(s: State, req: Request, dir: Option<string>, startOk: bool, up: bool, now: string): (State, Result) {
    if dir.None? || !startOk then (s.(counter := s.counter + 1), Failed)
    else
      var rec := NewRecord(FormatId(s.counter + 1), req, dir.value, now);
      (AfterCreate(s, rec, up), CreateResult(s, rec, up))
  }

  // Rows and handles as before, and whatever was started has been closed again.
  ghost predicate NothingMade(before: State, after: State) {
    && after == before.(counter := before.counter + 1, started := after.started, closed := after.closed)
    && ((after.started == before.started && after.closed == before.closed)
        || (after.started == before.started + 1 && after.closed == before.closed + [before.started]))
  }

  // Create either leaves one new row, one new handle and their one process, or no trace but the number it drew.
  lemma CreateAllOrNothing(s: State, req: Request, dir: Option<string>, startOk: bool, up: bool, now: string)
    ensures var (t, r) := CreateOutcome(s, req, dir, startOk, up, now); var sid := FormatId(s.counter + 1);
      && (r == Failed ==> NothingMade(s, t))
      && (r != Failed ==>
            && r == Created(sid) && dir.Some? && sid !in s.rows
            && t.rows.Keys == s.rows.Keys + {sid}
            && ToRecord(sid, t.rows[sid]).created == now && t.rows[sid].status == "active"
            && t.handles == s.handles[sid := s.started] && t.started == s.started + 1 && t.closed == s.closed)
  {
    assert TrimSpace("active") == "active" by {
      TrimTight("active", IsSpace);
    }
  }

  lemma CreateRuns(s: State, req: Request, dir: Option<string>, startOk: bool, up: bool, now: string)
    returns (acts: seq<Action>)
    requires Quiet(s)
    ensures var (t, r) := CreateOutcome(s, req, dir, startOk, up, now);
      Run(s, acts) == Some(Finished(t, r)) && Quiet(t)
  {
    if dir.None? {
      acts := CreateUnresolved(s, req);
    } else if !startOk {
      acts := CreateUnstarted(s, req, dir.value);
    } else {
      acts := CreateIsRun(s, req, dir.value, up, now);
    }
  }

  lemma CreateIsRun(s: State, req: Request, dir: string, up: bool, now: string) returns (acts: seq<Action>)
    requires Quiet(s)
    ensures var rec := NewRecord(FormatId(s.counter + 1), req, dir, now);
      && Run(s, acts) == Some(Finished(AfterCreate(s, rec, up), CreateResult(s, rec, up)))
      && Quiet(AfterCreate(s, rec, up))
  {
    var rec := NewRecord(FormatId(s.counter + 1), req, dir, now);
    var rest := [StoreCreate(0, up, now), LastOfCreate(s, rec, up)];
    CreateBegins(s, req, dir, rest);
    CreateEnds(s, Begun(s, req, dir), rec, req, up);
    acts := [BeginCreate(0, req, Some(dir))] + ([StartCreate(0, true)] + rest);
    var t := Finished(AfterCreate(s, rec, up), CreateResult(s, rec, up));
    ForgetReturned(t, CreateResult(s, rec, up));
    assert t.(calls := map[]) == AfterCreate(s, rec, up);
    InsertKeepsDistinct(s.rows, rec);
  }

  lemma CreateEnds(s: State, s2: State, rec: Record, req: Request, up: bool)
    requires Quiet(s) && Conserved(s2) && rec == NewRecord(FormatId(s.counter + 1), req, rec.workingDir, rec.created)
    requires s2 == Begun(s, req, rec.workingDir)
    ensures var t := Finished(AfterCreate(s, rec, up), CreateResult(s, rec, up));
      && Run(s2, [StoreCreate(0, up, rec.created), LastOfCreate(s, rec, up)]) == Some(t)
      && Conserved(t)
  {
    var last := LastOfCreate(s, rec, up);
    var a3 := StoreCreate(0, up, rec.created);
    var s3 := Stored(s, rec, up);
    StoreEffect(s, s2, rec, req, up);
    Advance(s2, a3, [last], s3);
    assert [a3, last] == [a3] + [last];
    LastEffect(s, rec, up);
    Advance(s3, last, [], Finished(AfterCreate(s, rec, up), CreateResult(s, rec, up)));
    assert [last] + [] == [last];
  }

  function Stored(s: State, rec: Record, up: bool): State {
    var t := s.(counter := s.counter + 1, started := s.started + 1, lock := Some(0));
    if up && !Conflicts(s.rows, rec)
    then t.(rows := s.rows[rec.id := ToRow(rec)], calls := map[0 := CreateStored(rec.id, s.started)])
    else t.(calls := map[0 := CreateDiscard(rec.id, s.started)])
  }

  lemma StoreEffect(s: State, s2: State, rec: Record, req: Request, up: bool)
    requires Quiet(s) && rec == NewRecord(FormatId(s.counter + 1), req, rec.workingDir, rec.created)
    requires s2 == Begun(s, req, rec.workingDir)
    ensures Enabled(s2, StoreCreate(0, up, rec.created)) && Step(s2, StoreCreate(0, up, rec.created)) == Stored(s, rec, up)
  {
    StoreStep(s2, 0, rec, req, up);
    Overwrite(s2.calls[0], if up && !Conflicts(s.rows, rec) then CreateStored(rec.id, s.started) else CreateDiscard(rec.id, s.started));
  }

  lemma Overwrite(was: Pc, pc: Pc)
    ensures map[0 := was][0 := pc] == map[0 := pc]
  {
  }

  lemma StoreStep(s: State, c: nat, rec: Record, req: Request, up: bool)
    requires c in s.calls && s.calls[c].CreateStarted? && s.calls[c] == CreateStarted(rec.id, req, rec.workingDir, s.calls[c].p)
    requires rec == NewRecord(rec.id, req, rec.workingDir, rec.created)
    ensures Enabled(s, StoreCreate(c, up, rec.created))
    ensures Step(s, StoreCreate(c, up, rec.created)) ==
      if up && !Conflicts(s.rows, rec)
      then To(s.(rows := s.rows[rec.id := ToRow(rec)]), c, CreateStored(rec.id, s.calls[c].p))
      else To(s, c, CreateDiscard(rec.id, s.calls[c].p))
  {
  }

  lemma LastEffect(s: State, rec: Record, up: bool)
    requires Quiet(s)
    ensures var last := LastOfCreate(s, rec, up); var s3 := Stored(s, rec, up);
      && Enabled(s3, last) && Step(s3, last) == Finished(AfterCreate(s, rec, up), CreateResult(s, rec, up))
      && (last.AttachCreate? ==> s3.calls[0].sid !in s3.handles)
  {
    if up && !Conflicts(s.rows, rec) {
      AttachEffect(s, rec);
    } else {
      DiscardEffect(s, rec, up);
    }
  }

  lemma AttachEffect(s: State, rec: Record)
    requires Quiet(s) && !Conflicts(s.rows, rec)
    ensures var s3 := Stored(s, rec, true);
      && Enabled(s3, AttachCreate(0)) && s3.calls[0].sid == rec.id && rec.id !in s3.handles
      && Step(s3, AttachCreate(0)) == Finished(AfterCreate(s, rec, true), Created(rec.id))
  {
    assert map[0 := CreateStored(rec.id, s.started)][0 := Returned(Created(rec.id))] == map[0 := Returned(Created(rec.id))];
  }

  lemma DiscardEffect(s: State, rec: Record, up: bool)
    requires Quiet(s) && !(up && !Conflicts(s.rows, rec))
    ensures var s3 := Stored(s, rec, up);
      && Enabled(s3, DiscardCreate(0)) && Step(s3, DiscardCreate(0)) == Finished(AfterCreate(s, rec, up), Failed)
  {
    assert map[0 := CreateDiscard(rec.id, s.started)][0 := Returned(Failed)] == map[0 := Returned(Failed)];
  }

  lemma ResumeEndsAtRead(s: State, id: string, up: bool) returns (acts: seq<Action>)
    requires Quiet(s) && (!up || id !in s.rows)
    ensures Run(s, acts) == Some(Finished(s, if up then Missing else Failed))
  {
    acts := [BeginResume(0, id, up)];
    RunCons(s, BeginResume(0, id, up), []);
  }

  lemma ResumeEndsAtLock(s: State, id: string, startOk: bool) returns (acts: seq<Action>)
    requires Quiet(s) && id in s.rows && (id in s.handles || !startOk)
    ensures Run(s, acts) == Some(Finished(s, if id in s.handles then AlreadyLive(id) else Failed))
  {
    acts := [BeginResume(0, id, true)] + [AttachResume(0, startOk)];
    var s1 := Step(s, BeginResume(0, id, true));
    RunCons(s, BeginResume(0, id, true), [AttachResume(0, startOk)]);
    RunCons(s1, AttachResume(0, startOk), []);
    assert Step(s1, AttachResume(0, startOk)) == Finished(s, if id in s.handles then AlreadyLive(id) else Failed);
  }

  function AfterResume(s: State, id: string, up: bool, now: string): State {
    s.(handles := s.handles[id := s.started], started := s.started + 1,
       rows := if up then Touch(s.rows, id, now) else s.rows)
  }

  lemma ResumeIsRun(s: State, id: string, up: bool, now: string) returns (acts: seq<Action>)
    requires Quiet(s) && id in s.rows && id !in s.handles
    ensures Run(s, acts) == Some(Finished(AfterResume(s, id, up, now), Resumed(id)))
    ensures Quiet(AfterResume(s, id, up, now))
  {
    var a1, a2, a3 := BeginResume(0, id, true), AttachResume(0, true), TouchResume(0, up, now);
    var s1 := Step(s, a1);
    Advance(s, a1, [a2, a3], s1);
    var s2 := Step(s1, a2);
    Advance(s1, a2, [a3], s2);
    var s3 := Step(s2, a3);
    Advance(s2, a3, [], s3);
    acts := [a1] + [a2, a3];
    assert [a2, a3] == [a2] + [a3];
    assert [a3] + [] == [a3];
    assert s3 == Finished(AfterResume(s, id, up, now), Resumed(id));
    ForgetReturned(s3, Resumed(id));
    assert s3.(calls := map[]) == AfterResume(s, id, up, now);
    TouchKeepsDistinct(s.rows, id, now);
  }

  function AfterDelete(s: State, id: string, up: bool): State {
    s.(handles := s.handles - {id}, rows := if up then s.rows - {id} else s.rows,
       closed := if id in s.handles then s.closed + [s.handles[id]] else s.closed)
  }

  function DeleteResult(s: State, id: string, up: bool, closeOk: bool): Result {
    if id in s.handles then (if closeOk then Deleted else Failed)
    else if up && id in s.rows then Deleted
    else Missing
  }

  lemma DeleteIsRun(s: State, id: string, up: bool, closeOk: bool) returns (acts: seq<Action>)
    requires Quiet(s)
    ensures Run(s, acts) == Some(Finished(AfterDelete(s, id, up), DeleteResult(s, id, up, closeOk)))
    ensures Quiet(AfterDelete(s, id, up))
  {
    var r := DeleteResult(s, id, up, closeOk);
    var handle := if id in s.handles then Some(s.handles[id]) else None;
    var a1, a2, a3 := BeginDelete(0, id), DropRow(0, up), FinishDelete(0, closeOk);
    var s1 := s.(handles := s.handles - {id}, calls := map[0 := DeleteTaken(id, handle)]);
    Advance(s, a1, [a2, a3], s1);
    acts := [a1] + [a2, a3];
    DeleteEnds(s1, id, handle, up, closeOk);
    var t := Finished(AfterDelete(s, id, up), r);
    ForgetReturned(t, r);
    assert t.(calls := map[]) == AfterDelete(s, id, up);
  }

  lemma DeleteEnds(s: State, id: string, handle: Option<nat>, up: bool, closeOk: bool)
    requires Conserved(s) && s.lock.None? && s.calls == map[0 := DeleteTaken(id, handle)]
    ensures var t := FinishedDelete(s.(rows := if up then s.rows - {id} else s.rows), handle, up && id in s.rows, closeOk);
      Run(s, [DropRow(0, up), FinishDelete(0, closeOk)]) == Some(t) && Conserved(t)
  {
    var a2, a3 := DropRow(0, up), FinishDelete(0, closeOk);
    var stored := up && id in s.rows;
    Overwrite(s.calls[0], DeleteClosing(id, handle, stored));
    var s2 := s.(rows := if up then s.rows - {id} else s.rows, calls := map[0 := DeleteClosing(id, handle, stored)]);
    Advance(s, a2, [a3], s2);
    FinishEffect(s2, id, handle, stored, closeOk);
    Advance(s2, a3, [], FinishedDelete(s2, handle, stored, closeOk));
    assert [a2, a3] == [a2] + [a3];
    assert [a3] + [] == [a3];
  }

  function FinishedDelete(s: State, handle: Option<nat>, stored: bool, closeOk: bool): State {
    Finished(s.(closed := if handle.Some? then s.closed + [handle.value] else s.closed),
             if handle.Some? then (if closeOk then Deleted else Failed) else if stored then Deleted else Missing)
  }

  lemma FinishEffect(s: State, id: string, handle: Option<nat>, stored: bool, closeOk: bool)
    requires s.calls == map[0 := DeleteClosing(id, handle, stored)]
    ensures Enabled(s, FinishDelete(0, closeOk))
    ensures Step(s, FinishDelete(0, closeOk)) == FinishedDelete(s, handle, stored, closeOk)
  {
    Overwrite(s.calls[0], FinishedDelete(s, handle, stored, closeOk).calls[0]);
  }
}
