// When a live handle can be left without its row: exactly which calls in flight make that possible.
module SessionHandles {
  import opened Options
  import opened SessionIds
  import opened SessionStore
  import opened SessionProtocol
  import opened SessionGuarantees

  ghost predicate Rowless(s: State, id: string) {
    id in s.handles && id !in s.rows
  }

  // Steps of calls already in flight, and of the listeners
  predicate Settling(a: Action) {
    !a.BeginCreate? && !a.BeginResume? && !a.BeginDelete?
  }

  // The calls in flight can bring s to t by themselves.
  ghost predicate Settles(s: State, acts: seq<Action>, t: State) {
    (forall i :: 0 <= i < |acts| ==> Settling(acts[i])) && Run(s, acts) == Some(t)
  }

  ghost predicate CanBecomeRowless(s: State, id: string) {
    exists acts, t :: Settles(s, acts, t) && Rowless(t, id)
  }

  // ----- what the calls in flight are about to do -----

  // Delete has unlocked and not yet removed the row.
  predicate Deleting(s: State, d: nat, id: string) {
    d in s.calls && s.calls[d].DeleteTaken? && s.calls[d].id == id
  }

  // Resume has read the row and not yet locked.
  predicate Resuming(s: State, c: nat, id: string) {
    c in s.calls && s.calls[c].ResumeRead? && s.calls[c].id == id
  }

  // Create has drawn the id and not yet stored the row.
  predicate Storing(s: State, c: nat, id: string) {
    c in s.calls && (s.calls[c].CreateHeld? || s.calls[c].CreateStarted?) && s.calls[c].sid == id
  }

  // Create has stored the row and not yet attached the handle.
  predicate Attaching(s: State, c: nat, id: string) {
    c in s.calls && s.calls[c].CreateStored? && s.calls[c].sid == id
  }

  // Row j stands in the way of the row that Create is about to store.
  predicate Blocks(rows: Rows, j: string, sid: string, req: Request) {
    j in rows && (j == sid || (NullableString(req.external).Some? && rows[j].external == NullableString(req.external)))
  }

  // Every row in the way is about to go, by a Delete other than d.
  ghost predicate Clearable(s: State, sid: string, req: Request, d: nat) {
    forall j {:trigger Blocks(s.rows, j, sid, req)} :: Blocks(s.rows, j, sid, req) ==> exists e :: e != d && Deleting(s, e, j)
  }

  ghost predicate AttachesOver(s: State, id: string, d: nat, c: nat) {
    || Resuming(s, c, id)
    || Attaching(s, c, id)
    || (Storing(s, c, id) && Clearable(s, id, s.calls[c].req, d))
  }

  // A Delete is about to remove the row of an id that is live or may yet become so; or the row is gone and the
  // id may yet become live.
  ghost predicate Doomed(s: State, id: string) {
    || (exists d :: Deleting(s, d, id) && id in s.handles)
    || (exists d, c :: Deleting(s, d, id) && AttachesOver(s, id, d, c))
    || (id !in s.rows && exists c :: Resuming(s, c, id) || Attaching(s, c, id))
  }

  // ----- a state that is not doomed stays so -----

  lemma BlocksMeansConflict(rows: Rows, sid: string, req: Request, dir: string, now: string)
    ensures Conflicts(rows, NewRecord(sid, req, dir, now)) <==> exists j :: Blocks(rows, j, sid, req)
  {
    if Conflicts(rows, NewRecord(sid, req, dir, now)) {
      if sid in rows {
        assert Blocks(rows, sid, sid, req);
      } else {
        var j :| j in rows && rows[j].external == NullableString(req.external);
        assert Blocks(rows, j, sid, req);
      }
    }
  }

  // No step of a call in flight begins to delete or to resume, or changes what a Create is about to store.
  lemma CallsBefore(s: State, a: Action, c: nat, id: string)
    requires Enabled(s, a) && Settling(a)
    ensures Deleting(Step(s, a), c, id) ==> Deleting(s, c, id) && !(a.DropRow? && a.c == c)
    ensures Resuming(Step(s, a), c, id) ==> Resuming(s, c, id)
    ensures Storing(Step(s, a), c, id) ==> Storing(s, c, id) && Step(s, a).calls[c].req == s.calls[c].req
    ensures Attaching(Step(s, a), c, id) ==> Attaching(s, c, id) || (a.StoreCreate? && a.c == c && Storing(s, c, id))
  {
  }

  // A row goes only by the hand of its Delete, and keeps its external id while it stays.
  lemma RowsBefore(s: State, a: Action, j: string)
    requires Enabled(s, a) && Settling(a) && j in s.rows
    ensures j !in Step(s, a).rows ==> a.DropRow? && Deleting(s, a.c, j)
    ensures j in Step(s, a).rows && !a.StoreCreate? ==> Step(s, a).rows[j].external == s.rows[j].external
    ensures a.StoreCreate? ==> j in Step(s, a).rows && Step(s, a).rows[j] == s.rows[j]
  {
  }

  lemma ClearableBefore(s: State, a: Action, id: string, req: Request, d: nat)
    requires Enabled(s, a) && Settling(a)
    requires Deleting(Step(s, a), d, id) && Clearable(Step(s, a), id, req, d)
    ensures Clearable(s, id, req, d)
  {
    var t := Step(s, a);
    CallsBefore(s, a, d, id);
    forall j {:trigger Blocks(s.rows, j, id, req)} | Blocks(s.rows, j, id, req) ensures exists e :: e != d && Deleting(s, e, j) {
      RowsBefore(s, a, j);
      if j in t.rows {
        assert Blocks(t.rows, j, id, req);
        var e :| e != d && Deleting(t, e, j);
        CallsBefore(s, a, e, j);
      } else {
        assert a.c != d && Deleting(s, a.c, j);
      }
    }
  }

  lemma StoredUnblocked(s: State, a: Action, c: nat, id: string)
    requires Enabled(s, a) && a.StoreCreate? && a.c == c && Storing(s, c, id) && Attaching(Step(s, a), c, id)
    ensures id in Step(s, a).rows && forall d :: Clearable(s, id, s.calls[c].req, d)
  {
    BlocksMeansConflict(s.rows, id, s.calls[c].req, s.calls[c].dir, a.now);
  }

  lemma AttachesOverBefore(s: State, a: Action, id: string, d: nat, c: nat)
    requires Enabled(s, a) && Settling(a) && Deleting(Step(s, a), d, id) && AttachesOver(Step(s, a), id, d, c)
    ensures Deleting(s, d, id) && AttachesOver(s, id, d, c)
  {
    var t := Step(s, a);
    CallsBefore(s, a, d, id);
    CallsBefore(s, a, c, id);
    if Attaching(t, c, id) && !Attaching(s, c, id) {
      StoredUnblocked(s, a, c, id);
    } else if Storing(t, c, id) {
      if Clearable(t, id, t.calls[c].req, d) {
        ClearableBefore(s, a, id, t.calls[c].req, d);
      }
    }
  }

  // The only steps that attach
  lemma HandlesBefore(s: State, a: Action, id: string)
    requires Enabled(s, a) && Settling(a) && id in Step(s, a).handles && id !in s.handles
    ensures (a.AttachCreate? || a.AttachResume?) && (Resuming(s, a.c, id) || Attaching(s, a.c, id))
    ensures Step(s, a).rows == s.rows
  {
  }

  lemma AttachedBefore(s: State, a: Action, id: string, d: nat)
    requires Enabled(s, a) && Settling(a) && Deleting(Step(s, a), d, id) && id in Step(s, a).handles
    ensures Doomed(s, id)
  {
    CallsBefore(s, a, d, id);
    if id !in s.handles {
      HandlesBefore(s, a, id);
      assert AttachesOver(s, id, d, a.c);
    }
  }

  lemma RowGoneBefore(s: State, a: Action, id: string, c: nat)
    requires Enabled(s, a) && Settling(a) && id !in Step(s, a).rows
    requires Resuming(Step(s, a), c, id) || Attaching(Step(s, a), c, id)
    ensures Doomed(s, id)
  {
    CallsBefore(s, a, c, id);
    if Attaching(Step(s, a), c, id) && !Attaching(s, c, id) {
      StoredUnblocked(s, a, c, id);
    } else if id in s.rows {
      RowsBefore(s, a, id);
      assert AttachesOver(s, id, a.c, c);
    }
  }

  lemma DoomedBefore(s: State, a: Action, id: string)
    requires Enabled(s, a) && Settling(a) && Doomed(Step(s, a), id)
    ensures Doomed(s, id)
  {
    var t := Step(s, a);
    if d :| Deleting(t, d, id) && id in t.handles {
      AttachedBefore(s, a, id, d);
    } else if d, c :| Deleting(t, d, id) && AttachesOver(t, id, d, c) {
      AttachesOverBefore(s, a, id, d, c);
    } else {
      var c :| Resuming(t, c, id) || Attaching(t, c, id);
      RowGoneBefore(s, a, id, c);
    }
  }

  lemma RowlessBefore(s: State, a: Action, id: string)
    requires Enabled(s, a) && Settling(a) && Rowless(Step(s, a), id)
    ensures Rowless(s, id) || Doomed(s, id)
  {
    if id in s.handles && id in s.rows {
      RowsBefore(s, a, id);
    } else if id !in s.handles {
      HandlesBefore(s, a, id);
    }
  }

  lemma {:induction false} OnlyIfDoomed(s: State, acts: seq<Action>, t: State, id: string)
    requires Settles(s, acts, t) && Rowless(t, id)
    ensures Rowless(s, id) || Doomed(s, id)
    decreases |acts|
  {
    if acts != [] {
      var a := acts[0];
      assert Settling(a);
      OnlyIfDoomed(Step(s, a), acts[1..], t, id);
      if Rowless(Step(s, a), id) {
        RowlessBefore(s, a, id);
      } else {
        DoomedBefore(s, a, id);
      }
    }
  }

  // ----- a doomed state can go wrong -----

  // The lock is held by a Create in progress, or by nobody.
  ghost predicate LockHeld(s: State) {
    && (forall c {:trigger Creating(s.calls[c])} :: c in s.calls && Creating(s.calls[c]) ==> s.lock == Some(c))
    && (s.lock.Some? ==> s.lock.value in s.calls && Creating(s.calls[s.lock.value]))
  }

  lemma LockHeldStep(s: State, a: Action)
    requires LockHeld(s) && Enabled(s, a)
    ensures LockHeld(Step(s, a))
  {
    var t := Step(s, a);
    if a.StartCreate? || a.StoreCreate? || a.AttachCreate? || a.DiscardCreate? {
      assert Creating(s.calls[a.c]);
    }
    forall c {:trigger Creating(t.calls[c])} | c in t.calls && Creating(t.calls[c]) ensures t.lock == Some(c) {
      if !a.BeginCreate? || a.c != c {
        assert Creating(s.calls[c]);
      }
    }
  }

  lemma {:induction false} LockHeldRun(s: State, acts: seq<Action>, t: State)
    requires LockHeld(s) && Run(s, acts) == Some(t)
    ensures LockHeld(t)
    decreases |acts|
  {
    if acts != [] {
      LockHeldStep(s, acts[0]);
      LockHeldRun(Step(s, acts[0]), acts[1..], t);
    }
  }

  lemma SettlesOne(s: State, a: Action)
    requires Enabled(s, a) && Settling(a)
    ensures Settles(s, [a], Step(s, a))
  {
    RunCons(s, a, []);
    assert [a] + [] == [a];
  }

  lemma SettlesAppend(s: State, acts: seq<Action>, mid: State, more: seq<Action>, t: State)
    requires Settles(s, acts, mid) && Settles(mid, more, t)
    ensures Settles(s, acts + more, t)
  {
    RunAppend(s, acts, mid, more, t);
  }

  lemma SettlesThen(s: State, acts: seq<Action>, mid: State, a: Action)
    requires Settles(s, acts, mid) && Enabled(mid, a) && Settling(a)
    ensures Settles(s, acts + [a], Step(mid, a))
  {
    SettlesOne(mid, a);
    SettlesAppend(s, acts, mid, [a], Step(mid, a));
  }

  // The row goes while the id is live.
  lemma DropUnderHandle(s: State, d: nat, id: string)
    requires Deleting(s, d, id) && id in s.handles
    ensures CanBecomeRowless(s, id)
  {
    SettlesOne(s, DropRow(d, true));
    assert Rowless(Step(s, DropRow(d, true)), id);
  }

  // What can go wrong later can go wrong.
  lemma Later(s: State, acts: seq<Action>, mid: State, id: string)
    requires Settles(s, acts, mid) && CanBecomeRowless(mid, id)
    ensures CanBecomeRowless(s, id)
  {
    var more, t :| Settles(mid, more, t) && Rowless(t, id);
    SettlesAppend(s, acts, mid, more, t);
  }

  lemma AlreadyRowless(s: State, id: string)
    requires Rowless(s, id)
    ensures CanBecomeRowless(s, id)
  {
    assert Settles(s, [], s);
  }

  // A Create in progress can be brought to an end without touching a row or another call.
  lemma ReleaseLock(s: State) returns (acts: seq<Action>, t: State)
    requires LockHeld(s)
    ensures Settles(s, acts, t) && t.lock.None? && t.rows == s.rows
    ensures forall c :: c in s.calls && !Creating(s.calls[c]) ==> c in t.calls && t.calls[c] == s.calls[c]
  {
    if s.lock.None? {
      acts, t := [], s;
    } else {
      var c := s.lock.value;
      match s.calls[c]
      case CreateHeld(_, _, _) =>
        acts, t := [StartCreate(c, false)], Step(s, StartCreate(c, false));
        SettlesOne(s, StartCreate(c, false));
      case CreateStarted(_, _, _, _) =>
        var mid := Step(s, StoreCreate(c, false, ""));
        SettlesOne(s, StoreCreate(c, false, ""));
        SettlesThen(s, [StoreCreate(c, false, "")], mid, DiscardCreate(c));
        acts, t := [StoreCreate(c, false, "")] + [DiscardCreate(c)], Step(mid, DiscardCreate(c));
      case CreateStored(_, _) =>
        acts, t := [AttachCreate(c)], Step(s, AttachCreate(c));
        SettlesOne(s, AttachCreate(c));
      case CreateDiscard(_, _) =>
        acts, t := [DiscardCreate(c)], Step(s, DiscardCreate(c));
        SettlesOne(s, DiscardCreate(c));
    }
  }

  // A Resume that has read its row can attach.
  lemma CanAttach(s: State, c: nat, id: string) returns (acts: seq<Action>, t: State)
    requires LockHeld(s) && Resuming(s, c, id)
    ensures Settles(s, acts, t) && id in t.handles && t.rows == s.rows
    ensures forall d :: Deleting(s, d, id) ==> Deleting(t, d, id)
  {
    var first, mid := ReleaseLock(s);
    assert Resuming(mid, c, id);
    SettlesThen(s, first, mid, AttachResume(c, true));
    acts, t := first + [AttachResume(c, true)], Step(mid, AttachResume(c, true));
  }

  lemma CanAttachStored(s: State, c: nat, id: string) returns (acts: seq<Action>, t: State)
    requires Attaching(s, c, id)
    ensures Settles(s, acts, t) && id in t.handles && t.rows == s.rows
    ensures forall d :: Deleting(s, d, id) ==> Deleting(t, d, id)
  {
    SettlesOne(s, AttachCreate(c));
    acts, t := [AttachCreate(c)], Step(s, AttachCreate(c));
  }

  ghost function Deleters(s: State, d: nat): set<nat> {
    set e | e in s.calls && e != d && s.calls[e].DeleteTaken?
  }

  // All Deletes but d can remove their rows.
  lemma {:induction false} DropOthers(s: State, d: nat) returns (acts: seq<Action>, t: State)
    ensures Settles(s, acts, t) && t.handles == s.handles && Deleters(t, d) == {}
    ensures forall j :: j in t.rows ==> j in s.rows && t.rows[j] == s.rows[j] && forall e :: e != d ==> !Deleting(s, e, j)
    ensures forall c :: c in s.calls && c !in Deleters(s, d) ==> c in t.calls && t.calls[c] == s.calls[c]
    decreases |Deleters(s, d)|
  {
    if e :| e in Deleters(s, d) {
      var a := DropRow(e, true);
      var mid := Step(s, a);
      assert Deleters(mid, d) == Deleters(s, d) - {e};
      var rest, end := DropOthers(mid, d);
      SettlesOne(s, a);
      SettlesAppend(s, [a], mid, rest, end);
      acts, t := [a] + rest, end;
      forall j, f | j in t.rows && f != d ensures !Deleting(s, f, j) {
        assert Deleting(s, f, j) && f != e ==> Deleting(mid, f, j);
      }
    } else {
      acts, t := [], s;
      forall j, e | e != d ensures !Deleting(s, e, j) {
        assert e !in Deleters(s, d);
      }
    }
  }

  // A Create whose way is clear can store its row and attach.
  lemma CanStoreAndAttach(s: State, c: nat, id: string) returns (acts: seq<Action>, t: State)
    requires Storing(s, c, id) && forall j :: !Blocks(s.rows, j, id, s.calls[c].req)
    ensures Settles(s, acts, t) && id in t.handles
    ensures forall d :: Deleting(s, d, id) ==> Deleting(t, d, id)
  {
    var first, mid := CanStart(s, c, id);
    BlocksMeansConflict(mid.rows, id, mid.calls[c].req, mid.calls[c].dir, "");
    var a := StoreCreate(c, true, "");
    var stored := Step(mid, a);
    SettlesThen(s, first, mid, a);
    var rest, end := CanAttachStored(stored, c, id);
    SettlesAppend(s, first + [a], stored, rest, end);
    acts, t := first + [a] + rest, end;
  }

  lemma CanStart(s: State, c: nat, id: string) returns (acts: seq<Action>, t: State)
    requires Storing(s, c, id)
    ensures Settles(s, acts, t) && Storing(t, c, id) && t.calls[c].CreateStarted? && t.calls[c].req == s.calls[c].req
    ensures t.rows == s.rows && forall d, j :: Deleting(s, d, j) ==> Deleting(t, d, j)
  {
    if s.calls[c].CreateHeld? {
      acts, t := [StartCreate(c, true)], Step(s, StartCreate(c, true));
      SettlesOne(s, StartCreate(c, true));
    } else {
      acts, t := [], s;
    }
  }

  lemma StoreThenDrop(s: State, id: string, d: nat, c: nat)
    requires Deleting(s, d, id) && Storing(s, c, id) && Clearable(s, id, s.calls[c].req, d)
    ensures CanBecomeRowless(s, id)
  {
    var first, mid := DropOthers(s, d);
    forall j ensures !Blocks(mid.rows, j, id, s.calls[c].req) {
      assert Blocks(mid.rows, j, id, s.calls[c].req) ==> Blocks(s.rows, j, id, s.calls[c].req);
    }
    var rest, end := CanStoreAndAttach(mid, c, id);
    DropUnderHandle(end, d, id);
    Later(mid, rest, end, id);
    Later(s, first, mid, id);
  }

  lemma AttachThenDrop(s: State, id: string, d: nat, c: nat)
    requires LockHeld(s) && Deleting(s, d, id) && AttachesOver(s, id, d, c)
    ensures CanBecomeRowless(s, id)
  {
    if Storing(s, c, id) {
      StoreThenDrop(s, id, d, c);
    } else {
      var acts, t := AttachEither(s, c, id);
      DropUnderHandle(t, d, id);
      Later(s, acts, t, id);
    }
  }

  lemma AttachEither(s: State, c: nat, id: string) returns (acts: seq<Action>, t: State)
    requires LockHeld(s) && (Resuming(s, c, id) || Attaching(s, c, id))
    ensures Settles(s, acts, t) && id in t.handles && t.rows == s.rows
    ensures forall d :: Deleting(s, d, id) ==> Deleting(t, d, id)
  {
    if Resuming(s, c, id) {
      acts, t := CanAttach(s, c, id);
    } else {
      acts, t := CanAttachStored(s, c, id);
    }
  }

  lemma IfDoomed(s: State, id: string)
    requires LockHeld(s) && Doomed(s, id)
    ensures CanBecomeRowless(s, id)
  {
    if d :| Deleting(s, d, id) && id in s.handles {
      DropUnderHandle(s, d, id);
    } else if d, c :| Deleting(s, d, id) && AttachesOver(s, id, d, c) {
      AttachThenDrop(s, id, d, c);
    } else {
      var c :| Resuming(s, c, id) || Attaching(s, c, id);
      var acts, t := AttachEither(s, c, id);
      AlreadyRowless(t, id);
      Later(s, acts, t, id);
    }
  }

  // From any state a server can be in where every live handle has its row, the calls in flight can leave one
  // without, if and only if some id is doomed; and for each id exactly if that id is.
  lemma RowlessExactly(counter: nat, rows: Rows, past: seq<Action>, s: State)
    requires Run(Start(counter, rows), past) == Some(s) && s.handles.Keys <= s.rows.Keys
    ensures forall id :: CanBecomeRowless(s, id) <==> Doomed(s, id)
    ensures (exists acts, t :: Settles(s, acts, t) && !(t.handles.Keys <= t.rows.Keys)) <==> exists id :: Doomed(s, id)
  {
    LockHeldRun(Start(counter, rows), past, s);
    forall id ensures CanBecomeRowless(s, id) <==> Doomed(s, id) {
      if CanBecomeRowless(s, id) {
        var acts, t :| Settles(s, acts, t) && Rowless(t, id);
        OnlyIfDoomed(s, acts, t, id);
      }
      if Doomed(s, id) {
        IfDoomed(s, id);
      }
    }
    if acts, t :| Settles(s, acts, t) && !(t.handles.Keys <= t.rows.Keys) {
      var id :| id in t.handles && id !in t.rows;
      assert Rowless(t, id);
      assert CanBecomeRowless(s, id);
    }
    if id :| Doomed(s, id) {
      var acts, t :| Settles(s, acts, t) && Rowless(t, id);
      assert id in t.handles.Keys && id !in t.rows.Keys;
    }
  }

  // ----- the ways it happens, besides a Resume that attaches after the row is gone -----

  lemma RunThen(s: State, acts: seq<Action>, mid: State, a: Action)
    requires Run(s, acts) == Some(mid) && Enabled(mid, a)
    ensures Run(s, acts + [a]) == Some(Step(mid, a))
  {
    RunCons(mid, a, []);
    assert [a] + [] == [a];
    RunAppend(s, acts, mid, [a], Step(mid, a));
  }

  // A Resume attaches while the row is still there, and the Delete under way then removes it.
  lemma ResumedUnderDelete(s: State, id: string, c: nat, d: nat) returns (acts: seq<Action>, t: State)
    requires s.lock.None? && id in s.rows && c !in s.calls && d !in s.calls && c != d
    ensures Run(s, acts) == Some(t) && Rowless(t, id)
  {
    var s1 := Step(s, BeginDelete(d, id));
    var s2 := Step(s1, BeginResume(c, id, true));
    var s3 := Step(s2, AttachResume(c, true));
    t := Step(s3, DropRow(d, true));
    RunThen(s, [], s, BeginDelete(d, id));
    RunThen(s, [] + [BeginDelete(d, id)], s1, BeginResume(c, id, true));
    RunThen(s, [] + [BeginDelete(d, id)] + [BeginResume(c, id, true)], s2, AttachResume(c, true));
    acts := [] + [BeginDelete(d, id)] + [BeginResume(c, id, true)] + [AttachResume(c, true)];
    RunThen(s, acts, s3, DropRow(d, true));
    acts := acts + [DropRow(d, true)];
  }

  // A Delete of the very id that Create is about to give out removes the new row before the handle is attached.
  lemma CreatedUnderDelete(s: State, c: nat, d: nat) returns (acts: seq<Action>, t: State)
    requires s.lock.None? && FormatId(s.counter + 1) !in s.rows && c !in s.calls && d !in s.calls && c != d
    ensures Run(s, acts) == Some(t) && c in t.calls && t.calls[c] == Returned(Created(FormatId(s.counter + 1)))
    ensures Rowless(t, FormatId(s.counter + 1))
  {
    var id := FormatId(s.counter + 1);
    var s1 := Step(s, BeginDelete(d, id));
    var s2 := Step(s1, BeginCreate(c, NOBODY, Some("")));
    var s3 := Step(s2, StartCreate(c, true));
    RunThen(s, [], s, BeginDelete(d, id));
    RunThen(s, [] + [BeginDelete(d, id)], s1, BeginCreate(c, NOBODY, Some("")));
    RunThen(s, [] + [BeginDelete(d, id)] + [BeginCreate(c, NOBODY, Some(""))], s2, StartCreate(c, true));
    var first := [] + [BeginDelete(d, id)] + [BeginCreate(c, NOBODY, Some(""))] + [StartCreate(c, true)];
    assert Deleting(s3, d, id) && s3.calls[c] == CreateStarted(id, NOBODY, "", s.started) && s3.rows == s.rows;
    var rest, end := StoreDropAttach(s3, id, c, d);
    RunAppend(s, first, s3, rest, end);
    acts, t := first + rest, end;
  }

  lemma StoreDropAttach(s: State, id: string, c: nat, d: nat) returns (acts: seq<Action>, t: State)
    requires Deleting(s, d, id) && c in s.calls && s.calls[c].CreateStarted? && s.calls[c].sid == id
    requires s.calls[c].req == NOBODY && id !in s.rows
    ensures Run(s, acts) == Some(t) && Rowless(t, id) && c in t.calls && t.calls[c] == Returned(Created(id))
  {
    NobodyHasNoExternal();
    var s1 := Step(s, StoreCreate(c, true, ""));
    var s2 := Step(s1, DropRow(d, true));
    t := Step(s2, AttachCreate(c));
    RunThen(s, [], s, StoreCreate(c, true, ""));
    RunThen(s, [] + [StoreCreate(c, true, "")], s1, DropRow(d, true));
    RunThen(s, [] + [StoreCreate(c, true, "")] + [DropRow(d, true)], s2, AttachCreate(c));
    acts := [] + [StoreCreate(c, true, "")] + [DropRow(d, true)] + [AttachCreate(c)];
  }
}
