// What a session's row holds: the fields of the request that created it, and what Get makes of them.
module SessionFields {
  import opened Options
  import opened Text
  import opened SessionIds
  import opened SessionStore
  import opened SessionProtocol
  import opened SessionGuarantees
  import opened SessionManager

  // The row of a session created for req, in dir, at now
  ghost predicate RowOf(row: Row, req: Request, dir: string, now: string) {
    && row.user == req.user
    && (AllOf(req.project, IsSpace) ==> row.project == None) && (!AllOf(req.project, IsSpace) ==> row.project == Some(req.project))
    && (AllOf(req.external, IsSpace) ==> row.external == None) && (!AllOf(req.external, IsSpace) ==> row.external == Some(req.external))
    && (AllOf(dir, IsSpace) ==> row.workingDir == None) && (!AllOf(dir, IsSpace) ==> row.workingDir == Some(dir))
    && row.status == "active" && row.created == now && row.lastActive == now
  }

  lemma NewRowFields(sid: string, req: Request, dir: string, now: string)
    ensures RowOf(ToRow(NewRecord(sid, req, dir, now)), req, dir, now) && NewRecord(sid, req, dir, now).id == sid
  {
    TrimEmpty(req.project, IsSpace);
    TrimEmpty(req.external, IsSpace);
    TrimEmpty(dir, IsSpace);
    TrimTight("active", IsSpace);
  }

  // ToRecord undoes ToRow, except that blank texts come back empty and a blank status as "active".
  lemma RecordSurvivesRow(rec: Record)
    ensures var back := ToRecord(rec.id, ToRow(rec));
      && back.id == rec.id && back.user == rec.user && back.created == rec.created && back.lastActive == rec.lastActive
      && back.project == (if AllOf(rec.project, IsSpace) then "" else rec.project)
      && back.external == (if AllOf(rec.external, IsSpace) then "" else rec.external)
      && back.workingDir == (if AllOf(rec.workingDir, IsSpace) then "" else rec.workingDir)
      && back.status == (if AllOf(rec.status, IsSpace) then "active" else rec.status)
  {
    TrimEmpty(rec.project, IsSpace);
    TrimEmpty(rec.external, IsSpace);
    TrimEmpty(rec.workingDir, IsSpace);
    TrimEmpty(rec.status, IsSpace);
  }

  // One call of Create, and the Get that follows it: the row holds the request's fields, and they are what is returned.
  lemma CreateThenGet(s: State, req: Request, dir: Option<string>, startOk: bool, up: bool, now: string)
    ensures var (t, r) := CreateOutcome(s, req, dir, startOk, up, now); var sid := FormatId(s.counter + 1);
      // it succeeds unless something fails or stands in the way
      && (r == Failed <==>
            (|| dir.None? || !startOk || !up || sid in s.rows
             || (!AllOf(req.external, IsSpace) && exists j :: j in s.rows && s.rows[j].external == Some(req.external))))
      && (r == Created(sid) ==>
            && sid in t.rows && dir.Some? && RowOf(t.rows[sid], req, dir.value, now)
            && (forall j :: j in s.rows ==> j in t.rows && t.rows[j] == s.rows[j])
            && var got := ToRecord(sid, t.rows[sid]);
               && got.id == sid && got.user == req.user && got.created == now && got.lastActive == now
               && got.project == (if AllOf(req.project, IsSpace) then "" else req.project)
               && got.external == (if AllOf(req.external, IsSpace) then "" else req.external)
               && got.workingDir == (if AllOf(dir.value, IsSpace) then "" else dir.value))
  {
    var sid := FormatId(s.counter + 1);
    TrimEmpty(req.external, IsSpace);
    if dir.Some? {
      NewRowFields(sid, req, dir.value, now);
      RecordSurvivesRow(NewRecord(sid, req, dir.value, now));
    }
  }

  // What Resume changes of the rows: the session's own stamp, when the store takes it.
  lemma ResumedRows(s: State, id: string, up: bool, now: string)
    requires id in s.rows
    ensures var t := AfterResume(s, id, up, now);
      && t.handles.Keys == s.handles.Keys + {id} && t.handles[id] == s.started && t.started == s.started + 1
      && (forall j :: j in s.handles && j != id ==> t.handles[j] == s.handles[j])
      && t.closed == s.closed && t.counter == s.counter
      && t.rows.Keys == s.rows.Keys && (forall j :: j in s.rows && j != id ==> t.rows[j] == s.rows[j])
      && t.rows[id] == s.rows[id].(lastActive := if up then now else s.rows[id].lastActive)
  {
  }

  // ----- over runs -----

  // Create call c is for req, in dir, and has not stored its row yet.
  predicate ToStore(s: State, c: nat, req: Request, dir: string) {
    && c in s.calls && (s.calls[c].CreateHeld? || s.calls[c].CreateStarted?)
    && s.calls[c].req == req && s.calls[c].dir == dir
  }

  predicate NotYet(s: State, c: nat) {
    c in s.calls && (s.calls[c].CreateHeld? || s.calls[c].CreateStarted?)
  }

  lemma RequestStays(s: State, a: Action, c: nat)
    requires Enabled(s, a) && NotYet(Step(s, a), c) && c in s.calls
    ensures NotYet(s, c) && ToStore(Step(s, a), c, s.calls[c].req, s.calls[c].dir)
  {
  }

  lemma {:induction false} RequestKept(s: State, acts: seq<Action>, t: State, c: nat)
    requires c in s.calls && Run(s, acts) == Some(t) && NotYet(t, c)
    ensures NotYet(s, c) && ToStore(t, c, s.calls[c].req, s.calls[c].dir)
    decreases |acts|
  {
    if acts != [] {
      CallsStay(s, acts[0], c);
      RequestKept(Step(s, acts[0]), acts[1..], t, c);
      RequestStays(s, acts[0], c);
    }
  }

  lemma CallsStay(s: State, a: Action, c: nat)
    requires Enabled(s, a) && c in s.calls
    ensures c in Step(s, a).calls
  {
  }

  // Over any run: the row that a Create inserts holds the fields of the request it was called with and the directory
  // resolved for it, however much happened in between.
  lemma InsertedRow(s: State, c: nat, req: Request, dir: string, acts: seq<Action>, t: State, up: bool, now: string)
    requires Enabled(s, BeginCreate(c, req, Some(dir))) && Run(Step(s, BeginCreate(c, req, Some(dir))), acts) == Some(t)
    requires Enabled(t, StoreCreate(c, up, now))
    ensures var sid, u := t.calls[c].sid, Step(t, StoreCreate(c, up, now));
      && u.rows.Keys <= t.rows.Keys + {sid} && (forall j :: j in t.rows ==> j in u.rows && u.rows[j] == t.rows[j])
      && (sid in u.rows && sid !in t.rows ==> RowOf(u.rows[sid], req, dir, now))
  {
    RequestKept(Step(s, BeginCreate(c, req, Some(dir))), acts, t, c);
    NewRowFields(t.calls[c].sid, req, dir, now);
  }
}
