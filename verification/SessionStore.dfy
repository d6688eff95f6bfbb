// The sessions table: rows by id, a unique index over non-NULL external ids, and the listing query.
module SessionStore {
  import opened Options
  import opened Decimals
  import opened Text

  // NULL is None.
  datatype Row = Row(
    user: string, project: Option<string>, external: Option<string>, status: string,
    workingDir: Option<string>, created: string, lastActive: string)

  datatype Record = Record(
    id: string, user: string, project: string, external: string, status: string,
    workingDir: string, created: string, lastActive: string)

  datatype StoreError = NotFound | Conflict | Down

  type Rows = map<string, Row>

  function NullableString(v: string): Option<string> {
    if TrimSpace(v) == "" then None else Some(v)
  }

  function NullableStringValue(v: Option<string>): string {
    if v.Some? then v.value else ""
  }

  function ToRow(rec: Record): Row {
    Row(rec.user, NullableString(rec.project), NullableString(rec.external),
        if TrimSpace(rec.status) == "" then "active" else rec.status,
        NullableString(rec.workingDir), rec.created, rec.lastActive)
  }

  function ToRecord(id: string, row: Row): Record {
    Record(id, row.user, NullableStringValue(row.project), NullableStringValue(row.external), row.status,
           NullableStringValue(row.workingDir), row.created, row.lastActive)
  }

  predicate ExternalTaken(rows: Rows, external: Option<string>) {
    external.Some? && exists id :: id in rows && rows[id].external == external
  }

  // PRIMARY KEY and idx_sessions_external
  predicate Conflicts(rows: Rows, rec: Record) {
    rec.id in rows || ExternalTaken(rows, NullableString(rec.external))
  }

  // The partial unique index holds.
  ghost predicate ExternalsDistinct(rows: Rows) {
    forall i, j :: i in rows && j in rows && i != j && rows[i].external.Some? ==> rows[i].external != rows[j].external
  }

  function Insert(rows: Rows, rec: Record): Rows {
    if Conflicts(rows, rec) then rows else rows[rec.id := ToRow(rec)]
  }

  function Touch(rows: Rows, id: string, now: string): Rows {
    if id in rows then rows[id := rows[id].(lastActive := now)] else rows
  }

  lemma InsertKeepsDistinct(rows: Rows, rec: Record)
    requires ExternalsDistinct(rows)
    ensures ExternalsDistinct(Insert(rows, rec))
  {
  }

  lemma TouchKeepsDistinct(rows: Rows, id: string, now: string)
    requires ExternalsDistinct(rows)
    ensures ExternalsDistinct(Touch(rows, id, now))
  {
  }

  // ----- listing -----

  datatype Query = Query(user: string, external: string, workingDir: string, limit: int, offset: int)

  predicate Matches(row: Row, q: Query) {
    && (TrimSpace(q.user) != "" ==> row.user == TrimSpace(q.user))
    && (TrimSpace(q.external) != "" ==> row.external == Some(TrimSpace(q.external)))
    && (TrimSpace(q.workingDir) != "" ==> row.workingDir == Some(TrimSpace(q.workingDir)))
  }

  function ClampLimit(limit: int): (n: nat)
    ensures 1 <= n <= 200
    ensures n == limit <==> 1 <= limit <= 200
    ensures n != limit ==> n == if limit > 200 then 200 else 50
  {
    if limit <= 0 then 50 else if limit > 200 then 200 else limit
  }

  function ClampOffset(offset: int): nat {
    if offset < 0 then 0 else offset
  }

  ghost predicate DistinctCreated(recs: set<Record>) {
    forall a, b :: a in recs && b in recs && a.created == b.created ==> a == b
  }

  ghost function Newest(recs: set<Record>): (m: Record)
    requires recs != {}
    ensures m in recs && forall r :: r in recs ==> LexLe(r.created, m.created)
  {
    var r :| r in recs;
    LexTotal(r.created, r.created);
    if recs == {r} then r
    else
      var m := Newest(recs - {r});
      LexTotal(r.created, m.created);
      assert forall o :: o in recs ==> o == r || o in recs - {r};
      assert forall o :: LexLe(o, m.created) && LexLe(m.created, r.created) ==> LexLe(o, r.created) by {
        forall o | LexLe(o, m.created) && LexLe(m.created, r.created) ensures LexLe(o, r.created) {
          LexTransitive(o, m.created, r.created);
        }
      }
      if LexLe(m.created, r.created) then r else m
  }

  ghost function SortDesc(recs: set<Record>): (out: seq<Record>)
    ensures |out| == |recs| && forall r :: r in out <==> r in recs
    decreases |recs|
  {
    if recs == {} then []
    else
      var m := Newest(recs);
      [m] + SortDesc(recs - {m})
  }

  ghost function Matching(rows: Rows, q: Query): set<Record> {
    set id | id in rows && Matches(rows[id], q) :: ToRecord(id, rows[id])
  }

  // LIMIT ? OFFSET ?
  function Page<T>(all: seq<T>, limit: int, offset: int): (page: seq<T>)
    ensures page == [] <==> ClampOffset(offset) >= |all|
    ensures ClampOffset(offset) <= |all| ==> all[..ClampOffset(offset)] + page <= all
    ensures offset <= 0 ==> page <= all
    ensures 0 <= offset <= |all| ==> all[..offset] + page <= all
    ensures |page| <= ClampLimit(limit)
    ensures |page| < ClampLimit(limit) ==> ClampOffset(offset) + |page| >= |all|
  {
    var from := if ClampOffset(offset) <= |all| then ClampOffset(offset) else |all|;
    var to := if from + ClampLimit(limit) <= |all| then from + ClampLimit(limit) else |all|;
    all[from..to]
  }

  ghost predicate NewerFirst(recs: seq<Record>) {
    forall i, j :: 0 <= i < j < |recs| ==> LexLe(recs[j].created, recs[i].created) && recs[i] != recs[j]
  }

  ghost predicate Lists(out: seq<Record>, recs: set<Record>) {
    forall r :: r in out <==> r in recs
  }

  // SELECT ... WHERE ... ORDER BY created_at DESC LIMIT ? OFFSET ?, which leaves the order of equal timestamps open,
  // and open anew for each query.
  ghost predicate Returns(rows: Rows, q: Query, page: seq<Record>) {
    exists out :: NewerFirst(out) && Lists(out, Matching(rows, q)) && page == Page(out, q.limit, q.offset)
  }

  lemma NewerFirstCons(m: Record, rest: seq<Record>)
    requires NewerFirst(rest) && forall r :: r in rest ==> LexLe(r.created, m.created) && r != m
    ensures NewerFirst([m] + rest)
  {
  }

  lemma {:induction false} SortedDesc(recs: set<Record>)
    ensures NewerFirst(SortDesc(recs))
    decreases |recs|
  {
    if recs != {} {
      var m := Newest(recs);
      SortedDesc(recs - {m});
      NewerFirstCons(m, SortDesc(recs - {m}));
    }
  }

  // With distinct timestamps that order is the only one the database may return.
  lemma {:induction false} OrderUnique(recs: set<Record>, out: seq<Record>)
    requires DistinctCreated(recs) && NewerFirst(out) && Lists(out, recs)
    ensures out == SortDesc(recs)
    decreases |recs|
  {
    EmptyTogether(recs, out);
    if out != [] {
      FirstIsNewest(recs, out);
      TailMembers(out, recs);
      FewerDistinct(recs, out[0]);
      OrderUnique(recs - {out[0]}, out[1..]);
      SortedFrom(recs, out);
    }
  }

  lemma EmptyTogether(recs: set<Record>, out: seq<Record>)
    requires Lists(out, recs)
    ensures out == [] <==> recs == {}
  {
    if recs != {} {
      var r :| r in recs;
      assert r in out;
    }
    if out != [] {
      assert out[0] in recs;
    }
  }

  lemma FewerDistinct(recs: set<Record>, r: Record)
    requires DistinctCreated(recs)
    ensures DistinctCreated(recs - {r})
  {
  }

  lemma SortedFrom(recs: set<Record>, out: seq<Record>)
    requires recs != {} && out != [] && out[0] == Newest(recs) && out[1..] == SortDesc(recs - {out[0]})
    ensures out == SortDesc(recs)
  {
    assert out == [out[0]] + out[1..];
  }

  lemma FirstIsNewest(recs: set<Record>, out: seq<Record>)
    requires DistinctCreated(recs) && out != [] && NewerFirst(out) && Lists(out, recs)
    ensures recs != {} && out[0] == Newest(recs)
  {
    assert out[0] in recs;
    var m := Newest(recs);
    assert m in out;
    LexTotal(out[0].created, m.created);
  }

  lemma TailMembers(out: seq<Record>, recs: set<Record>)
    requires out != [] && NewerFirst(out) && Lists(out, recs)
    ensures Lists(out[1..], recs - {out[0]}) && NewerFirst(out[1..])
  {
    forall r ensures r in out[1..] <==> r in recs - {out[0]} {
      if r in recs - {out[0]} {
        var k :| 0 <= k < |out| && out[k] == r;
        assert out[1..][k - 1] == r;
      }
    }
  }

  // The filter trims, the column does not: a stored external id finds its own session if and only if it has no
  // space at either end.
  lemma FoundByOwnExternalId(rec: Record, limit: int, offset: int)
    requires NullableString(rec.external).Some?
    ensures Matches(ToRow(rec), Query("", rec.external, "", limit, offset)) <==> Tight(rec.external, IsSpace)
  {
    TrimTight(rec.external, IsSpace);
  }

  // The same of a working directory.
  lemma FoundByOwnWorkingDir(rec: Record, limit: int, offset: int)
    requires NullableString(rec.workingDir).Some?
    ensures Matches(ToRow(rec), Query("", "", rec.workingDir, limit, offset)) <==> Tight(rec.workingDir, IsSpace)
  {
    TrimTight(rec.workingDir, IsSpace);
  }

  lemma SpacedExternalIdIsLost(rec: Record, limit: int, offset: int)
    requires rec.external == " x"
    ensures NullableString(rec.external) == Some(" x")
    ensures !Matches(ToRow(rec), Query("", rec.external, "", limit, offset))
  {
    TrimUnique(" ", "x", "", IsSpace);
    assert " " + "x" + "" == " x";
    FoundByOwnExternalId(rec, limit, offset);
  }
}
