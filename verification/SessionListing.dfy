// Which sessions a listing shows, in terms of their own fields.
module SessionListing {
  import opened Options
  import opened Text
  import opened SessionStore
  import opened SessionPaging

  // A filter that is blank lets everything pass; another one, without its margins, must be the value.
  ghost predicate Passes(filter: string, value: string) {
    AllOf(filter, IsSpace) || exists left, right :: AllOf(left, IsSpace) && AllOf(right, IsSpace) && filter == left + value + right
  }

  // The same where the column may be NULL
  ghost predicate PassesColumn(filter: string, column: Option<string>) {
    AllOf(filter, IsSpace) || (column.Some? && Passes(filter, column.value) && Tight(column.value, IsSpace))
  }

  lemma FilterMeans(filter: string, value: string)
    ensures (TrimSpace(filter) == "" || value == TrimSpace(filter)) <==>
      (AllOf(filter, IsSpace) || (Passes(filter, value) && Tight(value, IsSpace)))
  {
    TrimEmpty(filter, IsSpace);
    var left, right := TrimMargins(filter, IsSpace);
    if !AllOf(filter, IsSpace) && Passes(filter, value) && Tight(value, IsSpace) {
      var l, r :| AllOf(l, IsSpace) && AllOf(r, IsSpace) && filter == l + value + r;
      TrimUnique(l, value, r, IsSpace);
    }
  }

  // The row asked for: each of the three filters passes its column.
  ghost predicate AskedFor(row: Row, q: Query) {
    && PassesColumn(q.user, Some(row.user)) && PassesColumn(q.external, row.external)
    && PassesColumn(q.workingDir, row.workingDir)
  }

  lemma MatchesAskedFor(row: Row, q: Query)
    ensures Matches(row, q) <==> AskedFor(row, q)
  {
    FilterMeans(q.user, row.user);
    ColumnMeans(q.external, row.external);
    ColumnMeans(q.workingDir, row.workingDir);
  }

  lemma ColumnMeans(filter: string, column: Option<string>)
    ensures (TrimSpace(filter) == "" || column == Some(TrimSpace(filter))) <==> PassesColumn(filter, column)
  {
    TrimEmpty(filter, IsSpace);
    if column.Some? {
      FilterMeans(filter, column.value);
    }
  }

  ghost predicate StoredAs(rows: Rows, rec: Record) {
    rec.id in rows && rec == ToRecord(rec.id, rows[rec.id])
  }

  lemma MatchingMeans(rows: Rows, q: Query, rec: Record)
    ensures rec in Matching(rows, q) <==> StoredAs(rows, rec) && AskedFor(rows[rec.id], q)
  {
    if rec.id in rows {
      MatchesAskedFor(rows[rec.id], q);
    }
  }

  // Every record of any page the database may return is a stored one that was asked for.
  lemma PageShowsAskedFor(rows: Rows, q: Query, page: seq<Record>, rec: Record)
    requires Returns(rows, q, page) && rec in page
    ensures StoredAs(rows, rec) && AskedFor(rows[rec.id], q)
    ensures TrimSpace(q.user) != "" ==> rec.user == TrimSpace(q.user)
    ensures TrimSpace(q.external) != "" ==> rec.external == TrimSpace(q.external)
    ensures TrimSpace(q.workingDir) != "" ==> rec.workingDir == TrimSpace(q.workingDir)
  {
    var out :| NewerFirst(out) && Lists(out, Matching(rows, q)) && page == Page(out, q.limit, q.offset);
    assert rec in out;
    MatchingMeans(rows, q, rec);
    MatchesAskedFor(rows[rec.id], q);
    FilterMeans(q.user, rows[rec.id].user);
    ColumnMeans(q.external, rows[rec.id].external);
    ColumnMeans(q.workingDir, rows[rec.id].workingDir);
  }

  // A client that has paged to the end, with no tie at a page boundary, has exactly the stored sessions that were asked
  // for, each once.
  lemma CrawlShowsExactly(rows: Rows, q: Query, limit: int, pages: seq<seq<Record>>, all: seq<Record>, rec: Record)
    requires NoTieCut(SortDesc(Matching(rows, q)), ClampLimit(limit)) && Crawls(rows, q.(limit := limit), [], pages, all)
    ensures NewerFirst(all) && (rec in all <==> StoredAs(rows, rec) && AskedFor(rows[rec.id], q))
  {
    PagingExact(rows, q, limit);
    MatchingMeans(rows, q, rec);
  }

  // Without filters it has all of them.
  lemma BlankQueryShowsAll(rows: Rows, q: Query, id: string)
    requires AllOf(q.user, IsSpace) && AllOf(q.external, IsSpace) && AllOf(q.workingDir, IsSpace) && id in rows
    ensures ToRecord(id, rows[id]) in Matching(rows, q)
  {
    MatchingMeans(rows, q, ToRecord(id, rows[id]));
  }
}
