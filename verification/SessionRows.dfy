// Whether a stored row lasts: exactly when no row changes under its id and no deleted id comes back.
module SessionRows {
  import opened Options
  import opened SessionIds
  import opened SessionStore
  import opened SessionProtocol
  import opened SessionGuarantees

  // Over every run and from every moment of it: a row stored then can only change its activity stamp or be deleted,
  // and once deleted its id stays away.
  ghost predicate RowsLast(counter: nat, rows: Rows) {
    forall past, s, more, t, rest, u, id ::
      Run(Start(counter, rows), past) == Some(s) && Run(s, more) == Some(t) && Run(t, rest) == Some(u) && id in s.rows ==>
        SameButActivity(s.rows, t.rows, id) && (id !in t.rows ==> id !in u.rows)
  }

  // A whole Delete of an id with no live handle
  lemma DeleteRow(s: State, c: nat, id: string) returns (acts: seq<Action>, t: State)
    requires s.lock.None? && c !in s.calls && id !in s.handles && id in s.rows
    ensures Run(s, acts) == Some(t)
    ensures t == s.(rows := s.rows - {id}, calls := s.calls[c := Returned(Deleted)])
  {
    var a1, a2, a3 := BeginDelete(c, id), DropRow(c, true), FinishDelete(c, true);
    var s1 := s.(calls := s.calls[c := DeleteTaken(id, None)]);
    assert s.handles - {id} == s.handles;
    var s2 := s.(rows := s.rows - {id}, calls := s.calls[c := DeleteClosing(id, None, true)]);
    t := s.(rows := s.rows - {id}, calls := s.calls[c := Returned(Deleted)]);
    assert s1.calls[c := DeleteClosing(id, None, true)] == s2.calls && s2.calls[c := Returned(Deleted)] == t.calls;
    RunCons(s2, a3, []);
    RunCons(s1, a2, [a3]);
    RunCons(s, a1, [a2] + [a3]);
    assert [a3] + [] == [a3];
    acts := [a1] + ([a2] + [a3]);
  }

  // From a counter behind the store: a session is deleted, and a later Create brings its id back.
  lemma ComesBack(counter: nat, rows: Rows)
    returns (past: seq<Action>, s: State, more: seq<Action>, t: State, rest: seq<Action>, u: State, id: string)
    requires !FreshAfter(counter, rows.Keys)
    ensures Run(Start(counter, rows), past) == Some(s) && Run(s, more) == Some(t) && Run(t, rest) == Some(u)
    ensures id in s.rows && id !in t.rows && id in u.rows
  {
    var n: nat :| n > counter && FormatId(n) in rows.Keys;
    id := FormatId(n);
    var start, k := Start(counter, rows), n - counter - 1;
    past, s := BurnNumbers(start, k, 0);
    more, t := DeleteRow(s, k, id);
    rest, u := CreateOver(t, k + 1);
  }

  // Rows last, exactly: over all runs a stored row changes only its activity stamp and a deleted id never comes back,
  // if and only if no stored id lies ahead of the counter when the manager starts.
  lemma RowsLastExactly(counter: nat, rows: Rows)
    ensures RowsLast(counter, rows) <==> FreshAfter(counter, rows.Keys)
  {
    if FreshAfter(counter, rows.Keys) {
      StartOk(counter, rows);
      forall past, s, more, t, rest, u, id |
        Run(Start(counter, rows), past) == Some(s) && Run(s, more) == Some(t) && Run(t, rest) == Some(u) && id in s.rows
        ensures SameButActivity(s.rows, t.rows, id) && (id !in t.rows ==> id !in u.rows)
      {
        RunKeeps(Start(counter, rows), past, s);
        RowsImmutable(s, more, t, id);
      }
    } else {
      var past, s, more, t, rest, u, id := ComesBack(counter, rows);
    }
  }
}
