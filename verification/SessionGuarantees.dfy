// What holds of the session manager over every interleaving, and what does not.
module SessionGuarantees {
  import opened Options
  import opened SessionIds
  import opened SessionStore
  import opened SessionProtocol

  lemma {:induction false} RunKeeps(s: State, acts: seq<Action>, t: State)
    requires Inv(s) && Conserved(s) && Run(s, acts) == Some(t)
    ensures Inv(t) && Conserved(t)
    decreases |acts|
  {
    if acts != [] {
      var a := acts[0];
      InvStep(s, a);
      if a.AttachCreate? {
        assert Creating(s.calls[a.c]);
      }
      ConservedStep(s, a);
      RunKeeps(Step(s, a), acts[1..], t);
    }
  }

  lemma StartOk(counter: nat, rows: Rows)
    ensures Conserved(Start(counter, rows)) && (FreshAfter(counter, rows.Keys) ==> Inv(Start(counter, rows)))
  {
    assert PlacedAs(Start(counter, rows), []);
  }

  // Conservation in plain words.
  lemma ConservedMeans(s: State, p: nat)
    requires Conserved(s) && p < s.started
    ensures exists place :: Occupant(s, place) == Some(p)
    ensures forall a, b :: Occupant(s, a) == Some(p) && Occupant(s, b) == Some(p) ==> a == b
    ensures multiset(s.closed)[p] <= 1
  {
    var where :| PlacedAs(s, where);
    assert Occupant(s, where[p]) == Some(p);
    forall a, b | Occupant(s, a) == Some(p) && Occupant(s, b) == Some(p) ensures a == b {
      assert where[p] == a && where[p] == b;
    }
    forall i, j | 0 <= i < |s.closed| && 0 <= j < |s.closed| && s.closed[i] == p && s.closed[j] == p ensures i == j {
      assert Occupant(s, Closed(i)) == Some(p) && Occupant(s, Closed(j)) == Some(p);
    }
    OnceAtMost(s.closed, p);
  }

  lemma {:induction false} OnceAtMost(xs: seq<nat>, x: nat)
    requires forall i, j :: 0 <= i < |xs| && 0 <= j < |xs| && xs[i] == x && xs[j] == x ==> i == j
    ensures multiset(xs)[x] <= 1
  {
    if xs != [] {
      var front, last := xs[..|xs| - 1], xs[|xs| - 1];
      assert xs == front + [last];
      OnceAtMost(front, x);
      if last == x {
        assert x !in front;
      }
    }
  }

  lemma RunCons(s: State, a: Action, rest: seq<Action>)
    requires Enabled(s, a)
    ensures Run(s, [a] + rest) == Run(Step(s, a), rest)
  {
    assert ([a] + rest)[1..] == rest;
  }

  lemma {:induction false} RunAppend(s: State, acts: seq<Action>, mid: State, more: seq<Action>, t: State)
    requires Run(s, acts) == Some(mid) && Run(mid, more) == Some(t)
    ensures Run(s, acts + more) == Some(t)
    decreases |acts|
  {
    if acts == [] {
      assert acts + more == more;
    } else {
      assert (acts + more)[1..] == acts[1..] + more;
      RunAppend(Step(s, acts[0]), acts[1..], mid, more, t);
    }
  }

  const NOBODY: Request := Request("", "", "")

  // Creates that fail before starting anything still use up numbers.
  lemma {:induction false} BurnNumbers(s: State, k: nat, base: nat) returns (acts: seq<Action>, t: State)
    requires s.lock.None? && forall c :: c in s.calls ==> c < base && s.calls[c] == Returned(Failed)
    ensures Run(s, acts) == Some(t) && t == s.(counter := s.counter + k, calls := t.calls)
    ensures forall c :: c in t.calls ==> c < base + k && t.calls[c] == Returned(Failed)
    decreases k
  {
    if k == 0 {
      acts, t := [], s;
    } else {
      var a := BeginCreate(base, NOBODY, None);
      var rest, end := BurnNumbers(Step(s, a), k - 1, base + 1);
      RunCons(s, a, rest);
      acts, t := [a] + rest, end;
    }
  }

  // A handle can outlive its row: the Resume that read the row attaches after a Delete has removed it.
  lemma HandleOutlivesRow(s: State, id: string, c: nat, d: nat) returns (acts: seq<Action>, t: State)
    requires s.lock.None? && id in s.rows && id !in s.handles && c !in s.calls && d !in s.calls && c != d
    ensures Run(s, acts) == Some(t)
    ensures t == s.(rows := s.rows - {id}, handles := s.handles[id := s.started], started := s.started + 1,
                    calls := s.calls[c := ResumeAttached(id)][d := DeleteClosing(id, None, true)])
    ensures id in t.handles && id !in t.rows
  {
    var a1 := BeginResume(c, id, true);
    var s1 := Step(s, a1);
    var a2 := BeginDelete(d, id);
    var s2 := Step(s1, a2);
    var a3 := DropRow(d, true);
    var s3 := Step(s2, a3);
    var a4 := AttachResume(c, true);
    t := Step(s3, a4);
    assert s.handles - {id} == s.handles;
    RunCons(s3, a4, []);
    RunCons(s2, a3, [a4]);
    RunCons(s1, a2, [a3, a4]);
    RunCons(s, a1, [a2, a3, a4]);
    acts := [a1, a2, a3, a4];
    assert acts == [a1] + [a2, a3, a4];
  }

  // A Create whose number has caught up with an attached id puts its own process in the other's place.
  lemma CreateOver(s: State, c: nat) returns (acts: seq<Action>, t: State)
    requires s.lock.None? && c !in s.calls && FormatId(s.counter + 1) !in s.rows
    ensures Run(s, acts) == Some(t)
    ensures t.handles == s.handles[FormatId(s.counter + 1) := s.started]
    ensures t.started == s.started + 1 && t.closed == s.closed
    ensures t.calls == s.calls[c := Returned(Created(FormatId(s.counter + 1)))] && FormatId(s.counter + 1) in t.rows
  {
    var sid := FormatId(s.counter + 1);
    var s1 := Step(s, BeginCreate(c, NOBODY, Some("")));
    var s2 := Step(s1, StartCreate(c, true));
    assert s2.calls[c] == CreateStarted(sid, NOBODY, "", s.started) && s2.rows == s.rows;
    var more, end := StoreAndAttach(s2, c);
    t := end;
    RunCons(s1, StartCreate(c, true), more);
    RunCons(s, BeginCreate(c, NOBODY, Some("")), [StartCreate(c, true)] + more);
    acts := [BeginCreate(c, NOBODY, Some(""))] + ([StartCreate(c, true)] + more);
  }

  lemma StoreAndAttach(s: State, c: nat) returns (acts: seq<Action>, t: State)
    requires c in s.calls && s.calls[c].CreateStarted? && s.calls[c].req == NOBODY && s.calls[c].sid !in s.rows
    ensures Run(s, acts) == Some(t)
    ensures t.handles == s.handles[s.calls[c].sid := s.calls[c].p] && t.started == s.started && t.closed == s.closed
    ensures t.calls == s.calls[c := Returned(Created(s.calls[c].sid))] && s.calls[c].sid in t.rows
  {
    NobodyHasNoExternal();
    var a1 := StoreCreate(c, true, "");
    var s1 := Step(s, a1);
    var a2 := AttachCreate(c);
    t := Step(s1, a2);
    RunCons(s1, a2, []);
    RunCons(s, a1, [a2]);
    acts := [a1] + [a2];
  }

  lemma NobodyHasNoExternal()
    ensures NullableString(NOBODY.external) == None
  {
  }

  // The two together lose the first process.
  lemma Race(s: State, id: string, base: nat) returns (acts: seq<Action>, t: State)
    requires s.lock.None? && s.handles == map[] && s.started == 0 && s.closed == []
    requires forall c :: c in s.calls ==> c < base && s.calls[c] == Returned(Failed)
    requires id in s.rows && id == FormatId(s.counter + 1)
    ensures Run(s, acts) == Some(t)
    ensures t.started == 2 && forall place :: Occupant(t, place) != Some(0)
  {
    var first, mid := HandleOutlivesRow(s, id, base, base + 1);
    var second, end := CreateOver(mid, base + 2);
    RunAppend(s, first, mid, second, end);
    acts, t := first + second, end;
    NowhereIfReplaced(t);
  }

  lemma NowhereIfReplaced(t: State)
    requires t.closed == [] && 0 !in t.handles.Values
    requires forall c :: c in t.calls ==> Carries(t.calls[c]) == None
    ensures forall place :: Occupant(t, place) != Some(0)
  {
    forall place ensures Occupant(t, place) != Some(0) {
      if place.Attached? && place.id in t.handles {
        assert t.handles[place.id] in t.handles.Values;
      }
    }
  }

  lemma Leak(counter: nat, rows: Rows) returns (acts: seq<Action>, t: State)
    requires !FreshAfter(counter, rows.Keys)
    ensures Run(Start(counter, rows), acts) == Some(t) && !Conserved(t)
  {
    var n: nat :| n > counter && FormatId(n) in rows.Keys;
    var s := Start(counter, rows);
    var burn, mid := BurnNumbers(s, n - counter - 1, 0);
    var race, end := Race(mid, FormatId(n), n - counter - 1);
    RunAppend(s, burn, mid, race, end);
    acts, t := burn + race, end;
    if Conserved(t) {
      ConservedMeans(t, 0);
    }
  }

  // Process conservation, exactly: no interleaving loses, shares or closes twice a process if and only if no
  // stored id lies ahead of the counter when the manager starts.
  lemma ConservationExact(counter: nat, rows: Rows)
    ensures (forall acts, t :: Run(Start(counter, rows), acts) == Some(t) ==> Conserved(t))
       <==> FreshAfter(counter, rows.Keys)
  {
    StartOk(counter, rows);
    if FreshAfter(counter, rows.Keys) {
      forall acts, t | Run(Start(counter, rows), acts) == Some(t) ensures Conserved(t) {
        RunKeeps(Start(counter, rows), acts, t);
      }
    } else {
      var acts, t := Leak(counter, rows);
    }
  }

  // The same for a server restarted on a store of numbered sessions: it is safe exactly when the largest stored
  // id also sorts last, which it does up to a million sessions.
  lemma RestartConserves(nums: set<nat>, top: nat, rows: Rows)
    requires rows.Keys == Ids(nums) && (forall n :: n in nums ==> n < UINT64_LIMIT)
    requires top in nums && forall n :: n in nums ==> n <= top
    ensures var counter := SeedCounter(0, MaxSessionId(rows.Keys));
      (forall acts, t :: Run(Start(counter, rows), acts) == Some(t) ==> Conserved(t))
      <==> top == 0 || TopSortsLast(nums, top)
  {
    RestartExact(nums, top, 0);
    ConservationExact(SeedCounter(0, MaxSessionId(rows.Keys)), rows);
  }

  // Delete still reclaims such a handle: whatever the store says, the process is closed, and Delete reports what
  // closing it reported.
  lemma DeleteReclaims(s: State, c: nat, id: string, up: bool, ok: bool)
    requires s.lock.None? && c !in s.calls && id in s.handles
    ensures var t := Run(s, [BeginDelete(c, id), DropRow(c, up), FinishDelete(c, ok)]);
      && t.Some? && id !in t.value.handles && c in t.value.calls
      && t.value.calls[c] == Returned(if ok then Deleted else Failed)
      && t.value.closed == s.closed + [s.handles[id]]
  {
    var s1 := Step(s, BeginDelete(c, id));
    var s2 := Step(s1, DropRow(c, up));
    RunCons(s2, FinishDelete(c, ok), []);
    RunCons(s1, DropRow(c, up), [FinishDelete(c, ok)]);
    RunCons(s, BeginDelete(c, id), [DropRow(c, up), FinishDelete(c, ok)]);
    assert [BeginDelete(c, id), DropRow(c, up), FinishDelete(c, ok)]
        == [BeginDelete(c, id)] + [DropRow(c, up), FinishDelete(c, ok)];
    assert [DropRow(c, up), FinishDelete(c, ok)] == [DropRow(c, up)] + [FinishDelete(c, ok)];
  }

  // ----- ids and rows over whole runs -----

  ghost predicate Numbered(id: string, above: nat, upTo: nat) {
    exists n: nat :: above < n <= upTo && id == FormatId(n)
  }

  ghost predicate IssuedOk(s: State, above: nat) {
    && (forall c {:trigger Issued(s.calls[c])} :: c in s.calls && Issued(s.calls[c]).Some? ==>
          Numbered(Issued(s.calls[c]).value, above, s.counter))
    && (forall c, d {:trigger Issued(s.calls[c]), Issued(s.calls[d])} ::
          (c in s.calls && d in s.calls && c != d && Issued(s.calls[c]).Some?) ==> Issued(s.calls[c]) != Issued(s.calls[d]))
  }

  // Only BeginCreate gives out an id, and gives the next number.
  lemma IssueEffect(s: State, a: Action, c: nat)
    requires Enabled(s, a) && c in Step(s, a).calls && Issued(Step(s, a).calls[c]).Some?
    ensures s.counter <= Step(s, a).counter <= s.counter + 1
    ensures (c in s.calls && Issued(s.calls[c]) == Issued(Step(s, a).calls[c]))
         || (a.BeginCreate? && a.c == c && Step(s, a).counter == s.counter + 1
             && Issued(Step(s, a).calls[c]).value == FormatId(s.counter + 1))
  {
  }

  lemma NumberedApart(id: string, above: nat, upTo: nat, n: nat)
    requires Numbered(id, above, upTo) && n > upTo
    ensures id != FormatId(n)
  {
    var m: nat :| above < m <= upTo && id == FormatId(m);
    if FormatId(m) == FormatId(n) {
      FormatInjective(m, n);
    }
  }

  lemma IssuedStep(s: State, a: Action, above: nat)
    requires IssuedOk(s, above) && Enabled(s, a) && above <= s.counter
    ensures IssuedOk(Step(s, a), above)
  {
    var t := Step(s, a);
    forall c {:trigger Issued(t.calls[c])} | c in t.calls && Issued(t.calls[c]).Some?
      ensures Numbered(Issued(t.calls[c]).value, above, t.counter)
    {
      IssueEffect(s, a, c);
    }
    forall c, d {:trigger Issued(t.calls[c]), Issued(t.calls[d])} | c in t.calls && d in t.calls && c != d
      && Issued(t.calls[c]).Some?
      ensures Issued(t.calls[c]) != Issued(t.calls[d])
    {
      if Issued(t.calls[d]).Some? {
        IssueEffect(s, a, c);
        IssueEffect(s, a, d);
        if a.BeginCreate? && a.c == c {
          NumberedApart(Issued(s.calls[d]).value, above, s.counter, s.counter + 1);
        } else if a.BeginCreate? && a.c == d {
          NumberedApart(Issued(s.calls[c]).value, above, s.counter, s.counter + 1);
        }
      }
    }
  }

  lemma {:induction false} IssuedRun(s: State, acts: seq<Action>, t: State, above: nat)
    requires IssuedOk(s, above) && above <= s.counter && Run(s, acts) == Some(t)
    ensures IssuedOk(t, above)
    decreases |acts|
  {
    if acts != [] {
      IssuedStep(s, acts[0], above);
      IssuedRun(Step(s, acts[0]), acts[1..], t, above);
    }
  }

  // No two Creates of one manager ever get the same id, and every id is numbered above the counter it began with.
  lemma IdsNeverRepeat(counter: nat, rows: Rows, acts: seq<Action>, t: State, c: nat, d: nat)
    requires Run(Start(counter, rows), acts) == Some(t)
    requires c in t.calls && d in t.calls && c != d
    requires t.calls[c].Returned? && t.calls[c].result.Created?
    ensures Numbered(t.calls[c].result.id, counter, t.counter)
    ensures t.calls[d].Returned? && t.calls[d].result.Created? ==> t.calls[d].result.id != t.calls[c].result.id
  {
    IssuedRun(Start(counter, rows), acts, t, counter);
    assert Issued(t.calls[c]) == Issued(t.calls[c]);
    assert Issued(t.calls[d]) == Issued(t.calls[d]);
  }

  // A Create that begins later gets a larger number than every id given out before.
  lemma {:induction false} IdsIncrease(s: State, acts: seq<Action>, t: State, c: nat)
    requires Run(s, acts) == Some(t) && c !in s.calls && c in t.calls && Issued(t.calls[c]).Some?
    ensures Numbered(Issued(t.calls[c]).value, s.counter, t.counter)
    decreases |acts|
  {
    var a := acts[0];
    var mid := Step(s, a);
    CounterGrows(mid, acts[1..], t);
    if c in mid.calls {
      SameIssue(mid, acts[1..], t, c);
      IssueEffect(s, a, c);
    } else {
      IdsIncrease(mid, acts[1..], t, c);
      assert s.counter <= mid.counter;
    }
  }

  lemma {:induction false} CounterGrows(s: State, acts: seq<Action>, t: State)
    requires Run(s, acts) == Some(t)
    ensures s.counter <= t.counter
    decreases |acts|
  {
    if acts != [] {
      CounterGrows(Step(s, acts[0]), acts[1..], t);
    }
  }

  lemma {:induction false} SameIssue(s: State, acts: seq<Action>, t: State, c: nat)
    requires Run(s, acts) == Some(t) && c in s.calls && c in t.calls && Issued(t.calls[c]).Some?
    ensures Issued(s.calls[c]) == Issued(t.calls[c])
    decreases |acts|
  {
    if acts != [] {
      SameIssue(Step(s, acts[0]), acts[1..], t, c);
      IssueEffect(s, acts[0], c);
    }
  }

  // An id no Create can still bring into being.
  ghost predicate Settled(s: State, id: string) {
    && (forall n: nat :: n > s.counter ==> id != FormatId(n))
    && (forall c :: c in s.calls && (s.calls[c].CreateHeld? || s.calls[c].CreateStarted?) ==> s.calls[c].sid != id)
  }

  ghost predicate SameButActivity(before: Rows, after: Rows, id: string) {
    id in after ==> id in before && after[id] == before[id].(lastActive := after[id].lastActive)
  }

  lemma SettledStep(s: State, a: Action, id: string)
    requires Settled(s, id) && Enabled(s, a)
    ensures Settled(Step(s, a), id) && SameButActivity(s.rows, Step(s, a).rows, id)
  {
  }

  lemma {:induction false} SettledRun(s: State, acts: seq<Action>, t: State, id: string)
    requires Settled(s, id) && Run(s, acts) == Some(t)
    ensures SameButActivity(s.rows, t.rows, id)
    decreases |acts|
  {
    if acts != [] {
      SettledStep(s, acts[0], id);
      SettledRun(Step(s, acts[0]), acts[1..], t, id);
    }
  }

  // A row, once stored, never changes except for its activity stamp, and a deleted id never comes back.
  lemma RowsImmutable(s: State, acts: seq<Action>, t: State, id: string)
    requires Inv(s) && Run(s, acts) == Some(t) && id in s.rows
    ensures SameButActivity(s.rows, t.rows, id)
    ensures forall more, u :: id !in t.rows && Run(t, more) == Some(u) ==> id !in u.rows
  {
    forall c | c in s.calls && (s.calls[c].CreateHeld? || s.calls[c].CreateStarted?) ensures s.calls[c].sid != id {
      assert Creating(s.calls[c]);
    }
    SettledRun(s, acts, t, id);
    SettledAfter(s, acts, t, id);
    forall more, u | id !in t.rows && Run(t, more) == Some(u) ensures id !in u.rows {
      SettledRun(t, more, u, id);
    }
  }

  lemma {:induction false} SettledAfter(s: State, acts: seq<Action>, t: State, id: string)
    requires Settled(s, id) && Run(s, acts) == Some(t)
    ensures Settled(t, id)
    decreases |acts|
  {
    if acts != [] {
      SettledStep(s, acts[0], id);
      SettledAfter(Step(s, acts[0]), acts[1..], t, id);
    }
  }

  lemma ExternalsStep(s: State, a: Action)
    requires ExternalsDistinct(s.rows) && Enabled(s, a)
    ensures ExternalsDistinct(Step(s, a).rows)
  {
    if a.StoreCreate? {
      InsertKeepsDistinct(s.rows, NewRecord(s.calls[a.c].sid, s.calls[a.c].req, s.calls[a.c].dir, a.now));
    } else if a.TouchResume? {
      TouchKeepsDistinct(s.rows, s.calls[a.c].id, a.now);
    } else if a.Bump? {
      TouchKeepsDistinct(s.rows, a.id, a.now);
    }
  }

  // External ids that are not blank stay pairwise distinct.
  lemma {:induction false} ExternalsRun(s: State, acts: seq<Action>, t: State)
    requires ExternalsDistinct(s.rows) && Run(s, acts) == Some(t)
    ensures ExternalsDistinct(t.rows)
    decreases |acts|
  {
    if acts != [] {
      ExternalsStep(s, acts[0]);
      ExternalsRun(Step(s, acts[0]), acts[1..], t);
    }
  }
}
