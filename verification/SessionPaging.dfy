// Paging through a listing: a client asks on at the length of what it has, until a page comes back empty.
module SessionPaging {
  import opened Decimals
  import opened SessionStore

  // Such a client's pages, each answered by the database as it likes, and what it has in the end.
  ghost predicate Crawls(rows: Rows, q: Query, seen: seq<Record>, pages: seq<seq<Record>>, all: seq<Record>)
    decreases |pages|
  {
    && pages != [] && Returns(rows, q.(offset := |seen|), pages[0])
    && if pages[0] == [] then |pages| == 1 && all == seen else Crawls(rows, q, seen + pages[0], pages[1..], all)
  }

  // Every matching row exactly once, newest first
  ghost predicate Complete(all: seq<Record>, recs: set<Record>) {
    NewerFirst(all) && Lists(all, recs)
  }

  lemma MatchingIgnoresPage(rows: Rows, q: Query, limit: int, offset: int)
    ensures Matching(rows, q.(limit := limit)) == Matching(rows, q) == Matching(rows, q.(limit := limit, offset := offset))
  {
  }

  lemma {:induction false} LengthOf(out: seq<Record>, recs: set<Record>)
    requires NewerFirst(out) && Lists(out, recs)
    ensures |out| == |recs|
  {
    EmptyTogether(recs, out);
    if out != [] {
      TailMembers(out, recs);
      LengthOf(out[1..], recs - {out[0]});
    }
  }

  lemma OnePage(rows: Rows, q: Query, offset: nat, page: seq<Record>)
    requires Returns(rows, q.(offset := offset), page)
    ensures page == [] <==> offset >= |Matching(rows, q)|
    ensures offset <= |Matching(rows, q)| ==> offset + |page| <= |Matching(rows, q)|
    ensures |page| == ClampLimit(q.limit) || offset + |page| >= |Matching(rows, q)|
  {
    var out := OrderOf(rows, q, offset, page);
    LengthOf(out, Matching(rows, q));
  }

  // Whatever the database answers, paging ends, after at most one page more than there are rows and with as many
  // records as there are rows.
  lemma {:induction false} CrawlEnds(rows: Rows, q: Query, seen: seq<Record>, pages: seq<seq<Record>>, all: seq<Record>)
    requires Crawls(rows, q, seen, pages, all) && |seen| <= |Matching(rows, q)|
    ensures |pages| <= |Matching(rows, q)| - |seen| + 1 && |all| == |Matching(rows, q)|
    decreases |pages|
  {
    OnePage(rows, q, |seen|, pages[0]);
    if pages[0] != [] {
      CrawlEnds(rows, q, seen + pages[0], pages[1..], all);
    }
  }

  // From wherever it is, a client can go on with the pages of one and the same listing.
  lemma {:induction false} CrawlOn(rows: Rows, q: Query, out: seq<Record>, seen: seq<Record>)
    returns (pages: seq<seq<Record>>)
    requires NewerFirst(out) && Lists(out, Matching(rows, q)) && |seen| <= |out|
    ensures Crawls(rows, q, seen, pages, seen + out[|seen|..])
    decreases |out| - |seen|
  {
    var page := Page(out, q.limit, |seen|);
    MatchingIgnoresPage(rows, q, q.limit, |seen|);
    assert Returns(rows, q.(offset := |seen|), page);
    if page == [] {
      pages := [page];
      assert seen + out[|seen|..] == seen;
    } else {
      assert out[..|seen|] + page == out[..|seen| + |page|];
      assert page == out[|seen|..|seen| + |page|];
      var rest := CrawlOn(rows, q, out, seen + page);
      pages := [page] + rest;
      assert (seen + page) + out[|seen + page|..] == seen + out[|seen|..];
    }
  }

  // ----- page boundaries -----

  // No two rows of one timestamp stand on either side of b.
  ghost predicate CleanCut(out: seq<Record>, b: nat) {
    0 < b < |out| ==> out[b - 1].created != out[b].created
  }

  // Nor of any page boundary from b on, with pages of n rows.
  ghost predicate CleanCuts(out: seq<Record>, n: nat, b: nat)
    requires n >= 1
    decreases if b < |out| then |out| - b else 0
  {
    CleanCut(out, b) && (b < |out| ==> CleanCuts(out, n, b + n))
  }

  lemma {:induction false} CleanCutsFrom(out: seq<Record>, n: nat, b: nat, j: nat)
    requires n >= 1 && b == j * n
    ensures CleanCuts(out, n, b) <==> forall k: nat :: k >= j ==> CleanCut(out, k * n)
    decreases if b < |out| then |out| - b else 0
  {
    if b < |out| {
      assert (j + 1) * n == b + n;
      CleanCutsFrom(out, n, b + n, j + 1);
      assert CleanCut(out, j * n) && (forall k: nat :: k >= j + 1 ==> CleanCut(out, k * n)) ==>
        forall k: nat :: k >= j ==> CleanCut(out, k * n);
    } else {
      forall k: nat | k >= j ensures CleanCut(out, k * n) {
        Multiples(j, k, n);
      }
    }
  }

  lemma Multiples(j: nat, k: nat, n: nat)
    requires j <= k
    ensures j * n <= k * n
  {
  }

  ghost function Members(out: seq<Record>): set<Record> {
    set r | r in out
  }

  lemma FrontOf(out: seq<Record>, b: nat)
    requires NewerFirst(out) && b <= |out|
    ensures NewerFirst(out[..b]) && Lists(out[..b], Members(out[..b])) && |Members(out[..b])| == b
  {
    LengthOf(out[..b], Members(out[..b]));
  }

  // Where no tie is cut, every order of the rows puts the same ones in front.
  lemma SameFront(x: seq<Record>, y: seq<Record>, recs: set<Record>, b: nat)
    requires NewerFirst(x) && Lists(x, recs) && NewerFirst(y) && Lists(y, recs) && b <= |x| && CleanCut(x, b)
    ensures |x| == |y| && Members(y[..b]) == Members(x[..b])
  {
    LengthOf(x, recs);
    LengthOf(y, recs);
    FrontOf(x, b);
    FrontOf(y, b);
    if 0 < b < |x| {
      FrontIsNewer(x, b);
      forall i | 0 <= i < b ensures y[i] in x[..b] {
        if y[i] !in x[..b] {
          NewerStandBefore(x, y, recs, b, i);
          FrontOf(y, i);
          Fits(Members(x[..b]), Members(y[..i]));
        }
      }
      Fills(Members(y[..b]), Members(x[..b]));
    } else if b == |x| {
      assert x[..b] == x && y[..b] == y;
      assert Members(x) == recs == Members(y);
    }
  }

  // All rows before the cut are strictly newer than all after it.
  lemma FrontIsNewer(x: seq<Record>, b: nat)
    requires NewerFirst(x) && 0 < b < |x| && CleanCut(x, b)
    ensures forall i, j :: 0 <= i < b <= j < |x| ==> !LexLe(x[i].created, x[j].created)
  {
    forall i, j | 0 <= i < b <= j < |x| ensures !LexLe(x[i].created, x[j].created) {
      LexTotal(x[i].created, x[i].created);
      LexTotal(x[j].created, x[j].created);
      if LexLe(x[i].created, x[j].created) {
        Squeezed(x[i].created, x[b - 1].created, x[b].created, x[j].created);
      }
    }
  }

  lemma Squeezed(first: string, last: string, next: string, late: string)
    requires LexLe(late, next) && LexLe(next, last) && LexLe(last, first) && LexLe(first, late)
    ensures last == next
  {
    LexTransitive(last, first, late);
    LexTransitive(last, late, next);
    LexTotal(last, next);
  }

  // In another order, the rows before the cut all stand before any row from behind it.
  lemma NewerStandBefore(x: seq<Record>, y: seq<Record>, recs: set<Record>, b: nat, i: nat)
    requires NewerFirst(x) && Lists(x, recs) && NewerFirst(y) && Lists(y, recs) && 0 < b < |x| && i < |y| && y[i] !in x[..b]
    requires forall k, j :: 0 <= k < b <= j < |x| ==> !LexLe(x[k].created, x[j].created)
    ensures Members(x[..b]) <= Members(y[..i])
  {
    assert y[i] in x;
    var j :| 0 <= j < |x| && x[j] == y[i];
    forall r | r in x[..b] ensures r in y[..i] {
      var k :| 0 <= k < b && x[k] == r;
      assert r in y;
      var m :| 0 <= m < |y| && y[m] == r;
      LexTotal(y[i].created, y[i].created);
    }
  }

  lemma Fits<T>(a: set<T>, b: set<T>)
    requires a <= b
    ensures |a| <= |b|
  {
    assert b == a + (b - a);
  }

  lemma Fills<T>(a: set<T>, b: set<T>)
    requires a <= b && |a| == |b|
    ensures a == b
  {
    assert b == a + (b - a);
  }

  // What the client has at a clean boundary: the right rows, in some right order.
  ghost predicate Caught(seen: seq<Record>, out: seq<Record>) {
    |seen| <= |out| && NewerFirst(seen) && Members(seen) == Members(out[..|seen|])
  }

  lemma CaughtUp(seen: seq<Record>, out: seq<Record>, y: seq<Record>, recs: set<Record>, b: nat)
    requires NewerFirst(out) && Lists(out, recs) && NewerFirst(y) && Lists(y, recs) && Caught(seen, out)
    requires |seen| <= b <= |out| && CleanCut(out, |seen|) && CleanCut(out, b) && |y| == |out|
    ensures Caught(seen + y[|seen|..b], out)
  {
    var k := |seen|;
    SameFront(out, y, recs, k);
    SameFront(out, y, recs, b);
    var more := y[k..b];
    forall i, j | 0 <= i < j < |seen + more|
      ensures LexLe((seen + more)[j].created, (seen + more)[i].created) && (seen + more)[i] != (seen + more)[j]
    {
      if i < k <= j {
        assert seen[i] in Members(y[..k]);
        var m :| 0 <= m < k && y[m] == seen[i];
      }
    }
    assert y[..b] == y[..k] + more;
    forall r ensures r in seen + more <==> r in y[..b] {
      assert r in seen <==> r in Members(seen);
      assert r in y[..k] <==> r in Members(y[..k]);
    }
    assert Members(seen + more) == Members(y[..b]);
  }

  // One more page, in whatever order it was cut, and the client still has the right rows.
  lemma OneMorePage(rows: Rows, q: Query, seen: seq<Record>, page: seq<Record>, out: seq<Record>)
    requires Returns(rows, q.(offset := |seen|), page) && page != [] && NewerFirst(out) && Lists(out, Matching(rows, q))
    requires Caught(seen, out) && CleanCut(out, |seen|) && CleanCut(out, |seen| + |page|)
    ensures Caught(seen + page, out)
  {
    var y := OrderOf(rows, q, |seen|, page);
    LengthOf(y, Matching(rows, q));
    LengthOf(out, Matching(rows, q));
    var b := |seen| + |page|;
    assert page == y[|seen|..b];
    CaughtUp(seen, out, y, Matching(rows, q), b);
  }

  lemma NextBoundary(out: seq<Record>, n: nat, from: nat, rowsOnPage: nat)
    requires n >= 1 && from < |out| && CleanCuts(out, n, from)
    requires from + rowsOnPage == |out| || rowsOnPage == n
    ensures CleanCut(out, from) && CleanCut(out, from + rowsOnPage) && CleanCuts(out, n, from + rowsOnPage)
  {
    CleanAtEnd(out, n, |out|);
  }

  // The order that the database picked for a page
  lemma OrderOf(rows: Rows, q: Query, offset: nat, page: seq<Record>) returns (y: seq<Record>)
    requires Returns(rows, q.(offset := offset), page)
    ensures NewerFirst(y) && Lists(y, Matching(rows, q)) && Cut(y, ClampLimit(q.limit), offset, page)
  {
    var at := q.(offset := offset);
    MatchingIgnoresPage(rows, q, q.limit, offset);
    y :| NewerFirst(y) && Lists(y, Matching(rows, at)) && page == Page(y, at.limit, at.offset);
    if offset <= |y| {
      PageEnd(y, q.limit, offset);
    }
  }

  ghost predicate Cut(y: seq<Record>, n: nat, offset: nat, page: seq<Record>) {
    if page == [] then offset >= |y|
    else
      && offset + |page| <= |y| && page == y[offset..offset + |page|]
      && (offset + |page| == |y| || |page| == n)
  }

  lemma PageEnd<T>(y: seq<T>, limit: int, k: nat)
    requires k <= |y|
    ensures var page := Page(y, limit, k);
      if page == [] then k == |y|
      else k < |y| && page == y[k..k + |page|] && (k + |page| == |y| || k + |page| == k + ClampLimit(limit))
  {
  }

  lemma LastPage(rows: Rows, q: Query, out: seq<Record>, seen: seq<Record>)
    requires Returns(rows, q.(offset := |seen|), []) && NewerFirst(out) && Lists(out, Matching(rows, q)) && Caught(seen, out)
    ensures Complete(seen, Matching(rows, q))
  {
    LengthOf(out, Matching(rows, q));
    OnePage(rows, q, |seen|, []);
    assert out[..|seen|] == out;
    AllListed(seen, out, Matching(rows, q));
  }

  lemma NextPage(rows: Rows, q: Query, out: seq<Record>, seen: seq<Record>, page: seq<Record>)
    requires Returns(rows, q.(offset := |seen|), page) && page != [] && NewerFirst(out) && Lists(out, Matching(rows, q))
    requires Caught(seen, out) && CleanCuts(out, ClampLimit(q.limit), |seen|)
    ensures Caught(seen + page, out) && CleanCuts(out, ClampLimit(q.limit), |seen + page|)
  {
    LengthOf(out, Matching(rows, q));
    PageBoundary(rows, q, out, seen, page);
    OneMorePage(rows, q, seen, page, out);
  }

  lemma PageBoundary(rows: Rows, q: Query, out: seq<Record>, seen: seq<Record>, page: seq<Record>)
    requires Returns(rows, q.(offset := |seen|), page) && page != [] && |out| == |Matching(rows, q)|
    requires |seen| <= |out| && CleanCuts(out, ClampLimit(q.limit), |seen|)
    ensures CleanCut(out, |seen|) && CleanCut(out, |seen| + |page|) && CleanCuts(out, ClampLimit(q.limit), |seen + page|)
  {
    var n := ClampLimit(q.limit);
    OnePage(rows, q, |seen|, page);
    assert |seen + page| == |seen| + |page|;
    NextBoundary(out, n, |seen|, |page|);
  }

  lemma {:induction false} CleanCrawl(
    rows: Rows, q: Query, out: seq<Record>, seen: seq<Record>, pages: seq<seq<Record>>, all: seq<Record>)
    requires Crawls(rows, q, seen, pages, all) && NewerFirst(out) && Lists(out, Matching(rows, q))
    requires Caught(seen, out) && CleanCuts(out, ClampLimit(q.limit), |seen|)
    ensures Complete(all, Matching(rows, q))
    decreases |pages|
  {
    if pages[0] == [] {
      LastPage(rows, q, out, seen);
    } else {
      NextPage(rows, q, out, seen, pages[0]);
      CleanCrawl(rows, q, out, seen + pages[0], pages[1..], all);
    }
  }

  lemma CleanAtEnd(out: seq<Record>, n: nat, b: nat)
    requires n >= 1 && b >= |out|
    ensures CleanCuts(out, n, b)
  {
  }

  lemma AllListed(all: seq<Record>, out: seq<Record>, recs: set<Record>)
    requires NewerFirst(all) && Lists(out, recs) && Members(all) == Members(out)
    ensures Complete(all, recs)
  {
    forall r ensures r in all <==> r in recs {
      assert r in all <==> r in Members(all);
      assert r in out <==> r in Members(out);
    }
  }

  // Two neighbours of one timestamp can change places.
  function Swapped(out: seq<Record>, i: nat): seq<Record>
    requires i + 1 < |out|
  {
    out[i := out[i + 1]][i + 1 := out[i]]
  }

  lemma SwappedListing(out: seq<Record>, i: nat, recs: set<Record>)
    requires NewerFirst(out) && Lists(out, recs) && i + 1 < |out| && out[i].created == out[i + 1].created
    ensures NewerFirst(Swapped(out, i)) && Lists(Swapped(out, i), recs)
  {
    var other := Swapped(out, i);
    forall r ensures r in other <==> r in out {
      if r in out {
        var k :| 0 <= k < |out| && out[k] == r;
        assert other[if k == i then i + 1 else if k == i + 1 then i else k] == r;
      }
    }
  }

  // At a boundary between two tied rows the client can be shown the first of the two again.
  lemma CrawlAtTie(rows: Rows, q: Query, out: seq<Record>, b: nat) returns (pages: seq<seq<Record>>)
    requires NewerFirst(out) && Lists(out, Matching(rows, q)) && 0 < b < |out| && !CleanCut(out, b)
    ensures Crawls(rows, q, out[..b], pages, out[b := out[b - 1]])
  {
    SwappedListing(out, b - 1, Matching(rows, q));
    var n, found := CrawlByOther(rows, q, out, Swapped(out, b - 1), b);
    AfterRepeat(out, b, n);
    pages := found;
  }

  // One page cut from another listing, and the rest from this one
  lemma CrawlByOther(rows: Rows, q: Query, out: seq<Record>, other: seq<Record>, b: nat)
    returns (n: nat, pages: seq<seq<Record>>)
    requires NewerFirst(out) && Lists(out, Matching(rows, q)) && NewerFirst(other) && Lists(other, Matching(rows, q))
    requires b < |out| == |other|
    ensures n >= 1 && b + n <= |out| && Crawls(rows, q, out[..b], pages, (out[..b] + other[b..b + n]) + out[b + n..])
  {
    var seen := out[..b];
    var page := PageFrom(rows, q, other, |seen|);
    n := |page|;
    var k := |seen + page|;
    pages := CrawlVia(rows, q, out, seen, page, k);
    assert k == b + n && page == other[b..b + n];
  }

  lemma CrawlVia(rows: Rows, q: Query, out: seq<Record>, seen: seq<Record>, page: seq<Record>, k: nat)
    returns (pages: seq<seq<Record>>)
    requires NewerFirst(out) && Lists(out, Matching(rows, q))
    requires Returns(rows, q.(offset := |seen|), page) && page != [] && k == |seen + page| <= |out|
    ensures Crawls(rows, q, seen, pages, (seen + page) + out[k..])
  {
    var rest := CrawlOn(rows, q, out, seen + page);
    CrawlFirst(rows, q, seen, page, rest, (seen + page) + out[k..]);
    pages := [page] + rest;
  }

  // The database may cut the page from any listing.
  lemma PageFrom(rows: Rows, q: Query, out: seq<Record>, b: nat) returns (page: seq<Record>)
    requires NewerFirst(out) && Lists(out, Matching(rows, q)) && b < |out|
    ensures Returns(rows, q.(offset := b), page) && page != [] && b + |page| <= |out| && page == out[b..b + |page|]
    ensures |page| == ClampLimit(q.limit) || b + |page| == |out|
  {
    MatchingIgnoresPage(rows, q, q.limit, b);
    page := Page(out, q.limit, b);
    assert Returns(rows, q.(offset := b), page);
  }

  lemma CrawlFirst(rows: Rows, q: Query, seen: seq<Record>, page: seq<Record>, rest: seq<seq<Record>>, all: seq<Record>)
    requires Returns(rows, q.(offset := |seen|), page) && page != [] && Crawls(rows, q, seen + page, rest, all)
    ensures Crawls(rows, q, seen, [page] + rest, all)
  {
  }

  lemma AfterRepeat(out: seq<Record>, b: nat, n: nat)
    requires 0 < b && n >= 1 && b + n <= |out|
    ensures (out[..b] + Swapped(out, b - 1)[b..b + n]) + out[b + n..] == out[b := out[b - 1]]
  {
  }

  // Up to such a boundary it may have been shown everything in one order.
  lemma {:induction false} CrawlToTie(rows: Rows, q: Query, out: seq<Record>, p: nat)
    returns (pages: seq<seq<Record>>, all: seq<Record>)
    requires NewerFirst(out) && Lists(out, Matching(rows, q)) && p <= |out| && !CleanCuts(out, ClampLimit(q.limit), p)
    ensures Crawls(rows, q, out[..p], pages, all) && !Complete(all, Matching(rows, q))
    decreases |out| - p
  {
    if !CleanCut(out, p) {
      pages := CrawlAtTie(rows, q, out, p);
      all := out[p := out[p - 1]];
      assert all[p - 1] == all[p];
    } else {
      var n := ClampLimit(q.limit);
      TieAhead(out, n, p);
      var page := PageFrom(rows, q, out, p);
      FrontGrows(out, p, page, n);
      var rest, end := CrawlToTie(rows, q, out, p + n);
      CrawlFirst(rows, q, out[..p], page, rest, end);
      pages, all := [page] + rest, end;
    }
  }

  lemma FrontGrows(out: seq<Record>, p: nat, page: seq<Record>, n: nat)
    requires p + n <= |out| && page == out[p..p + n]
    ensures out[..p] + page == out[..p + n]
  {
  }

  lemma TieAhead(out: seq<Record>, n: nat, p: nat)
    requires n >= 1 && !CleanCuts(out, n, p) && CleanCut(out, p)
    ensures p + n < |out| && !CleanCuts(out, n, p + n)
  {
  }

  // The other of the two is then never seen.
  lemma TieLosesRow(rows: Rows, q: Query, limit: int) returns (pages: seq<seq<Record>>, all: seq<Record>)
    requires !CleanCuts(SortDesc(Matching(rows, q)), ClampLimit(limit), 0)
    ensures Crawls(rows, q.(limit := limit), [], pages, all) && !Complete(all, Matching(rows, q))
  {
    var out := SortDesc(Matching(rows, q));
    SortedDesc(Matching(rows, q));
    MatchingIgnoresPage(rows, q, limit, q.offset);
    assert out[..0] == [];
    pages, all := CrawlToTie(rows, q.(limit := limit), out, 0);
  }

  // Whatever order the database picks for each page, a client that asks for limit sees everything.
  ghost predicate AlwaysComplete(rows: Rows, q: Query, limit: int) {
    forall pages, all :: Crawls(rows, q.(limit := limit), [], pages, all) ==> Complete(all, Matching(rows, q))
  }

  // No page boundary, with pages of n rows, falls between two rows created at the same time.
  ghost predicate NoTieCut(out: seq<Record>, n: nat) {
    forall k: nat :: CleanCut(out, k * n)
  }

  // Paging is complete, exactly: with this limit the client sees every matching row once, newest first, if and only
  // if no two rows created at the same time fall on either side of a page boundary.
  lemma PagingExact(rows: Rows, q: Query, limit: int)
    ensures AlwaysComplete(rows, q, limit)
       <==> NoTieCut(SortDesc(Matching(rows, q)), ClampLimit(limit))
  {
    var out := SortDesc(Matching(rows, q));
    SortedDesc(Matching(rows, q));
    CleanCutsFrom(out, ClampLimit(limit), 0, 0);
    if CleanCuts(out, ClampLimit(limit), 0) {
      MatchingIgnoresPage(rows, q, limit, q.offset);
      forall pages, all | Crawls(rows, q.(limit := limit), [], pages, all) ensures Complete(all, Matching(rows, q)) {
        assert Members([]) == Members(out[..0]);
        CleanCrawl(rows, q.(limit := limit), out, [], pages, all);
      }
    } else {
      var pages, all := TieLosesRow(rows, q, limit);
    }
  }

  // Some two neighbours of the listing are tied if any two rows are.
  lemma TiedNeighbours(out: seq<Record>, recs: set<Record>) returns (i: nat)
    requires NewerFirst(out) && Lists(out, recs) && !DistinctCreated(recs)
    ensures i + 1 < |out| && out[i].created == out[i + 1].created
  {
    var a, b :| a in recs && b in recs && a.created == b.created && a != b;
    var j :| 0 <= j < |out| && out[j] == a;
    var k :| 0 <= k < |out| && out[k] == b;
    i := if j < k then j else k;
    LexTotal(out[i].created, out[i + 1].created);
  }

  // And with every limit, if and only if no two matching rows were created at the same time at all.
  lemma PagingExactForAll(rows: Rows, q: Query)
    ensures (forall limit :: AlwaysComplete(rows, q, limit)) <==> DistinctCreated(Matching(rows, q))
  {
    if DistinctCreated(Matching(rows, q)) {
      forall limit ensures AlwaysComplete(rows, q, limit) {
        SortedDesc(Matching(rows, q));
        DistinctCuts(SortDesc(Matching(rows, q)), Matching(rows, q), ClampLimit(limit));
        PagingExact(rows, q, limit);
      }
    } else {
      TieBreaksSingles(rows, q);
    }
  }

  lemma TieBreaksSingles(rows: Rows, q: Query)
    requires !DistinctCreated(Matching(rows, q))
    ensures !AlwaysComplete(rows, q, 1)
  {
    SortedDesc(Matching(rows, q));
    TieCutSomewhere(SortDesc(Matching(rows, q)), Matching(rows, q));
    PagingExact(rows, q, 1);
  }

  lemma TieCutSomewhere(out: seq<Record>, recs: set<Record>)
    requires NewerFirst(out) && Lists(out, recs) && !DistinctCreated(recs)
    ensures !NoTieCut(out, 1)
  {
    var i := TiedNeighbours(out, recs);
    SinglesCutAnywhere(out, i + 1);
  }

  lemma DistinctCuts(out: seq<Record>, recs: set<Record>, n: nat)
    requires NewerFirst(out) && Lists(out, recs) && DistinctCreated(recs)
    ensures NoTieCut(out, n)
  {
    forall k: nat ensures CleanCut(out, k * n) {
      var b := k * n;
      if 0 < b < |out| {
        assert out[b - 1] in recs && out[b] in recs;
      }
    }
  }

  // With one row a page, every row ends a page.
  lemma SinglesCutAnywhere(out: seq<Record>, b: nat)
    requires !CleanCut(out, b)
    ensures !NoTieCut(out, 1)
  {
    assert b * 1 == b && !CleanCut(out, b * 1);
  }
}
