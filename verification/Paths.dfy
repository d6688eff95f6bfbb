// path/filepath on Unix: Clean, Join and Abs.
module Paths {
  import opened Text

  predicate Rooted(p: string) {
    p != "" && p[0] == '/'
  }

  // One path element against the elements kept so far.
  function PushElement(rooted: bool, kept: seq<string>, e: string): seq<string> {
    if e == "" || e == "." then kept
    else if e == ".." then
      if kept != [] && kept[|kept| - 1] != ".." then kept[..|kept| - 1]
      else if rooted then kept
      else kept + [".."]
    else kept + [e]
  }

  function PushAll(rooted: bool, kept: seq<string>, es: seq<string>): seq<string>
    decreases |es|
  {
    if es == [] then kept else PushAll(rooted, PushElement(rooted, kept, es[0]), es[1..])
  }

  function Render(rooted: bool, kept: seq<string>): string {
    if rooted then "/" + Join(kept, '/') else if kept == [] then "." else Join(kept, '/')
  }

  function Clean(p: string): string {
    Render(Rooted(p), PushAll(Rooted(p), [], Split(p, '/')))
  }

  // filepath.Join: leading empty elements are dropped, the rest joined and cleaned.
  function JoinPath(elems: seq<string>): string {
    if elems == [] then "" else if elems[0] == "" then JoinPath(elems[1..]) else Clean(Join(elems, '/'))
  }

  // filepath.Abs with the process's working directory, which is itself absolute
  function Abs(cwd: string, p: string): string {
    if Rooted(p) then Clean(p) else Clean(cwd + "/" + p)
  }

  // What Clean keeps: ordinary names, and ".." only in front of a relative path.
  predicate Name(e: string) {
    e != "" && e != "." && e != ".." && '/' !in e
  }

  predicate Normal(rooted: bool, kept: seq<string>) {
    forall i :: 0 <= i < |kept| ==>
      Name(kept[i]) || (kept[i] == ".." && !rooted && forall j :: 0 <= j < i ==> kept[j] == "..")
  }

  lemma {:induction false} PushAllNormal(rooted: bool, kept: seq<string>, es: seq<string>)
    requires Normal(rooted, kept) && forall i :: 0 <= i < |es| ==> '/' !in es[i]
    ensures Normal(rooted, PushAll(rooted, kept, es))
    decreases |es|
  {
    if es != [] {
      var next := PushElement(rooted, kept, es[0]);
      assert Normal(rooted, next) by {
        if es[0] == ".." && !rooted && (kept == [] || kept[|kept| - 1] == "..") {
          assert forall j :: 0 <= j < |kept| ==> kept[j] == "..";
        }
      }
      PushAllNormal(rooted, next, es[1..]);
    }
  }

  lemma {:induction false} PushNormal(rooted: bool, kept: seq<string>, es: seq<string>)
    requires Normal(rooted, kept + es)
    ensures PushAll(rooted, kept, es) == kept + es
    decreases |es|
  {
    if es == [] {
      assert kept + es == kept;
    } else {
      var e := es[0];
      assert (kept + es)[|kept|] == e;
      assert kept != [] ==> (kept + es)[|kept| - 1] == kept[|kept| - 1];
      assert e == ".." && kept != [] ==> kept[|kept| - 1] == "..";
      assert PushElement(rooted, kept, e) == kept + [e];
      assert (kept + [e]) + es[1..] == kept + es;
      PushNormal(rooted, kept + [e], es[1..]);
    }
  }

  lemma {:induction false} PushAllAppend(rooted: bool, kept: seq<string>, a: seq<string>, b: seq<string>)
    ensures PushAll(rooted, kept, a + b) == PushAll(rooted, PushAll(rooted, kept, a), b)
    decreases |a|
  {
    if a == [] {
      assert a + b == b;
    } else {
      assert (a + b)[1..] == a[1..] + b;
      PushAllAppend(rooted, PushElement(rooted, kept, a[0]), a[1..], b);
    }
  }

  // Reading back a rendered path: the same elements and the same root.
  lemma RenderParses(rooted: bool, kept: seq<string>)
    requires Normal(rooted, kept)
    ensures Rooted(Render(rooted, kept)) == rooted
    ensures PushAll(rooted, [], Split(Render(rooted, kept), '/')) == kept
    ensures kept != [] ==> LastElement(Render(rooted, kept)) == kept[|kept| - 1]
  {
    if kept == [] {
      EmptyRenderParses(rooted);
    } else {
      JoinStart(kept);
      JoinedParses(rooted, kept);
      if rooted {
        LeadingSlash(Join(kept, '/'));
      }
    }
  }

  lemma JoinedParses(rooted: bool, kept: seq<string>)
    requires Normal(rooted, kept) && kept != []
    ensures Split(Join(kept, '/'), '/') == kept && PushAll(rooted, [], kept) == kept
  {
    SplitJoin(kept, '/');
    assert [] + kept == kept;
    PushNormal(rooted, [], kept);
  }

  lemma EmptyRenderParses(rooted: bool)
    ensures PushAll(rooted, [], Split(Render(rooted, []), '/')) == []
  {
    if rooted {
      LeadingSlash("");
      assert "/" + "" == "/";
      assert [""][1..] == [];
    } else {
      SplitNone(".", '/');
      assert ["."][1..] == [];
    }
  }

  // The empty element in front of a rooted path changes nothing.
  lemma LeadingSlash(p: string)
    ensures Split("/" + p, '/') == [""] + Split(p, '/')
    ensures PushAll(true, [], Split("/" + p, '/')) == PushAll(true, [], Split(p, '/'))
  {
    assert "/" + p == "" + "/" + p;
    SplitAt("", '/', p);
    assert ([""] + Split(p, '/'))[1..] == Split(p, '/');
  }

  lemma JoinStart(kept: seq<string>)
    requires kept != [] && kept[0] != ""
    ensures Join(kept, '/') != "" && Join(kept, '/')[0] == kept[0][0]
  {
  }

  lemma KeptNormal(p: string)
    ensures Normal(Rooted(p), PushAll(Rooted(p), [], Split(p, '/')))
  {
    SplitFree(p, '/');
    PushAllNormal(Rooted(p), [], Split(p, '/'));
  }

  lemma CleanIdempotent(p: string)
    ensures Clean(Clean(p)) == Clean(p) && Rooted(Clean(p)) == Rooted(p)
  {
    KeptNormal(p);
    RenderParses(Rooted(p), PushAll(Rooted(p), [], Split(p, '/')));
  }

  // Abs gives an absolute path and leaves it alone afterwards.
  lemma AbsIdempotent(cwd: string, p: string)
    requires Rooted(cwd)
    ensures Rooted(Abs(cwd, p)) && Abs(cwd, Abs(cwd, p)) == Abs(cwd, p)
  {
    CleanIdempotent(if Rooted(p) then p else cwd + "/" + p);
  }

  // A path that ends in an ordinary name keeps that name last.
  lemma CleanKeepsName(front: string, name: string)
    requires Name(name) && front != ""
    ensures var kept := PushAll(Rooted(front), [], Split(front, '/'));
      Clean(front + "/" + name) == Render(Rooted(front), kept + [name]) && Normal(Rooted(front), kept + [name])
  {
    var kept := PushAll(Rooted(front), [], Split(front, '/'));
    KeptNormal(front);
    SplitAt(front, '/', name);
    SplitNone(name, '/');
    PushAllAppend(Rooted(front), [], Split(front, '/'), [name]);
    assert [name][1..] == [];
    assert PushAll(Rooted(front), kept, [name]) == kept + [name];
  }

  function LastElement(p: string): string {
    Split(p, '/')[|Split(p, '/')| - 1]
  }

  lemma NameSurvivesClean(front: string, name: string)
    requires Name(name) && front != ""
    ensures LastElement(Clean(front + "/" + name)) == name && Clean(front + "/" + name) != ""
  {
    CleanKeepsName(front, name);
    var kept := PushAll(Rooted(front), [], Split(front, '/'));
    RenderParses(Rooted(front), kept + [name]);
    JoinStart(kept + [name]);
  }

  lemma {:induction false} JoinSnoc(parts: seq<string>, last: string)
    requires parts != []
    ensures Join(parts + [last], '/') == Join(parts, '/') + "/" + last
  {
    if |parts| > 1 {
      assert (parts + [last])[1..] == parts[1..] + [last];
      JoinSnoc(parts[1..], last);
    }
  }

  // So does a joined path.
  lemma {:induction false} NameSurvivesJoin(elems: seq<string>, name: string)
    requires Name(name) && exists i :: 0 <= i < |elems| && elems[i] != ""
    ensures LastElement(JoinPath(elems + [name])) == name
    ensures exists front :: front != "" && JoinPath(elems + [name]) == Clean(front + "/" + name)
  {
    if elems[0] == "" {
      assert (elems + [name])[1..] == elems[1..] + [name];
      NameSurvivesJoin(elems[1..], name);
    } else {
      JoinSnoc(elems, name);
      NameSurvivesClean(Join(elems, '/'), name);
    }
  }

  // And so does making it absolute.
  lemma NameSurvivesAbs(cwd: string, front: string, name: string)
    requires Rooted(cwd) && Name(name) && front != ""
    ensures LastElement(Abs(cwd, Clean(front + "/" + name))) == name
  {
    var p := Clean(front + "/" + name);
    CleanIdempotent(front + "/" + name);
    NameSurvivesClean(front, name);
    if !Rooted(p) {
      CleanKeepsName(front, name);
      var kept := PushAll(Rooted(front), [], Split(front, '/'));
      if kept == [] {
        assert p == name;
        NameSurvivesClean(cwd, name);
      } else {
        JoinSnoc(kept, name);
        assert p == Join(kept, '/') + "/" + name;
        assert cwd + "/" + p == (cwd + "/" + Join(kept, '/')) + "/" + name;
        NameSurvivesClean(cwd + "/" + Join(kept, '/'), name);
      }
    }
  }

  // ----- Clean never lengthens an absolute path -----

  function Cost(es: seq<string>): nat {
    if es == [] then 0 else |es[0]| + 1 + Cost(es[1..])
  }

  lemma {:induction false} CostAppend(a: seq<string>, b: seq<string>)
    ensures Cost(a + b) == Cost(a) + Cost(b)
  {
    if a == [] {
      assert a + b == b;
    } else {
      assert (a + b)[1..] == a[1..] + b;
      CostAppend(a[1..], b);
    }
  }

  lemma {:induction false} PushAllCost(rooted: bool, kept: seq<string>, es: seq<string>)
    ensures Cost(PushAll(rooted, kept, es)) <= Cost(kept) + Cost(es)
    decreases |es|
  {
    if es != [] {
      var e := es[0];
      CostAppend(kept, [e]);
      if kept != [] {
        CostAppend(kept[..|kept| - 1], kept[|kept| - 1..]);
        assert kept[..|kept| - 1] + kept[|kept| - 1..] == kept;
      }
      PushAllCost(rooted, PushElement(rooted, kept, e), es[1..]);
    }
  }

  lemma {:induction false} JoinCost(es: seq<string>)
    requires es != []
    ensures |Join(es, '/')| + 1 == Cost(es)
  {
    if |es| > 1 {
      JoinCost(es[1..]);
    }
  }

  lemma CleanNoLonger(p: string)
    requires Rooted(p)
    ensures |Clean(p)| <= |p|
  {
    var kept := PushAll(true, [], Split(p, '/'));
    assert p == "" + "/" + p[1..];
    SplitAt("", '/', p[1..]);
    var rest := Split(p[1..], '/');
    assert Split(p, '/') == [""] + rest;
    assert ([""] + rest)[1..] == rest;
    assert kept == PushAll(true, [], rest);
    PushAllCost(true, [], rest);
    JoinSplit(p[1..], '/');
    JoinCost(rest);
    if kept != [] {
      JoinCost(kept);
    }
  }
}
