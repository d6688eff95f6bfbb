// Whether a session's directory lies under the configured base directory: exactly which user ids keep it there.
module SessionTree {
  import opened Options
  import opened Text
  import opened Paths
  import opened SessionDirs

  // The names from the root down to an absolute path
  function Elements(p: string): seq<string> {
    PushAll(true, [], Split(p, '/'))
  }

  ghost predicate Inside(base: string, dir: string) {
    Elements(base) <= Elements(dir)
  }

  // A walk through these elements, begun depth levels down, never goes above where it began.
  predicate NeverAbove(es: seq<string>, depth: nat) {
    if es == [] then true
    else if es[0] == "" || es[0] == "." then NeverAbove(es[1..], depth)
    else if es[0] == ".." then depth > 0 && NeverAbove(es[1..], depth - 1)
    else NeverAbove(es[1..], depth + 1)
  }

  // ----- the directory's elements -----

  lemma ElementsBelow(front: string, rest: string)
    requires Rooted(front)
    ensures Elements(front + "/" + rest) == PushAll(true, Elements(front), Split(rest, '/'))
  {
    SplitAt(front, '/', rest);
    PushAllAppend(true, [], Split(front, '/'), Split(rest, '/'));
  }

  lemma ElementsOfClean(p: string)
    requires Rooted(p)
    ensures Elements(Clean(p)) == Elements(p) && Rooted(Clean(p))
  {
    KeptNormal(p);
    RenderParses(true, PushAll(true, [], Split(p, '/')));
  }

  // One element does the same to a path below top as to the path by itself.
  lemma PushBelow(top: seq<string>, kept: seq<string>, e: string)
    requires Normal(false, kept) && '/' !in e
    ensures PushAll(true, top, PushElement(false, kept, e)) == PushElement(true, PushAll(true, top, kept), e)
  {
    if e == ".." && kept != [] && kept[|kept| - 1] != ".." {
      var front, last := kept[..|kept| - 1], kept[|kept| - 1];
      assert kept == front + [last];
      PushAllAppend(true, top, front, [last]);
      assert [last][1..] == [];
    } else if e != "" && e != "." {
      PushAllAppend(true, top, kept, [e]);
      assert [e][1..] == [];
    }
  }

  lemma {:induction false} PushAllBelow(top: seq<string>, kept: seq<string>, es: seq<string>)
    requires Normal(false, kept) && forall i :: 0 <= i < |es| ==> '/' !in es[i]
    ensures PushAll(true, top, PushAll(false, kept, es)) == PushAll(true, PushAll(true, top, kept), es)
    decreases |es|
  {
    if es != [] {
      PushBelow(top, kept, es[0]);
      var next := PushElement(false, kept, es[0]);
      PushAllNormal(false, kept, [es[0]]);
      assert PushAll(false, kept, [es[0]]) == PushAll(false, next, [es[0]][1..]) == next;
      PushAllBelow(top, next, es[1..]);
    }
  }

  // Cleaning a relative path first makes no difference.
  lemma ElementsOfCleanBelow(cwd: string, p: string)
    requires Rooted(cwd) && !Rooted(p)
    ensures Elements(cwd + "/" + Clean(p)) == PushAll(true, Elements(cwd), Split(p, '/'))
  {
    var kept := PushAll(false, [], Split(p, '/'));
    ElementsBelow(cwd, Clean(p));
    KeptNormal(p);
    SplitFree(p, '/');
    PushAllBelow(Elements(cwd), [], Split(p, '/'));
    if kept == [] {
      SplitNone(".", '/');
      assert ["."][1..] == [];
    } else {
      JoinedParses(false, kept);
    }
  }

  lemma ElementsOfAbs(cwd: string, p: string)
    requires Rooted(cwd)
    ensures Rooted(Abs(cwd, p)) && Elements(Abs(cwd, p)) == PushAll(true, if Rooted(p) then [] else Elements(cwd), Split(p, '/'))
  {
    if Rooted(p) {
      ElementsOfClean(p);
    } else {
      ElementsOfClean(cwd + "/" + p);
      ElementsBelow(cwd, p);
    }
  }

  lemma AbsOfClean(cwd: string, p: string)
    requires Rooted(cwd)
    ensures Elements(Abs(cwd, Clean(p))) == Elements(Abs(cwd, p))
  {
    ElementsOfAbs(cwd, p);
    CleanIdempotent(p);
    if Rooted(p) {
      ElementsOfClean(p);
    } else {
      ElementsOfClean(cwd + "/" + Clean(p));
      ElementsOfCleanBelow(cwd, p);
    }
  }

  // Below the base: the user's elements, the slug, the id.
  lemma SessionDirElements(cfg: Config, user: string, sid: string, resolved: string)
    requires ConfigOk(cfg) && cfg.sessionsBaseDir != "" && Name(sid)
    ensures Elements(SessionDir(cfg, user, sid, resolved))
         == PushAll(true, Elements(Abs(cfg.cwd, cfg.sessionsBaseDir)), Split(user, '/')) + [EncodeCwdSlug(resolved), sid]
  {
    var base, slug := cfg.sessionsBaseDir, EncodeCwdSlug(resolved);
    var p := base + "/" + (user + "/" + (slug + "/" + sid));
    JoinFour(base, user, slug, sid);
    AbsOfClean(cfg.cwd, p);
    ElementsOfAbs(cfg.cwd, p);
    ElementsOfAbs(cfg.cwd, base);
    SplitAt(base, '/', user + "/" + (slug + "/" + sid));
    SplitAt(user, '/', slug + "/" + sid);
    SplitAt(slug, '/', sid);
    SplitNone(slug, '/');
    SplitNone(sid, '/');
    var top := if Rooted(base) then [] else Elements(cfg.cwd);
    PushAllAppend(true, top, Split(base, '/'), Split(user, '/') + ([slug] + [sid]));
    var b := PushAll(true, top, Split(base, '/'));
    PushAllAppend(true, b, Split(user, '/'), [slug] + [sid]);
    PushTwo(PushAll(true, b, Split(user, '/')), slug, sid);
  }

  lemma PushTwo(kept: seq<string>, a: string, b: string)
    requires Name(a) && Name(b)
    ensures PushAll(true, kept, [a] + [b]) == kept + [a, b]
  {
    assert ([a] + [b])[1..] == [b] && [b][1..] == [];
    assert PushAll(true, kept, [a] + [b]) == PushAll(true, kept + [a], [b]);
    assert PushAll(true, kept + [a], [b]) == kept + [a] + [b];
  }

  lemma JoinFour(base: string, user: string, slug: string, sid: string)
    requires base != ""
    ensures JoinPath([base, user, slug, sid]) == Clean(base + "/" + (user + "/" + (slug + "/" + sid)))
  {
    var all := [base, user, slug, sid];
    assert all[1..] == [user, slug, sid] && all[1..][1..] == [slug, sid] && all[1..][1..][1..] == [sid];
    Assoc(base, "/", user + "/" + (slug + "/" + sid));
    assert Join([sid], '/') == sid;
    assert Join([slug, sid], '/') == slug + "/" + sid;
    assert Join([user, slug, sid], '/') == user + "/" + (slug + "/" + sid);
  }

  // ----- staying inside -----

  lemma {:induction false} StaysBelow(top: seq<string>, extra: seq<string>, es: seq<string>)
    requires NeverAbove(es, |extra|) && (forall i :: 0 <= i < |extra| ==> extra[i] != "..")
    ensures top <= PushAll(true, top + extra, es)
    decreases |es|
  {
    if es != [] {
      var e := es[0];
      if e == "" || e == "." {
        StaysBelow(top, extra, es[1..]);
      } else if e == ".." {
        assert (top + extra)[..|top + extra| - 1] == top + extra[..|extra| - 1];
        StaysBelow(top, extra[..|extra| - 1], es[1..]);
      } else {
        assert (top + extra) + [e] == top + (extra + [e]);
        StaysBelow(top, extra + [e], es[1..]);
      }
    }
  }

  // A name that occurs neither in what is kept nor in what comes does not turn up.
  lemma {:induction false} NeverTurnsUp(kept: seq<string>, es: seq<string>, z: string)
    requires z !in kept && z !in es
    ensures z !in PushAll(true, kept, es)
    decreases |es|
  {
    if es != [] {
      NeverTurnsUp(PushElement(true, kept, es[0]), es[1..], z);
    }
  }

  // Once the walk is above, the name it began under is gone for good.
  lemma {:induction false} LeavesTop(z: string, extra: seq<string>, es: seq<string>)
    requires !NeverAbove(es, |extra|) && z !in es && z !in extra && z != ".." && forall i :: 0 <= i < |extra| ==> extra[i] != ".."
    ensures z !in PushAll(true, [z] + extra, es)
    decreases |es|
  {
    var e := es[0];
    if e == "" || e == "." {
      LeavesTop(z, extra, es[1..]);
    } else if e == ".." {
      if extra == [] {
        assert [z] + extra == [z];
        NeverTurnsUp([], es[1..], z);
      } else {
        assert ([z] + extra)[..|[z] + extra| - 1] == [z] + extra[..|extra| - 1];
        LeavesTop(z, extra[..|extra| - 1], es[1..]);
      }
    } else {
      assert ([z] + extra) + [e] == [z] + (extra + [e]);
      LeavesTop(z, extra + [e], es[1..]);
    }
  }

  function Xs(n: nat): (s: string)
    ensures |s| == n + 1 && s[0] == 'x' && Name(s)
  {
    if n == 0 then "x" else "x" + Xs(n - 1)
  }

  lemma {:induction false} PiecesFit(s: string, d: char)
    ensures forall i :: 0 <= i < |Split(s, d)| ==> |Split(s, d)[i]| <= |s|
  {
    if s != "" {
      PiecesFit(s[1..], d);
    }
  }

  // A base directory that a climbing user id leaves
  lemma LeftBehind(cfg: Config, user: string, sid: string, resolved: string) returns (base: string)
    requires ConfigOk(cfg) && Name(sid) && !NeverAbove(Split(user, '/'), 0)
    ensures base != "" && !Inside(Abs(cfg.cwd, base), SessionDir(cfg.(sessionsBaseDir := base), user, sid, resolved))
  {
    var slug := EncodeCwdSlug(resolved);
    var z := Xs(|user| + |slug| + |sid|);
    base := "/" + z;
    ElementsOfAbs(cfg.cwd, base);
    SplitAt("", '/', z);
    SplitNone(z, '/');
    assert "" + "/" + z == base;
    OnlyName(z);
    SessionDirElements(cfg.(sessionsBaseDir := base), user, sid, resolved);
    PiecesFit(user, '/');
    assert [z] + [] == [z];
    LeavesTop(z, [], Split(user, '/'));
    var kept := PushAll(true, [z], Split(user, '/'));
    assert z !in kept + [slug, sid];
    assert Elements(Abs(cfg.cwd, base))[0] == z;
  }

  lemma OnlyName(z: string)
    requires Name(z)
    ensures PushAll(true, [], [""] + [z]) == [z]
  {
    assert ([""] + [z])[1..] == [z] && [z][1..] == [];
    assert PushAll(true, [], [""] + [z]) == PushAll(true, [], [z]) == [] + [z];
  }

  // A session's directory lies under the base directory, whichever that is, if and only if the user id read as a path
  // never goes above where it starts.
  lemma InsideExactly(cfg: Config, user: string, sid: string, resolved: string)
    requires ConfigOk(cfg) && Name(sid)
    ensures (forall base :: base != "" ==>
               Inside(Abs(cfg.cwd, base), SessionDir(cfg.(sessionsBaseDir := base), user, sid, resolved)))
       <==> NeverAbove(Split(user, '/'), 0)
  {
    if NeverAbove(Split(user, '/'), 0) {
      forall base | base != "" ensures Inside(Abs(cfg.cwd, base), SessionDir(cfg.(sessionsBaseDir := base), user, sid, resolved)) {
        var b := Elements(Abs(cfg.cwd, base));
        SessionDirElements(cfg.(sessionsBaseDir := base), user, sid, resolved);
        assert b + [] == b;
        StaysBelow(b, [], Split(user, '/'));
      }
    } else {
      var base := LeftBehind(cfg, user, sid, resolved);
    }
  }

  // An id without separators that is not ".." always does.
  lemma PlainUserInside(user: string)
    requires '/' !in user
    ensures NeverAbove(Split(user, '/'), 0) <==> user != ".."
  {
    SplitNone(user, '/');
    assert [user][1..] == [];
  }
}
