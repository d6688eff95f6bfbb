// Splitting, joining and trimming of text, as done by package strings.
module Text {
  import opened Options

  // unicode.IsSpace
  predicate IsSpace(c: char) {
    || '\t' <= c <= '\r'
    || c in {' ', '\U{85}', '\U{A0}', '\U{1680}', '\U{2028}', '\U{2029}', '\U{202F}', '\U{205F}', '\U{3000}'}
    || '\U{2000}' <= c <= '\U{200A}'
  }

  predicate AllOf(s: string, p: char -> bool) {
    forall i :: 0 <= i < |s| ==> p(s[i])
  }

  function TrimLeft(s: string, p: char -> bool): string {
    if s != "" && p(s[0]) then TrimLeft(s[1..], p) else s
  }

  function TrimRight(s: string, p: char -> bool): string {
    if s != "" && p(s[|s| - 1]) then TrimRight(s[..|s| - 1], p) else s
  }

  function Trim(s: string, p: char -> bool): string {
    TrimRight(TrimLeft(s, p), p)
  }

  // strings.TrimSpace
  function TrimSpace(s: string): string {
    Trim(s, IsSpace)
  }

  // Nothing left to trim at either end.
  predicate Tight(s: string, p: char -> bool) {
    s == "" || (!p(s[0]) && !p(s[|s| - 1]))
  }

  lemma {:induction false} TrimLeftAll(w: string, s: string, p: char -> bool)
    requires AllOf(w, p)
    ensures TrimLeft(w + s, p) == TrimLeft(s, p)
  {
    if w == "" {
      assert w + s == s;
    } else {
      assert (w + s)[1..] == w[1..] + s;
      TrimLeftAll(w[1..], s, p);
    }
  }

  lemma {:induction false} TrimRightAll(s: string, w: string, p: char -> bool)
    requires AllOf(w, p)
    ensures TrimRight(s + w, p) == TrimRight(s, p)
  {
    if w == "" {
      assert s + w == s;
    } else {
      assert (s + w)[..|s + w| - 1] == s + w[..|w| - 1];
      TrimRightAll(s, w[..|w| - 1], p);
    }
  }

  // Trimming removes a margin on each side and nothing else.
  lemma {:induction false} TrimLeftMargin(s: string, p: char -> bool) returns (w: string)
    ensures s == w + TrimLeft(s, p) && AllOf(w, p)
    ensures TrimLeft(s, p) == "" || !p(TrimLeft(s, p)[0])
  {
    if s != "" && p(s[0]) {
      var v := TrimLeftMargin(s[1..], p);
      w := [s[0]] + v;
    } else {
      w := "";
    }
  }

  lemma {:induction false} TrimRightMargin(s: string, p: char -> bool) returns (w: string)
    ensures s == TrimRight(s, p) + w && AllOf(w, p)
    ensures TrimRight(s, p) == "" || !p(TrimRight(s, p)[|TrimRight(s, p)| - 1])
  {
    if s != "" && p(s[|s| - 1]) {
      var v := TrimRightMargin(s[..|s| - 1], p);
      w := v + [s[|s| - 1]];
    } else {
      w := "";
    }
  }

  lemma TrimMargins(s: string, p: char -> bool) returns (left: string, right: string)
    ensures s == left + Trim(s, p) + right && AllOf(left, p) && AllOf(right, p)
    ensures Tight(Trim(s, p), p)
  {
    left := TrimLeftMargin(s, p);
    right := TrimRightMargin(TrimLeft(s, p), p);
  }

  // Trim is the only tight text that arises by removing margins.
  lemma TrimUnique(left: string, m: string, right: string, p: char -> bool)
    requires AllOf(left, p) && AllOf(right, p) && Tight(m, p)
    ensures Trim(left + m + right, p) == m
  {
    assert left + m + right == left + (m + right);
    TrimLeftAll(left, m + right, p);
    if m == "" {
      assert m + right == right && right + "" == right && m + "" == m;
      TrimLeftAll(right, "", p);
    } else {
      TrimRightAll(m, right, p);
    }
  }

  lemma TrimIgnoresMargins(left: string, s: string, right: string, p: char -> bool)
    requires AllOf(left, p) && AllOf(right, p)
    ensures Trim(left + s + right, p) == Trim(s, p)
  {
    var l, r := TrimMargins(s, p);
    assert left + s + right == (left + l) + Trim(s, p) + (r + right);
    TrimUnique(left + l, Trim(s, p), r + right, p);
  }

  lemma TrimEmpty(s: string, p: char -> bool)
    ensures Trim(s, p) == "" <==> AllOf(s, p)
  {
    var left, right := TrimMargins(s, p);
    var m := Trim(s, p);
    assert forall k :: 0 <= k < |m| ==> m[k] == s[|left| + k];
  }

  lemma TrimTight(s: string, p: char -> bool)
    ensures Trim(s, p) == s <==> Tight(s, p)
  {
    var _, _ := TrimMargins(s, p);
    if Tight(s, p) {
      TrimUnique("", s, "", p);
      assert "" + s + "" == s;
    }
  }

  // strings.Split with a one-character separator
  function Split(s: string, d: char): (parts: seq<string>)
    ensures |parts| >= 1
  {
    if s == "" then [""] else Glue(s[0], d, Split(s[1..], d))
  }

  // One more character in front: a new empty piece, or a longer first one.
  function Glue(c: char, d: char, rest: seq<string>): (parts: seq<string>)
    requires rest != []
    ensures parts != []
  {
    if c == d then [""] + rest else [[c] + rest[0]] + rest[1..]
  }

  lemma GlueAppend(c: char, d: char, rest: seq<string>, more: seq<string>)
    requires rest != []
    ensures Glue(c, d, rest + more) == Glue(c, d, rest) + more
  {
    assert (rest + more)[1..] == rest[1..] + more;
    if c == d {
      Assoc([""], rest, more);
    } else {
      Assoc([[c] + rest[0]], rest[1..], more);
    }
  }

  // strings.Join
  function Join(parts: seq<string>, d: char): string {
    if parts == [] then ""
    else if |parts| == 1 then parts[0]
    else parts[0] + [d] + Join(parts[1..], d)
  }

  lemma {:induction false} SplitNone(s: string, d: char)
    requires d !in s
    ensures Split(s, d) == [s]
  {
    if s != "" {
      SplitNone(s[1..], d);
      assert [s[0]] + s[1..] == s;
    }
  }

  lemma Assoc<T>(a: seq<T>, b: seq<T>, c: seq<T>)
    ensures (a + b) + c == a + (b + c)
  {
  }

  lemma SplitCons(c: char, s: string, d: char)
    ensures Split([c] + s, d) == Glue(c, d, Split(s, d))
  {
    assert ([c] + s)[1..] == s;
  }

  lemma {:induction false} SplitAt(a: string, d: char, b: string)
    ensures Split(a + [d] + b, d) == Split(a, d) + Split(b, d)
  {
    if a == "" {
      assert a + [d] + b == [d] + b;
      SplitCons(d, b, d);
    } else {
      var c, rest := a[0], a[1..];
      SplitAt(rest, d, b);
      SplitCons(c, rest + [d] + b, d);
      GlueAppend(c, d, Split(rest, d), Split(b, d));
      assert a + [d] + b == [c] + (rest + [d] + b);
    }
  }

  lemma {:induction false} SplitFree(s: string, d: char)
    ensures forall i :: 0 <= i < |Split(s, d)| ==> d !in Split(s, d)[i]
  {
    if s != "" {
      SplitFree(s[1..], d);
    }
  }

  lemma JoinGlue(c: char, d: char, rest: seq<string>)
    requires rest != []
    ensures Join(Glue(c, d, rest), d) == [c] + Join(rest, d)
  {
    var parts := Glue(c, d, rest);
    if c == d {
      assert parts[1..] == rest;
    } else {
      assert parts[1..] == rest[1..];
      if |rest| > 1 {
        Assoc([c], rest[0], [d] + Join(rest[1..], d));
      }
    }
  }

  lemma {:induction false} JoinSplit(s: string, d: char)
    ensures Join(Split(s, d), d) == s
  {
    if s != "" {
      JoinSplit(s[1..], d);
      JoinGlue(s[0], d, Split(s[1..], d));
    }
  }

  lemma {:induction false} SplitJoin(parts: seq<string>, d: char)
    requires parts != [] && forall i :: 0 <= i < |parts| ==> d !in parts[i]
    ensures Split(Join(parts, d), d) == parts
  {
    SplitNone(parts[0], d);
    if |parts| > 1 {
      SplitJoin(parts[1..], d);
      SplitAt(parts[0], d, Join(parts[1..], d));
    }
  }

  function IndexOf(s: string, d: char): (i: nat)
    requires d in s
    ensures i < |s| && s[i] == d && d !in s[..i]
  {
    if s[0] == d then 0 else 1 + IndexOf(s[1..], d)
  }

  lemma CutOnce(s: string, d: char) returns (before: string, after: string)
    requires d in s
    ensures s == before + [d] + after && d !in before
  {
    var i := IndexOf(s, d);
    before, after := s[..i], s[i + 1..];
    assert s == s[..i] + [s[i]] + s[i + 1..];
  }

  // What f makes of each piece, where it makes something.
  function Collect<T>(f: string -> Option<T>, pieces: seq<string>): seq<T> {
    if pieces == [] then []
    else (if f(pieces[0]).Some? then [f(pieces[0]).value] else []) + Collect(f, pieces[1..])
  }

  lemma {:induction false} CollectAppend<T>(f: string -> Option<T>, a: seq<string>, b: seq<string>)
    ensures Collect(f, a + b) == Collect(f, a) + Collect(f, b)
  {
    if a == [] {
      assert a + b == b;
    } else {
      assert (a + b)[1..] == a[1..] + b && (a + b)[0] == a[0];
      CollectAppend(f, a[1..], b);
      Assoc(if f(a[0]).Some? then [f(a[0]).value] else [], Collect(f, a[1..]), Collect(f, b));
    }
  }

  lemma CollectOne<T>(f: string -> Option<T>, piece: string)
    ensures Collect(f, [piece]) == if f(piece).Some? then [f(piece).value] else []
  {
    assert [piece][1..] == [];
  }

  // The trimmed, non-empty members of a list of pieces, in order.
  function Fields(parts: seq<string>, p: char -> bool): seq<string> {
    if parts == [] then []
    else
      var v := Trim(parts[0], p);
      (if v == "" then [] else [v]) + Fields(parts[1..], p)
  }

  lemma {:induction false} FieldsAppend(a: seq<string>, b: seq<string>, p: char -> bool)
    ensures Fields(a + b, p) == Fields(a, p) + Fields(b, p)
  {
    if a == [] {
      assert a + b == b;
    } else {
      assert (a + b)[1..] == a[1..] + b && (a + b)[0] == a[0];
      FieldsAppend(a[1..], b, p);
      var v := Trim(a[0], p);
      Assoc(if v == "" then [] else [v], Fields(a[1..], p), Fields(b, p));
    }
  }

  predicate IsField(s: string, d: char, p: char -> bool) {
    s != "" && d !in s && Tight(s, p)
  }

  lemma {:induction false} FieldsAreFields(parts: seq<string>, d: char, p: char -> bool)
    requires forall i :: 0 <= i < |parts| ==> d !in parts[i]
    ensures forall i :: 0 <= i < |Fields(parts, p)| ==> IsField(Fields(parts, p)[i], d, p)
  {
    if parts != [] {
      FieldsAreFields(parts[1..], d, p);
      var _, _ := TrimMargins(parts[0], p);
    }
  }

  lemma {:induction false} FieldsOfFields(parts: seq<string>, d: char, p: char -> bool)
    requires forall i :: 0 <= i < |parts| ==> IsField(parts[i], d, p)
    ensures Fields(parts, p) == parts
  {
    if parts != [] {
      TrimTight(parts[0], p);
      FieldsOfFields(parts[1..], d, p);
    }
  }

  // Joining any list of fields and splitting again gives the list back.
  lemma FieldsRoundTrip(parts: seq<string>, d: char, p: char -> bool)
    requires forall i :: 0 <= i < |parts| ==> IsField(parts[i], d, p)
    ensures Fields(Split(Join(parts, d), d), p) == parts
  {
    if parts != [] {
      SplitJoin(parts, d);
      FieldsOfFields(parts, d, p);
    } else {
      assert Fields([""], p) == [] + Fields([], p);
    }
  }
}
