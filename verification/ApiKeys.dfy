// The AUTH_API_KEYS parser.
module ApiKeys {
  import opened Options
  import opened Text

  datatype ApiKey = ApiKey(name: string, key: string, scopes: seq<string>)

  // strings.SplitN(s, ":", 3): up to two cuts, the rest kept whole.
  function SplitN(s: string, d: char, n: nat): (parts: seq<string>)
    requires n >= 1
    ensures 1 <= |parts| <= n
  {
    if n == 1 || d !in s then [s]
    else
      var i := IndexOf(s, d);
      [s[..i]] + SplitN(s[i + 1..], d, n - 1)
  }

  function ParseEntry(raw: string): Option<ApiKey> {
    var parts := SplitN(TrimSpace(raw), ':', 3);
    if |parts| != 3 then None
    else
      var name, key, scopes := TrimSpace(parts[0]), TrimSpace(parts[1]), TrimSpace(parts[2]);
      if name == "" || key == "" || scopes == "" then None
      else Some(ApiKey(name, key, Fields(Split(scopes, ','), IsSpace)))
  }

  // Reference: every ';'-separated entry on its own, whatever stands around it.
  function Keys(raw: string): seq<ApiKey> {
    Collect(ParseEntry, Split(raw, ';'))
  }

  lemma EntryMargins(left: string, e: string, right: string)
    requires AllOf(left, IsSpace) && AllOf(right, IsSpace)
    ensures ParseEntry(left + e + right) == ParseEntry(e)
  {
    TrimIgnoresMargins(left, e, right, IsSpace);
  }

  lemma Distributes(a: string, b: string)
    ensures Keys(a + ";" + b) == Keys(a) + Keys(b)
  {
    SplitAt(a, ';', b);
    CollectAppend(ParseEntry, Split(a, ';'), Split(b, ';'));
  }

  lemma OneEntry(e: string)
    requires ';' !in e
    ensures Keys(e) == if ParseEntry(e).Some? then [ParseEntry(e).value] else []
  {
    SplitNone(e, ';');
    CollectOne(ParseEntry, e);
  }

  lemma LeftMargin(left: string, raw: string)
    requires AllOf(left, IsSpace)
    ensures Keys(left + raw) == Keys(raw)
  {
    if ';' in raw {
      var a, b := CutOnce(raw, ';');
      LeftMarginOfEntry(left, a);
      Distributes(a, b);
      Distributes(left + a, b);
      PrefixAssoc(left, a, b);
    } else {
      LeftMarginOfEntry(left, raw);
    }
  }

  lemma PrefixAssoc(left: string, a: string, b: string)
    ensures left + (a + ";" + b) == (left + a) + ";" + b
  {
  }

  lemma LeftMarginOfEntry(left: string, e: string)
    requires AllOf(left, IsSpace) && ';' !in e
    ensures Keys(left + e) == Keys(e)
  {
    SpacesHaveNoSemicolon(left);
    OneEntry(left + e);
    OneEntry(e);
    EntryMargins(left, e, "");
    assert left + e + "" == left + e;
  }

  lemma {:induction false} RightMargin(raw: string, right: string)
    requires AllOf(right, IsSpace)
    ensures Keys(raw + right) == Keys(raw)
    decreases |raw|
  {
    if ';' in raw {
      var a, b := CutOnce(raw, ';');
      RightMargin(b, right);
      Distributes(a, b);
      Distributes(a, b + right);
      Assoc(a + ";", b, right);
    } else {
      RightMarginOfEntry(raw, right);
    }
  }

  lemma RightMarginOfEntry(e: string, right: string)
    requires AllOf(right, IsSpace) && ';' !in e
    ensures Keys(e + right) == Keys(e)
  {
    SpacesHaveNoSemicolon(right);
    OneEntry(e + right);
    OneEntry(e);
    EntryMargins("", e, right);
    assert "" + e + right == e + right;
  }

  // The parser's outer TrimSpace changes nothing.
  lemma OuterTrim(raw: string)
    ensures Keys(TrimSpace(raw)) == Keys(raw)
  {
    var left, right := TrimMargins(raw, IsSpace);
    LeftMargin(left, TrimSpace(raw));
    RightMargin(left + TrimSpace(raw), right);
  }

  lemma SpacesHaveNoSemicolon(w: string)
    requires AllOf(w, IsSpace)
    ensures ';' !in w
  {
  }

  method ParseScopes(scopeStr: string) returns (scopes: seq<string>)
    ensures scopes == Fields(Split(scopeStr, ','), IsSpace)
  {
    scopes := [];
    var pieces := Split(scopeStr, ',');
    for j := 0 to |pieces|
      invariant scopes == Fields(pieces[..j], IsSpace)
    {
      var s := TrimSpace(pieces[j]);
      FieldsSnoc(pieces[..j], pieces[j]);
      assert pieces[..j + 1] == pieces[..j] + [pieces[j]];
      if s != "" {
        scopes := scopes + [s];
      }
    }
    assert pieces[..|pieces|] == pieces;
  }

  lemma FieldsSnoc(pieces: seq<string>, piece: string)
    ensures Fields(pieces + [piece], IsSpace)
         == Fields(pieces, IsSpace) + if TrimSpace(piece) == "" then [] else [TrimSpace(piece)]
  {
    FieldsAppend(pieces, [piece], IsSpace);
    assert [piece][1..] == [];
  }

  // The parser's loop body: the checks one entry has to pass
  method ParseOne(raw: string) returns (key: Option<ApiKey>)
    ensures key == ParseEntry(raw)
  {
    var entry := TrimSpace(raw);
    if entry == "" {
      return None;
    }
    var parts := SplitN(entry, ':', 3);
    if |parts| != 3 {
      return None;
    }
    var name := TrimSpace(parts[0]);
    var k := TrimSpace(parts[1]);
    var scopeStr := TrimSpace(parts[2]);
    if name == "" || k == "" || scopeStr == "" {
      return None;
    }
    var scopes := ParseScopes(scopeStr);
    return Some(ApiKey(name, k, scopes));
  }

  method ParseApiKeys(input: string) returns (keys: seq<ApiKey>)
    ensures keys == Keys(input)
  {
    var raw := TrimSpace(input);
    OuterTrim(input);
    keys := [];
    if raw == "" {
      BlankIsMalformed();
      CollectOne(ParseEntry, "");
      return;
    }
    var entries := Split(raw, ';');
    for i := 0 to |entries|
      invariant keys == Collect(ParseEntry, entries[..i])
    {
      CollectAppend(ParseEntry, entries[..i], [entries[i]]);
      CollectOne(ParseEntry, entries[i]);
      assert entries[..i + 1] == entries[..i] + [entries[i]];
      var key := ParseOne(entries[i]);
      if key.Some? {
        keys := keys + [key.value];
      }
    }
    assert entries[..|entries|] == entries;
  }

  lemma BlankIsMalformed()
    ensures ParseEntry("") == None
  {
  }

  // A malformed entry disappears and leaves its neighbours alone.
  lemma MalformedSkipped(a: string, bad: string, b: string)
    requires ';' !in bad && ParseEntry(bad).None?
    ensures Keys(a + ";" + bad + ";" + b) == Keys(a + ";" + b)
  {
    var front := a + ";" + bad;
    Distributes(front, b);
    Distributes(a, bad);
    Distributes(a, b);
    SplitNone(bad, ';');
    CollectOne(ParseEntry, bad);
    assert Keys(front) == Keys(a);
  }

  // The documented format: name:key:scope1,scope2.
  function PrintKey(k: ApiKey): string {
    k.name + ":" + (k.key + ":" + Join(k.scopes, ','))
  }

  function PrintEntries(keys: seq<ApiKey>): (r: seq<string>)
    ensures |r| == |keys|
  {
    seq(|keys|, i requires 0 <= i < |keys| => PrintKey(keys[i]))
  }

  function PrintKeys(keys: seq<ApiKey>): string {
    Join(PrintEntries(keys), ';')
  }

  // A key whose fields the format can carry. Scopes may contain ':', because only the first two colons of an
  // entry are separators.
  predicate Printable(k: ApiKey) {
    && IsField(k.name, ':', IsSpace) && ';' !in k.name
    && IsField(k.key, ':', IsSpace) && ';' !in k.key
    && forall i :: 0 <= i < |k.scopes| ==> IsField(k.scopes[i], ',', IsSpace) && ';' !in k.scopes[i]
  }

  predicate AllPrintable(keys: seq<ApiKey>) {
    forall i :: 0 <= i < |keys| ==> Printable(keys[i])
  }

  lemma {:induction false} IndexAfter(a: string, d: char, b: string)
    requires d !in a
    ensures d in a + [d] + b && IndexOf(a + [d] + b, d) == |a|
  {
    var s := a + [d] + b;
    if a != "" {
      IndexAfter(a[1..], d, b);
      assert s[1..] == a[1..] + [d] + b;
    }
  }

  lemma {:induction false} JoinedScopes(parts: seq<string>)
    requires forall i :: 0 <= i < |parts| ==> IsField(parts[i], ',', IsSpace) && ';' !in parts[i]
    ensures Tight(Join(parts, ','), IsSpace) && ';' !in Join(parts, ',') && (Join(parts, ',') == "" <==> parts == [])
  {
    if |parts| > 1 {
      JoinedScopes(parts[1..]);
    }
  }

  lemma TwoCuts(a: string, b: string, c: string)
    requires ':' !in a && ':' !in b
    ensures SplitN(a + ":" + (b + ":" + c), ':', 3) == [a, b, c]
  {
    OneCut(a, b + ":" + c, 3);
    OneCut(b, c, 2);
  }

  lemma OneCut(a: string, b: string, n: nat)
    requires ':' !in a && n >= 2
    ensures SplitN(a + ":" + b, ':', n) == [a] + SplitN(b, ':', n - 1)
  {
    var s := a + ":" + b;
    IndexAfter(a, ':', b);
    assert s[..|a|] == a && s[|a| + 1..] == b;
  }

  lemma PrintedTight(k: ApiKey)
    requires Printable(k)
    ensures Tight(PrintKey(k), IsSpace) && ';' !in PrintKey(k)
    ensures Tight(Join(k.scopes, ','), IsSpace) && (Join(k.scopes, ',') == "" <==> k.scopes == [])
  {
    JoinedScopes(k.scopes);
  }

  // A printed key is read back, except that one without scopes is not accepted.
  lemma PrintedKeyParses(k: ApiKey)
    requires Printable(k)
    ensures ParseEntry(PrintKey(k)) == if k.scopes == [] then None else Some(k)
  {
    var joined := Join(k.scopes, ',');
    PrintedTight(k);
    TrimTight(PrintKey(k), IsSpace);
    TwoCuts(k.name, k.key, joined);
    TrimTight(k.name, IsSpace);
    TrimTight(k.key, IsSpace);
    TrimTight(joined, IsSpace);
    FieldsRoundTrip(k.scopes, ',', IsSpace);
  }

  function WithScopes(keys: seq<ApiKey>): (r: seq<ApiKey>)
    ensures |r| <= |keys|
    ensures r == keys <==> AllScoped(keys)
  {
    if keys == [] then []
    else
      var rest := WithScopes(keys[1..]);
      if keys[0].scopes == [] then rest else [keys[0]] + rest
  }

  lemma {:induction false} PrintedEntriesParse(keys: seq<ApiKey>)
    requires AllPrintable(keys)
    ensures Collect(ParseEntry, PrintEntries(keys)) == WithScopes(keys)
  {
    if keys != [] {
      PrintedKeyParses(keys[0]);
      PrintedEntriesParse(keys[1..]);
      assert PrintEntries(keys)[1..] == PrintEntries(keys[1..]);
    }
  }

  lemma PrintedKeysParse(keys: seq<ApiKey>)
    requires AllPrintable(keys)
    ensures Keys(PrintKeys(keys)) == WithScopes(keys)
  {
    if keys == [] {
      BlankIsMalformed();
      CollectOne(ParseEntry, "");
    } else {
      forall i | 0 <= i < |keys| ensures ';' !in PrintEntries(keys)[i] {
        PrintedTight(keys[i]);
      }
      SplitJoin(PrintEntries(keys), ';');
      PrintedEntriesParse(keys);
    }
  }

  // Parsing undoes printing, for keys that have a scope.
  lemma RoundTrip(keys: seq<ApiKey>)
    requires AllPrintable(keys)
    ensures Keys(PrintKeys(keys)) == keys <==> AllScoped(keys)
  {
    PrintedKeysParse(keys);
  }

  // ----- what comes out of the parser -----

  lemma {:induction false} SplitNParts(s: string, d: char, n: nat)
    requires n >= 1
    ensures forall i :: 0 <= i < |SplitN(s, d, n)| ==> Within(SplitN(s, d, n)[i], s)
    ensures forall i :: 0 <= i < |SplitN(s, d, n)| - 1 ==> d !in SplitN(s, d, n)[i]
    decreases n
  {
    if n > 1 && d in s {
      SplitNParts(s[IndexOf(s, d) + 1..], d, n - 1);
    }
  }

  // Every character of part comes from s.
  predicate Within(part: string, s: string) {
    forall c :: c in part ==> c in s
  }

  lemma TrimWithin(s: string)
    ensures Within(TrimSpace(s), s) && Tight(TrimSpace(s), IsSpace)
  {
    var left, right := TrimMargins(s, IsSpace);
  }

  lemma {:induction false} FieldsWithin(parts: seq<string>, s: string)
    requires forall i :: 0 <= i < |parts| ==> Within(parts[i], s)
    ensures forall i :: 0 <= i < |Fields(parts, IsSpace)| ==> Within(Fields(parts, IsSpace)[i], s)
  {
    if parts != [] {
      FieldsWithin(parts[1..], s);
      TrimWithin(parts[0]);
    }
  }

  lemma {:induction false} SplitWithin(s: string, d: char)
    ensures forall i :: 0 <= i < |Split(s, d)| ==> Within(Split(s, d)[i], s)
  {
    if s != "" {
      SplitWithin(s[1..], d);
    }
  }

  // Whatever an entry looks like, the key read from it is one the format can carry.
  lemma ParsedIsPrintable(entry: string)
    requires ';' !in entry && ParseEntry(entry).Some?
    ensures Printable(ParseEntry(entry).value)
  {
    var parts := SplitN(TrimSpace(entry), ':', 3);
    TrimWithin(entry);
    SplitNParts(TrimSpace(entry), ':', 3);
    TrimWithin(parts[0]);
    TrimWithin(parts[1]);
    TrimWithin(parts[2]);
    ScopesAreFields(TrimSpace(parts[2]));
  }

  lemma ScopesAreFields(scopes: string)
    requires ';' !in scopes
    ensures forall i :: 0 <= i < |Fields(Split(scopes, ','), IsSpace)| ==>
      var f := Fields(Split(scopes, ','), IsSpace)[i]; IsField(f, ',', IsSpace) && ';' !in f
  {
    SplitFree(scopes, ',');
    FieldsAreFields(Split(scopes, ','), ',', IsSpace);
    SplitWithin(scopes, ',');
    FieldsWithin(Split(scopes, ','), scopes);
  }

  lemma {:induction false} CollectedPrintable(entries: seq<string>)
    requires forall i :: 0 <= i < |entries| ==> ';' !in entries[i]
    ensures AllPrintable(Collect(ParseEntry, entries))
  {
    if entries != [] {
      CollectedPrintable(entries[1..]);
      if ParseEntry(entries[0]).Some? {
        ParsedIsPrintable(entries[0]);
      }
    }
  }

  // ----- the same in terms of the text -----

  // Three fields, none of them blank
  predicate Accepted(entry: string) {
    var parts := SplitN(TrimSpace(entry), ':', 3);
    |parts| == 3 && forall i :: 0 <= i < 3 ==> !AllOf(parts[i], IsSpace)
  }

  // The third field has a character that is neither a comma nor a space.
  predicate NamesScope(entry: string)
    requires Accepted(entry)
  {
    !AllOf(SplitN(TrimSpace(entry), ':', 3)[2], CommaOrSpace)
  }

  predicate CommaOrSpace(c: char) {
    c == ',' || IsSpace(c)
  }

  lemma TrimmedAway(s: string)
    ensures TrimSpace(s) == "" <==> AllOf(s, IsSpace)
    ensures AllOf(TrimSpace(s), CommaOrSpace) <==> AllOf(s, CommaOrSpace)
  {
    var left, right := TrimMargins(s, IsSpace);
    var m := TrimSpace(s);
    assert forall k :: 0 <= k < |m| ==> m[k] == s[|left| + k];
  }

  lemma AcceptedMeans(entry: string)
    ensures ParseEntry(entry).Some? <==> Accepted(entry)
  {
    var parts := SplitN(TrimSpace(entry), ':', 3);
    if |parts| == 3 {
      TrimmedAway(parts[0]);
      TrimmedAway(parts[1]);
      TrimmedAway(parts[2]);
    }
  }

  lemma {:induction false} NoFields(parts: seq<string>)
    ensures Fields(parts, IsSpace) == [] <==> AllBlank(parts)
  {
    if parts != [] {
      NoFields(parts[1..]);
      TrimmedAway(parts[0]);
    }
  }

  lemma {:induction false} BlankPieces(s: string)
    ensures AllBlank(Split(s, ',')) <==> AllOf(s, CommaOrSpace)
  {
    if s != "" {
      BlankPieces(s[1..]);
      BlankGlue(s[0], Split(s[1..], ','));
      AllOfCons(s, CommaOrSpace);
    }
  }

  lemma AllOfCons(s: string, p: char -> bool)
    requires s != ""
    ensures AllOf(s, p) <==> p(s[0]) && AllOf(s[1..], p)
  {
    assert s == [s[0]] + s[1..];
  }

  predicate AllBlank(parts: seq<string>) {
    forall i :: 0 <= i < |parts| ==> AllOf(parts[i], IsSpace)
  }

  lemma BlankGlue(c: char, rest: seq<string>)
    requires rest != []
    ensures AllBlank(Glue(c, ',', rest)) <==> CommaOrSpace(c) && AllBlank(rest)
  {
    var parts := Glue(c, ',', rest);
    if c == ',' {
      assert forall i :: 0 <= i < |rest| ==> parts[i + 1] == rest[i];
    } else {
      assert forall i :: 1 <= i < |rest| ==> parts[i] == rest[i];
      assert parts[0][0] == c && forall k :: 0 <= k < |rest[0]| ==> parts[0][k + 1] == rest[0][k];
    }
  }

  lemma ScopesMean(entry: string)
    requires Accepted(entry)
    ensures ParseEntry(entry).Some? && (ParseEntry(entry).value.scopes == [] <==> !NamesScope(entry))
  {
    var third := SplitN(TrimSpace(entry), ':', 3)[2];
    AcceptedMeans(entry);
    TrimmedAway(third);
    BlankPieces(TrimSpace(third));
    NoFields(Split(TrimSpace(third), ','));
  }

  ghost predicate ScopesNamed(entries: seq<string>) {
    forall i :: 0 <= i < |entries| && Accepted(entries[i]) ==> NamesScope(entries[i])
  }

  lemma {:induction false} CollectedScopes(entries: seq<string>)
    ensures AllScoped(Collect(ParseEntry, entries)) <==> ScopesNamed(entries)
  {
    if entries != [] {
      CollectedScopes(entries[1..]);
      ScopesNamedCons(entries);
      FirstScopes(entries[0], Collect(ParseEntry, entries[1..]));
    }
  }

  lemma FirstScopes(entry: string, rest: seq<ApiKey>)
    ensures var keys := (if ParseEntry(entry).Some? then [ParseEntry(entry).value] else []) + rest;
      AllScoped(keys) <==> (Accepted(entry) ==> NamesScope(entry)) && AllScoped(rest)
  {
    AcceptedMeans(entry);
    if Accepted(entry) {
      ScopesMean(entry);
      AllScopedCons(ParseEntry(entry).value, rest);
    } else {
      assert [] + rest == rest;
    }
  }

  predicate AllScoped(keys: seq<ApiKey>) {
    forall i :: 0 <= i < |keys| ==> keys[i].scopes != []
  }

  lemma AllScopedCons(key: ApiKey, rest: seq<ApiKey>)
    ensures AllScoped([key] + rest) <==> key.scopes != [] && AllScoped(rest)
  {
    assert ([key] + rest)[0] == key;
    assert forall i :: 0 <= i < |rest| ==> ([key] + rest)[i + 1] == rest[i];
  }

  lemma ScopesNamedCons(entries: seq<string>)
    requires entries != []
    ensures ScopesNamed(entries) <==> (Accepted(entries[0]) ==> NamesScope(entries[0])) && ScopesNamed(entries[1..])
  {
    assert entries == [entries[0]] + entries[1..];
  }

  // Whatever the text, what was read from it can be written out and read again unchanged, if and only if the third
  // field of every accepted entry has a character that is neither a comma nor a space.
  lemma Reprint(raw: string)
    ensures AllPrintable(Keys(raw))
    ensures Keys(PrintKeys(Keys(raw))) == Keys(raw) <==> ScopesNamed(Split(raw, ';'))
  {
    SplitFree(raw, ';');
    CollectedPrintable(Split(raw, ';'));
    PrintedKeysParse(Keys(raw));
    CollectedScopes(Split(raw, ';'));
  }

  lemma CommaHasNoFields()
    ensures Fields(Split(",", ','), IsSpace) == []
  {
    SplitAt("", ',', "");
    assert "" + "," + "" == ",";
    FieldsAppend([""], [""], IsSpace);
    assert Fields([""], IsSpace) == [] + Fields([], IsSpace);
  }

  lemma KeyWithoutScope(name: string, key: string)
    requires Printable(ApiKey(name, key, []))
    ensures ParseEntry(name + ":" + (key + ":" + ",")) == Some(ApiKey(name, key, []))
  {
    var entry, comma := name + ":" + (key + ":" + ","), ",";
    assert Tight(entry, IsSpace) && Tight(comma, IsSpace);
    TrimTight(entry, IsSpace);
    TwoCuts(name, key, comma);
    TrimTight(name, IsSpace);
    TrimTight(key, IsSpace);
    TrimTight(comma, IsSpace);
    CommaHasNoFields();
  }
}
