// The rate limiter's client address lookup and the hand-written comma splitter behind it.
module ForwardedFor {
  import opened Options
  import opened Text

  predicate Blank(c: char) {
    c == ' '
  }

  // Reference: split on commas, trim blanks, drop what is empty.
  function CsvFields(s: string): seq<string> {
    Fields(Split(s, ','), Blank)
  }

  method TrimBlanks(s: string) returns (r: string)
    ensures r == Trim(s, Blank)
  {
    var i := 0;
    while i < |s| && s[i] == ' '
      invariant i <= |s| && AllOf(s[..i], Blank)
    {
      i := i + 1;
    }
    var j := |s|;
    while j > i && s[j - 1] == ' '
      invariant i <= j <= |s| && AllOf(s[j..], Blank)
    {
      j := j - 1;
    }
    r := s[i..j];
    assert s == s[..i] + r + s[j..];
    TrimUnique(s[..i], r, s[j..], Blank);
  }

  method SplitCsv(s: string) returns (result: seq<string>)
    ensures result == CsvFields(s)
  {
    result := [];
    var start := 0;
    assert s[0..] == s;
    for i := 0 to |s|
      invariant start <= i && CommaFree(s, start, i) && Done(s, start, result)
    {
      if s[i] == ',' {
        Turn(s, start, i, result);
        var v := TrimBlanks(s[start..i]);
        if v != "" {
          result := result + [v];
        }
        start := i + 1;
      }
    }
    LastTurn(s, start, result);
    var v := TrimBlanks(s[start..]);
    if v != "" {
      result := result + [v];
    }
  }

  predicate CommaFree(s: string, start: nat, end: nat) {
    forall k :: start <= k < end && k < |s| ==> s[k] != ','
  }

  // What is in result and what the rest will add make up all the fields.
  predicate Done(s: string, start: nat, result: seq<string>) {
    start <= |s| && result + CsvFields(s[start..]) == CsvFields(s)
  }

  function Kept(piece: string): seq<string> {
    if Trim(piece, Blank) == "" then [] else [Trim(piece, Blank)]
  }

  function With(result: seq<string>, v: string): seq<string> {
    if v == "" then result else result + [v]
  }

  // At a comma the piece before it is dealt with and the rest remains.
  lemma Turn(s: string, start: nat, i: nat, result: seq<string>)
    requires start <= i < |s| && CommaFree(s, start, i) && s[i] == ',' && Done(s, start, result)
    ensures Done(s, i + 1, With(result, Trim(s[start..i], Blank)))
  {
    var piece, rest := s[start..i], s[i + 1..];
    assert s[start..] == piece + "," + rest;
    Distributes(piece, rest);
    OneField(piece);
    Assoc(result, Kept(piece), CsvFields(rest));
    assert result + Kept(piece) == With(result, Trim(piece, Blank));
  }

  lemma LastTurn(s: string, start: nat, result: seq<string>)
    requires CommaFree(s, start, |s|) && Done(s, start, result)
    ensures CsvFields(s) == With(result, Trim(s[start..], Blank))
  {
    OneField(s[start..]);
    assert result + Kept(s[start..]) == With(result, Trim(s[start..], Blank));
  }

  lemma OneField(s: string)
    requires ',' !in s
    ensures CsvFields(s) == Kept(s)
  {
    SplitNone(s, ',');
    FieldsOne(s);
  }

  lemma FieldsOne(s: string)
    ensures Fields([s], Blank) == Kept(s)
  {
    assert [s][1..] == [];
  }

  lemma Distributes(a: string, b: string)
    ensures CsvFields(a + "," + b) == CsvFields(a) + CsvFields(b)
  {
    SplitAt(a, ',', b);
    FieldsAppend(Split(a, ','), Split(b, ','), Blank);
  }

  lemma PiecesAreFields(s: string)
    ensures AreFields(CsvFields(s))
  {
    SplitFree(s, ',');
    FieldsAreFields(Split(s, ','), ',', Blank);
  }

  predicate AreFields(pieces: seq<string>) {
    forall i :: 0 <= i < |pieces| ==> IsField(pieces[i], ',', Blank)
  }

  // A list is what the splitter returns for some header exactly when its members are non-empty, comma-free
  // and have no blank at either end; its comma join is then such a header.
  lemma ExactlyFields(pieces: seq<string>)
    ensures AreFields(pieces) ==> CsvFields(Join(pieces, ',')) == pieces
    ensures (exists s :: CsvFields(s) == pieces) <==> AreFields(pieces)
  {
    if AreFields(pieces) {
      FieldsRoundTrip(pieces, ',', Blank);
    }
    if s :| CsvFields(s) == pieces {
      PiecesAreFields(s);
    }
  }

  // ----- the client address -----

  datatype Header = XForwardedFor | XRealIp | CfConnectingIp

  // net.ParseIP followed by IP.String: the canonical spelling of an address, if the text is one
  type Parser = string -> Option<string>

  // Addresses are written without commas and blanks, and their canonical spelling is canonical.
  ghost predicate Sane(parse: Parser) {
    forall s :: parse(s).Some? ==> IsField(s, ',', Blank) && parse(parse(s).value) == parse(s)
  }

  function FirstParsed(parse: Parser, pieces: seq<string>): Option<string> {
    if pieces == [] then None
    else if parse(pieces[0]).Some? then parse(pieces[0])
    else FirstParsed(parse, pieces[1..])
  }

  // What an X-Forwarded-For header stands for
  function Forwarded(parse: Parser, v: string): string {
    if parse(v).Some? || FirstParsed(parse, CsvFields(v)).None? then v else FirstParsed(parse, CsvFields(v)).value
  }

  // host is the peer's address without its port, where it has that form.
  function ClientAddress(parse: Parser, header: Header -> string, remote: string, host: Option<string>, behindProxy: bool): string {
    if behindProxy && header(XForwardedFor) != "" then Forwarded(parse, header(XForwardedFor))
    else if behindProxy && header(XRealIp) != "" then header(XRealIp)
    else if behindProxy && header(CfConnectingIp) != "" then header(CfConnectingIp)
    else if host.Some? then host.value
    else remote
  }

  method ClientIp(parse: Parser, header: Header -> string, remote: string, host: Option<string>, behindProxy: bool)
    returns (ip: string)
    ensures ip == ClientAddress(parse, header, remote, host, behindProxy)
  {
    if behindProxy {
      var names := [XForwardedFor, XRealIp, CfConnectingIp];
      for i := 0 to |names|
        invariant forall k :: 0 <= k < i ==> header(names[k]) == ""
      {
        var v := header(names[i]);
        if v != "" {
          if names[i] == XForwardedFor {
            if parse(v).None? {
              var found := FirstAddress(parse, v);
              if found.Some? {
                return found.value;
              }
            }
            return v;
          }
          assert header(names[0]) == "" && (i == 2 ==> header(names[1]) == "");
          return v;
        }
      }
      assert header(names[0]) == "" && header(names[1]) == "" && header(names[2]) == "";
    }
    return if host.Some? then host.value else remote;
  }

  method FirstAddress(parse: Parser, v: string) returns (found: Option<string>)
    ensures found == FirstParsed(parse, CsvFields(v))
  {
    var pieces := SplitCsv(v);
    for i := 0 to |pieces|
      invariant FirstParsed(parse, pieces) == FirstParsed(parse, pieces[i..])
    {
      if parse(pieces[i]).Some? {
        return parse(pieces[i]);
      }
    }
    return None;
  }

  lemma {:induction false} FirstParsedAppend(parse: Parser, a: seq<string>, b: seq<string>)
    ensures FirstParsed(parse, a + b) == if FirstParsed(parse, a).Some? then FirstParsed(parse, a) else FirstParsed(parse, b)
  {
    if a == [] {
      assert a + b == b;
    } else {
      assert (a + b)[1..] == a[1..] + b && (a + b)[0] == a[0];
      FirstParsedAppend(parse, a[1..], b);
    }
  }

  lemma {:induction false} FirstParsedCanonical(parse: Parser, pieces: seq<string>)
    requires Sane(parse)
    ensures FirstParsed(parse, pieces).Some? ==> parse(FirstParsed(parse, pieces).value) == FirstParsed(parse, pieces)
  {
    if pieces != [] {
      FirstParsedCanonical(parse, pieces[1..]);
    }
  }

  // A text that is itself an address is its own only field.
  lemma AddressIsItsField(parse: Parser, v: string)
    requires Sane(parse) && parse(v).Some?
    ensures FirstParsed(parse, CsvFields(v)) == parse(v)
  {
    OneField(v);
    TrimTight(v, Blank);
  }

  // A proxy that appends itself to the header leaves the client's address, and with it the client's limit, as
  // it was if and only if the header named an address at all, and did not consist of a single one in some other
  // than its canonical spelling.
  lemma AppendedProxy(parse: Parser, v: string, more: string)
    requires Sane(parse)
    ensures Forwarded(parse, v + "," + more) == Forwarded(parse, v)
       <==> FirstParsed(parse, CsvFields(v)).Some? && (parse(v).Some? ==> parse(v).value == v)
  {
    var longer := v + "," + more;
    Distributes(v, more);
    FirstParsedAppend(parse, CsvFields(v), CsvFields(more));
    assert longer[|v|] == ',';
    assert parse(longer).None?;
    FirstParsedCanonical(parse, CsvFields(more));
    if parse(v).Some? {
      AddressIsItsField(parse, v);
    }
  }

  // Two spellings of one address
  function Loopback(s: string): Option<string> {
    if s == "::1" || s == "0::1" then Some("::1") else None
  }

  // A client seen under the long spelling is limited as another one once a proxy has appended itself.
  lemma AppendedProxyRespells()
    ensures Sane(Loopback)
    ensures Forwarded(Loopback, "0::1") == "0::1" && Forwarded(Loopback, "0::1" + "," + "p") != "0::1"
  {
    AppendedProxy(Loopback, "0::1", "p");
  }

  // ----- who decides the address -----

  // Not behind a proxy, nothing that the client sends in a header has any say: it is the peer's host, or the peer's
  // raw address where that has no port to take off.
  lemma HeadersIgnored(parse: Parser, header: Header -> string, other: Header -> string, remote: string, host: Option<string>)
    ensures ClientAddress(parse, header, remote, host, false) == ClientAddress(parse, other, remote, host, false)
    ensures ClientAddress(parse, header, remote, host, false) == match host case Some(name) => name case None => remote
  {
  }

  // Behind a proxy the first header that is set decides, and the peer only if none is.
  lemma FirstHeaderDecides(
    parse: Parser, header: Header -> string, other: Header -> string,
    remote: string, host: Option<string>, otherRemote: string, otherHost: Option<string>)
    ensures header(XForwardedFor) != "" && other(XForwardedFor) == header(XForwardedFor) ==>
      ClientAddress(parse, header, remote, host, true) == ClientAddress(parse, other, otherRemote, otherHost, true)
    ensures header(XForwardedFor) == "" && header(XRealIp) != "" ==>
      ClientAddress(parse, header, remote, host, true) == header(XRealIp)
    ensures header(XForwardedFor) == "" && header(XRealIp) == "" && header(CfConnectingIp) != "" ==>
      ClientAddress(parse, header, remote, host, true) == header(CfConnectingIp)
    ensures (forall name :: header(name) == "") ==>
      ClientAddress(parse, header, remote, host, true) == ClientAddress(parse, header, remote, host, false)
  {
  }

  // Of a forwarding chain the first address counts, whatever follows it, and in its canonical spelling; a header that
  // is one address is taken as it stands, and one without any address too.
  lemma FirstOfChain(parse: Parser, header: Header -> string, remote: string, host: Option<string>, i: nat)
    requires Sane(parse) && header(XForwardedFor) != ""
    ensures var v := header(XForwardedFor); var a := ClientAddress(parse, header, remote, host, true);
      && (parse(v).Some? ==> a == v)
      && (parse(v).None? && FirstAt(parse, CsvFields(v), i) ==> a == parse(CsvFields(v)[i]).value)
      && ((forall k :: 0 <= k < |CsvFields(v)| ==> parse(CsvFields(v)[k]).None?) ==> a == v)
  {
    var v := header(XForwardedFor);
    FirstParsedMeans(parse, CsvFields(v));
  }

  // Piece i is an address, and none before it is.
  predicate FirstAt(parse: Parser, pieces: seq<string>, i: nat) {
    i < |pieces| && parse(pieces[i]).Some? && forall k :: 0 <= k < i ==> parse(pieces[k]).None?
  }

  lemma {:induction false} FirstParsedMeans(parse: Parser, pieces: seq<string>)
    ensures FirstParsed(parse, pieces).None? <==> forall k :: 0 <= k < |pieces| ==> parse(pieces[k]).None?
    ensures forall i: nat :: FirstAt(parse, pieces, i) ==> FirstParsed(parse, pieces) == parse(pieces[i])
  {
    if pieces != [] {
      FirstParsedMeans(parse, pieces[1..]);
      forall i: nat | FirstAt(parse, pieces, i) ensures FirstParsed(parse, pieces) == parse(pieces[i]) {
        if i > 0 {
          assert parse(pieces[0]).None?;
          assert FirstAt(parse, pieces[1..], i - 1);
        }
      }
    }
  }
}
