// The stdout reader inside the protocol: what it reads from the stream is what the protocol's steps see.
module ReaderRun {
  import opened Options
  import opened Text
  import opened Gateway
  import opened RpcProtocol
  import opened RpcGuarantees
  import opened LineDemux

  // The steps of the reader that one line calls for
  function Demand(f: Fate): seq<Action> {
    match f
    case Command(env) => [ReadResponse(env)]
    case Mapped(events) => Casts(events)
    case _ => []
  }

  function Casts(events: seq<GatewayEvent>): seq<Action> {
    if events == [] then [] else [Broadcast(events[0])] + Casts(events[1..])
  }

  function Demands(fate: string -> Fate, lines: seq<string>): seq<Action> {
    if lines == [] then [] else Demand(fate(lines[0])) + Demands(fate, lines[1..])
  }

  // The reader's line-reading steps in a run, everybody else's left out
  function Reads(acts: seq<Action>): seq<Action> {
    if acts == [] then []
    else (if acts[0].ReadResponse? || acts[0].Broadcast? then [acts[0]] else []) + Reads(acts[1..])
  }

  // In this run the reader has read exactly stream.
  ghost predicate ReadsStream(acts: seq<Action>, fate: string -> Fate, stream: string) {
    Reads(acts) == Demands(fate, Lines(stream))
  }

  function Envs(lines: seq<Line>): seq<Envelope> {
    seq(|lines|, i requires 0 <= i < |lines| => lines[i].env)
  }

  function Responses(steps: seq<Action>): seq<Envelope> {
    if steps == [] then []
    else (if steps[0].ReadResponse? then [steps[0].env] else []) + Responses(steps[1..])
  }

  lemma {:induction false} ResponsesAppend(a: seq<Action>, b: seq<Action>)
    ensures Responses(a + b) == Responses(a) + Responses(b)
  {
    if a == [] {
      assert a + b == b;
    } else {
      assert (a + b)[1..] == a[1..] + b && (a + b)[0] == a[0];
      ResponsesAppend(a[1..], b);
      Assoc(if a[0].ReadResponse? then [a[0].env] else [], Responses(a[1..]), Responses(b));
    }
  }

  lemma LinesGrow(s: State, a: Action)
    requires Enabled(s, a)
    ensures Envs(Step(s, a).lines) == Envs(s.lines) + (if a.ReadResponse? then [a.env] else [])
  {
    if a.ReadResponse? {
      assert |Step(s, a).lines| == |s.lines| + 1;
    } else {
      LinesOnlyRead(s, a);
    }
  }

  lemma LinesOnlyRead(s: State, a: Action)
    requires Enabled(s, a) && !a.ReadResponse?
    ensures Step(s, a).lines == s.lines
  {
    if TouchesEntry(a) {
      EntryStepsSpareLines(s, a);
    }
  }

  lemma EntryStepsSpareLines(s: State, a: Action)
    requires Enabled(s, a) && TouchesEntry(a) && !a.ReadResponse?
    ensures Step(s, a).lines == s.lines
  {
  }

  lemma {:induction false} LinesOfRun(s: State, acts: seq<Action>, t: State)
    requires Run(s, acts) == Some(t)
    ensures Envs(t.lines) == Envs(s.lines) + Responses(Reads(acts))
    decreases |acts|
  {
    if acts != [] {
      var a := acts[0];
      LinesGrow(s, a);
      LinesOfRun(Step(s, a), acts[1..], t);
      ReadsFirst(a, acts[1..]);
      assert acts == [a] + acts[1..];
    }
  }

  lemma ReadsFirst(a: Action, rest: seq<Action>)
    ensures Responses(Reads([a] + rest)) == (if a.ReadResponse? then [a.env] else []) + Responses(Reads(rest))
  {
    assert ([a] + rest)[1..] == rest;
    var first := if a.ReadResponse? || a.Broadcast? then [a] else [];
    ResponsesAppend(first, Reads(rest));
    assert a.ReadResponse? || a.Broadcast? ==> [a][1..] == [];
  }

  lemma {:induction false} NoResponses(events: seq<GatewayEvent>)
    ensures Responses(Casts(events)) == []
  {
    if events != [] {
      assert Casts(events)[1..] == Casts(events[1..]);
      NoResponses(events[1..]);
    }
  }

  lemma DemandResponses(f: Fate)
    ensures Responses(Demand(f)) == if f.Command? then [f.env] else []
  {
    match f {
      case Command(env) =>
        assert [ReadResponse(env)][1..] == [];
      case Mapped(events) =>
        NoResponses(events);
      case _ =>
    }
  }

  lemma {:induction false} DemandsResponses(fate: string -> Fate, lines: seq<string>)
    ensures Responses(Demands(fate, lines)) == Routed(fate, lines)
  {
    if lines != [] {
      DemandsResponses(fate, lines[1..]);
      ResponsesAppend(Demand(fate(lines[0])), Demands(fate, lines[1..]));
      DemandResponses(fate(lines[0]));
    }
  }

  // However the others interleave, the response lines the protocol has seen are those the loop routes, in order.
  lemma ReaderFeedsProtocol(acts: seq<Action>, t: State, fate: string -> Fate, stream: string)
    requires Run(INITIAL, acts) == Some(t) && ReadsStream(acts, fate, stream)
    ensures Envs(t.lines) == Routed(fate, Lines(stream))
  {
    LinesOfRun(INITIAL, acts, t);
    DemandsResponses(fate, Lines(stream));
  }

  lemma {:induction false} RoutedFrom(fate: string -> Fate, lines: seq<string>, i: nat)
    requires i < |Routed(fate, lines)|
    ensures exists k :: 0 <= k < |lines| && fate(lines[k]) == Command(Routed(fate, lines)[i])
  {
    if !fate(lines[0]).Command? || i > 0 {
      var j := if fate(lines[0]).Command? then i - 1 else i;
      RoutedFrom(fate, lines[1..], j);
      var k :| 0 <= k < |lines[1..]| && fate(lines[1..][k]) == Command(Routed(fate, lines[1..])[j]);
      assert fate(lines[k + 1]) == Command(Routed(fate, lines)[i]);
    }
  }

  // From the stream to the caller: an answered command returns what some line of the process's output decodes to,
  // and that line carries the command's own id.
  lemma AnswerIsALine(acts: seq<Action>, t: State, fate: string -> Fate, stream: string, c: nat, env: Envelope)
    requires Run(INITIAL, acts) == Some(t) && ReadsStream(acts, fate, stream)
    requires At(t, c, Returned(Ok(env))) && !DrainedUnanswered(t, c)
    ensures env.id == Key(t.calls[c].num)
    ensures exists k :: 0 <= k < |Lines(stream)| && fate(Lines(stream)[k]) == Command(env)
  {
    assert Leads(INITIAL, t);
    Correlation(t, c, env);
    var i: nat :| RoutedTo(t, c, i) && t.lines[i].env == env;
    ReaderFeedsProtocol(acts, t, fate, stream);
    assert Envs(t.lines)[i] == env;
    RoutedFrom(fate, Lines(stream), i);
  }

  // ----- the reader is never in the way of itself -----

  ghost predicate CommandsAreResponses(fate: string -> Fate) {
    forall raw :: fate(raw).Command? ==> fate(raw).env.typ == "response"
  }

  ghost predicate ReaderReady(s: State) {
    Inv(s) && s.reader.Reading? && LockFree(s)
  }

  lemma {:induction false} ReadsAppend(a: seq<Action>, b: seq<Action>)
    ensures Reads(a + b) == Reads(a) + Reads(b)
  {
    if a == [] {
      assert a + b == b;
    } else {
      assert (a + b)[1..] == a[1..] + b && (a + b)[0] == a[0];
      ReadsAppend(a[1..], b);
      Assoc(if a[0].ReadResponse? || a[0].Broadcast? then [a[0]] else [], Reads(a[1..]), Reads(b));
    }
  }

  lemma ReadResponseAlone(s: State, env: Envelope) returns (acts: seq<Action>, t: State)
    requires ReaderReady(s) && env.typ == "response"
    ensures Run(s, acts) == Some(t) && ReaderReady(t) && Reads(acts) == [ReadResponse(env)]
  {
    var a := ReadResponse(env);
    var mid := Step(s, a);
    InvStep(s, a);
    RunCons(s, a, []);
    assert [a][1..] == [];
    if mid.reader.Reading? {
      acts, t := [a], mid;
      assert [a] + [] == [a];
    } else {
      var rest, end := SendAndClose(mid);
      RunCons(s, a, rest);
      assert ([a] + rest)[1..] == rest;
      acts, t := [a] + rest, end;
    }
  }

  lemma SendAndClose(s: State) returns (acts: seq<Action>, t: State)
    requires Inv(s) && s.reader.Holding? && LockFree(s)
    ensures Run(s, acts) == Some(t) && ReaderReady(t) && Reads(acts) == []
  {
    assert CallOk(s, s.reader.call);
    var mid := Step(s, ReaderSend);
    InvStep(s, ReaderSend);
    InvStep(mid, ReaderClose);
    t := Step(mid, ReaderClose);
    RunCons(mid, ReaderClose, []);
    RunCons(s, ReaderSend, [ReaderClose]);
    assert [ReaderClose] + [] == [ReaderClose];
    acts := [ReaderSend] + [ReaderClose];
    assert acts[1..] == [ReaderClose] && [ReaderClose][1..] == [];
  }

  lemma {:induction false} BroadcastAlone(s: State, events: seq<GatewayEvent>) returns (acts: seq<Action>, t: State)
    requires ReaderReady(s)
    ensures Run(s, acts) == Some(t) && ReaderReady(t) && Reads(acts) == Casts(events)
    decreases |events|
  {
    if events == [] {
      acts, t := [], s;
    } else {
      var a := Broadcast(events[0]);
      InvStep(s, a);
      var rest, end := BroadcastAlone(Step(s, a), events[1..]);
      RunCons(s, a, rest);
      acts, t := [a] + rest, end;
      assert acts[1..] == rest;
    }
  }

  lemma ReadLineAlone(s: State, f: Fate) returns (acts: seq<Action>, t: State)
    requires ReaderReady(s) && (f.Command? ==> f.env.typ == "response")
    ensures Run(s, acts) == Some(t) && ReaderReady(t) && Reads(acts) == Demand(f)
  {
    match f {
      case Command(env) => acts, t := ReadResponseAlone(s, env);
      case Mapped(events) => acts, t := BroadcastAlone(s, events);
      case _ => acts, t := [], s;
    }
  }

  // While the waiter does not hold the lock the reader can read any number of lines by itself: no response line,
  // whatever its id, can stop it.
  lemma {:induction false} ReaderCanRead(s: State, fate: string -> Fate, lines: seq<string>) returns (acts: seq<Action>, t: State)
    requires ReaderReady(s) && CommandsAreResponses(fate)
    ensures Run(s, acts) == Some(t) && ReaderReady(t) && Reads(acts) == Demands(fate, lines)
    decreases |lines|
  {
    if lines == [] {
      acts, t := [], s;
    } else {
      var first, mid := ReadLineAlone(s, fate(lines[0]));
      var rest, end := ReaderCanRead(mid, fate, lines[1..]);
      RunAppend(s, first, mid, rest, end);
      ReadsAppend(first, rest);
      acts, t := first + rest, end;
    }
  }
}
