// The stdout reader: cutting the stream into lines and deciding what becomes of each.
module LineDemux {
  import opened Options
  import opened Text
  import opened Gateway
  import opened RpcProtocol

  // JSON decoding, kept abstract. envelope decodes into rpcEnvelope, typeOf into RPCEvent, assistant gives the
  // nested type of a message_update, fits says whether a line decodes into its own event's struct.
  datatype Decoders = Decoders(
    envelope: string -> Option<Envelope>,
    typeOf: string -> Option<string>,
    assistant: string -> Option<string>,
    fits: string -> bool)

  function One(typ: string, payload: Payload): seq<GatewayEvent> {
    [GatewayEvent(typ, payload)]
  }

  // Nothing comes of a line that does not decode.
  function IfFits(d: Decoders, typ: string, line: string): seq<GatewayEvent> {
    if d.fits(line) then One(typ, Decoded(line)) else []
  }

  // An event is sent even if the line does not decode.
  function EvenIf(d: Decoders, typ: string, line: string): seq<GatewayEvent> {
    One(typ, if d.fits(line) then Decoded(line) else Zero)
  }

  function AssistantEvent(sub: string): Option<string> {
    match sub
    case "text_start" => Some("agent.text.start")
    case "text_delta" => Some("agent.text.delta")
    case "text_end" => Some("agent.text.end")
    case "thinking_start" => Some("agent.thinking.start")
    case "thinking_delta" => Some("agent.thinking.delta")
    case "thinking_end" => Some("agent.thinking.end")
    case "toolcall_start" => Some("agent.toolcall.start")
    case "toolcall_delta" => Some("agent.toolcall.delta")
    case "toolcall_end" => Some("agent.toolcall.end")
    case "done" => Some("agent.message.done")
    case "error" => Some("agent.message.error")
    case "start" => Some("agent.message.start")
    case _ => None
  }

  function MapMessageUpdate(d: Decoders, line: string): seq<GatewayEvent> {
    match d.assistant(line)
    case None => []
    case Some(sub) =>
      match AssistantEvent(sub)
      case Some(typ) => One(typ, Decoded(line))
      case None => One("agent.unknown", Unknown("message_update." + sub, line))
  }

  function MapType(d: Decoders, typ: string, line: string): seq<GatewayEvent> {
    match typ
    case "response" => []
    case "message_update" => MapMessageUpdate(d, line)
    case "agent_start" => One("agent.run.start", Zero)
    case "agent_end" => EvenIf(d, "agent.run.end", line)
    case "turn_start" => One("agent.turn.start", Zero)
    case "turn_end" => EvenIf(d, "agent.turn.end", line)
    case "message_start" => EvenIf(d, "agent.message.start", line)
    case "message_end" => EvenIf(d, "agent.message.end", line)
    case "tool_execution_start" => IfFits(d, "agent.tool.start", line)
    case "tool_execution_update" => IfFits(d, "agent.tool.update", line)
    case "tool_execution_end" => IfFits(d, "agent.tool.end", line)
    case "compaction_start" => EvenIf(d, "agent.compaction.start", line)
    case "compaction_end" => EvenIf(d, "agent.compaction.end", line)
    case "auto_retry_start" => IfFits(d, "agent.retry.start", line)
    case "auto_retry_end" => IfFits(d, "agent.retry.end", line)
    case "queue_update" => IfFits(d, "agent.queue.update", line)
    case "extension_ui_request" => IfFits(d, "agent.ui.request", line)
    case "extension_error" => IfFits(d, "agent.extension.error", line)
    case _ => One("agent.unknown", Unknown(typ, line))
  }

  function MapRPCLine(d: Decoders, line: string): (events: seq<GatewayEvent>)
    ensures |events| <= 1
    ensures d.typeOf(line) == Some("response") ==> events == []
    ensures events != [] && events[0].payload.Unknown? ==> events[0].payload.raw == line
  {
    match d.typeOf(line)
    case None => []
    case Some(typ) => MapType(d, typ, line)
  }

  // ReadString('\n') until it fails: whatever follows the last newline is lost.
  function Lines(stream: string): seq<string> {
    var parts := Split(stream, '\n');
    parts[..|parts| - 1]
  }

  function TrimCr(line: string): string {
    if line != "" && line[|line| - 1] == '\r' then line[..|line| - 1] else line
  }

  datatype Fate = Blank | Undecodable | Command(env: Envelope) | Mapped(events: seq<GatewayEvent>)

  function FateOf(d: Decoders, raw: string): Fate {
    var line := TrimCr(raw);
    if TrimSpace(line) == "" then Blank
    else
      match d.envelope(line)
      case None => Undecodable
      case Some(env) => if env.typ == "response" then Command(env) else Mapped(MapRPCLine(d, line))
  }

  // What is handed to command correlation, in order
  function Routed(fate: string -> Fate, lines: seq<string>): seq<Envelope> {
    if lines == [] then []
    else (if fate(lines[0]).Command? then [fate(lines[0]).env] else []) + Routed(fate, lines[1..])
  }

  // What is broadcast, in order
  function Log(fate: string -> Fate, lines: seq<string>): seq<GatewayEvent> {
    if lines == [] then []
    else (if fate(lines[0]).Mapped? then fate(lines[0]).events else []) + Log(fate, lines[1..])
  }

  // Lines that leave no trace
  function Silent(fate: string -> Fate, lines: seq<string>): nat {
    if lines == [] then 0
    else
      (if fate(lines[0]).Blank? || fate(lines[0]).Undecodable? || fate(lines[0]) == Mapped([]) then 1 else 0)
      + Silent(fate, lines[1..])
  }

  lemma {:induction false} Appends(fate: string -> Fate, a: seq<string>, b: seq<string>)
    ensures Routed(fate, a + b) == Routed(fate, a) + Routed(fate, b) && Log(fate, a + b) == Log(fate, a) + Log(fate, b)
  {
    if a == [] {
      assert a + b == b;
    } else {
      assert (a + b)[1..] == a[1..] + b && (a + b)[0] == a[0];
      Appends(fate, a[1..], b);
      var f := fate(a[0]);
      Assoc(if f.Command? then [f.env] else [], Routed(fate, a[1..]), Routed(fate, b));
      Assoc(if f.Mapped? then f.events else [], Log(fate, a[1..]), Log(fate, b));
    }
  }

  // bufio.Reader.ReadString('\n'): where the line that begins at start ends, if it ends at all
  method ReadString(stream: string, start: nat) returns (end: nat, ok: bool)
    requires start <= |stream|
    ensures ok ==> start <= end < |stream| && stream[end] == '\n' && '\n' !in stream[start..end]
    ensures !ok ==> '\n' !in stream[start..]
  {
    end := start;
    while end < |stream| && stream[end] != '\n'
      invariant start <= end <= |stream| && '\n' !in stream[start..end]
    {
      end := end + 1;
    }
    ok := end < |stream|;
    assert !ok ==> stream[start..] == stream[start..end];
  }

  // readLoop over everything the process wrote; fate is what the loop's body decides about one line.
  method ReadLoop(fate: string -> Fate, stream: string) returns (routed: seq<Envelope>, log: seq<GatewayEvent>)
    ensures routed == Routed(fate, Lines(stream)) && log == Log(fate, Lines(stream))
  {
    routed, log := [], [];
    ghost var done: seq<string> := [];
    var start := 0;
    assert stream[0..] == stream;
    while true
      invariant start <= |stream| && Lines(stream) == done + Lines(stream[start..])
      invariant routed == Routed(fate, done) && log == Log(fate, done)
      decreases |stream| - start
    {
      var end, ok := ReadString(stream, start);
      if !ok {
        SplitNone(stream[start..], '\n');
        assert done + [] == done;
        return;
      }
      var raw := stream[start..end];
      ReadOne(fate, stream, start, end, done);
      match fate(raw) {
        case Command(env) => routed := routed + [env];
        case Mapped(events) => log := log + events;
        case _ =>
      }
      done := done + [raw];
      start := end + 1;
    }
  }

  // One turn of the loop moves one line from the unread part of the stream to the part dealt with.
  lemma ReadOne(fate: string -> Fate, stream: string, start: nat, end: nat, done: seq<string>)
    requires start <= end < |stream| && '\n' !in stream[start..end] && stream[end] == '\n'
    requires Lines(stream) == done + Lines(stream[start..])
    ensures var raw := stream[start..end];
      && Lines(stream) == (done + [raw]) + Lines(stream[end + 1..])
      && Routed(fate, done + [raw]) == Routed(fate, done) + (if fate(raw).Command? then [fate(raw).env] else [])
      && Log(fate, done + [raw]) == Log(fate, done) + (if fate(raw).Mapped? then fate(raw).events else [])
  {
    var raw := stream[start..end];
    CutLine(stream, start, end);
    Appends(fate, done, [raw]);
    OneLine(fate, raw);
    Assoc(done, [raw], Lines(stream[end + 1..]));
  }

  lemma OneLine(fate: string -> Fate, raw: string)
    ensures Routed(fate, [raw]) == if fate(raw).Command? then [fate(raw).env] else []
    ensures Log(fate, [raw]) == if fate(raw).Mapped? then fate(raw).events else []
  {
    assert [raw][1..] == [];
  }

  lemma CutLine(stream: string, start: nat, i: nat)
    requires start <= i < |stream| && '\n' !in stream[start..i] && stream[i] == '\n'
    ensures Lines(stream[start..]) == [stream[start..i]] + Lines(stream[i + 1..])
  {
    var raw, rest := stream[start..i], stream[i + 1..];
    assert stream[start..] == raw + ['\n'] + rest;
    SplitAt(raw, '\n', rest);
    SplitNone(raw, '\n');
  }

  // Two writes are read as if they were one: nothing that is already a full line depends on what follows, and
  // an unfinished line is finished by the next write.
  lemma StreamsConcatenate(fate: string -> Fate, a: string, rest: string, b: string)
    requires '\n' !in rest
    ensures Log(fate, Lines(a + "\n" + rest + b)) == Log(fate, Lines(a + "\n" + rest)) + Log(fate, Lines(rest + b))
    ensures Routed(fate, Lines(a + "\n" + rest + b)) == Routed(fate, Lines(a + "\n" + rest)) + Routed(fate, Lines(rest + b))
  {
    Assoc(a + "\n", rest, b);
    LinesAfter(a, rest + b);
    LinesAfter(a, rest);
    SplitNone(rest, '\n');
    assert Split(a, '\n') + [] == Split(a, '\n');
    Appends(fate, Split(a, '\n'), Lines(rest + b));
  }

  lemma LinesAfter(a: string, b: string)
    ensures Lines(a + "\n" + b) == Split(a, '\n') + Lines(b)
  {
    SplitAt(a, '\n', b);
    DropLast(Split(a, '\n'), Split(b, '\n'));
  }

  lemma DropLast(a: seq<string>, b: seq<string>)
    requires b != []
    ensures (a + b)[..|a + b| - 1] == a + b[..|b| - 1]
  {
  }

  // What MapRPCLine promises: at most one event a line
  ghost predicate AtMostOne(fate: string -> Fate) {
    forall raw :: fate(raw).Mapped? ==> |fate(raw).events| <= 1
  }

  // Every line has exactly one fate: one command response, one event, or silence.
  lemma {:induction false} LinesConserved(fate: string -> Fate, lines: seq<string>)
    requires AtMostOne(fate)
    ensures |Routed(fate, lines)| + |Log(fate, lines)| + Silent(fate, lines) == |lines|
  {
    if lines != [] {
      LinesConserved(fate, lines[1..]);
    }
  }

  // from[k] is the line event k was mapped from.
  ghost predicate ComesFrom(fate: string -> Fate, lines: seq<string>, from: seq<nat>) {
    && |from| == |Log(fate, lines)|
    && (forall k :: 0 <= k < |from| ==> MappedTo(fate, lines, from[k], Log(fate, lines)[k]))
    && forall j, k :: 0 <= j < k < |from| ==> from[j] < from[k]
  }

  ghost predicate MappedTo(fate: string -> Fate, lines: seq<string>, i: nat, event: GatewayEvent) {
    i < |lines| && fate(lines[i]) == Mapped([event])
  }

  // Each event sent comes from its own line, in the order of the lines.
  lemma {:induction false} Provenance(fate: string -> Fate, lines: seq<string>) returns (from: seq<nat>)
    requires AtMostOne(fate)
    ensures ComesFrom(fate, lines, from)
  {
    if lines == [] {
      from := [];
    } else {
      var rest := Provenance(fate, lines[1..]);
      from := Shift(rest);
      if fate(lines[0]).Mapped? && fate(lines[0]).events != [] {
        from := [0] + from;
        Hit(fate, lines, rest);
      } else {
        Miss(fate, lines, rest);
      }
    }
  }

  function Shift(from: seq<nat>): (r: seq<nat>)
    ensures |r| == |from| && forall k :: 0 <= k < |r| ==> r[k] == from[k] + 1
  {
    seq(|from|, k requires 0 <= k < |from| => from[k] + 1)
  }

  lemma Miss(fate: string -> Fate, lines: seq<string>, rest: seq<nat>)
    requires lines != [] && ComesFrom(fate, lines[1..], rest)
    requires !fate(lines[0]).Mapped? || fate(lines[0]).events == []
    ensures ComesFrom(fate, lines, Shift(rest))
  {
    assert Log(fate, lines) == Log(fate, lines[1..]);
    forall k | 0 <= k < |rest| ensures MappedTo(fate, lines, Shift(rest)[k], Log(fate, lines)[k]) {
      Behind(fate, lines, rest[k], Log(fate, lines)[k]);
    }
  }

  lemma Behind(fate: string -> Fate, lines: seq<string>, i: nat, event: GatewayEvent)
    requires lines != [] && MappedTo(fate, lines[1..], i, event)
    ensures MappedTo(fate, lines, i + 1, event)
  {
  }

  lemma Hit(fate: string -> Fate, lines: seq<string>, rest: seq<nat>)
    requires AtMostOne(fate) && lines != [] && ComesFrom(fate, lines[1..], rest)
    requires fate(lines[0]).Mapped? && fate(lines[0]).events != []
    ensures ComesFrom(fate, lines, [0] + Shift(rest))
  {
    var log, from := Log(fate, lines[1..]), [0] + Shift(rest);
    OneEvent(fate, lines);
    forall k | 0 <= k < |from| ensures MappedTo(fate, lines, from[k], Log(fate, lines)[k]) {
      if k > 0 {
        Behind(fate, lines, rest[k - 1], log[k - 1]);
      }
    }
  }

  lemma OneEvent(fate: string -> Fate, lines: seq<string>)
    requires AtMostOne(fate) && lines != [] && fate(lines[0]).Mapped? && fate(lines[0]).events != []
    ensures var event := fate(lines[0]).events[0];
      fate(lines[0]) == Mapped([event]) && Log(fate, lines) == [event] + Log(fate, lines[1..])
  {
    assert fate(lines[0]).events == [fate(lines[0]).events[0]];
  }

  // The event that the session manager's listener waits for is sent for the end of a run and nothing else, whether
  // or not the line's own struct decodes.
  lemma RunEndIff(d: Decoders, line: string)
    ensures (MapRPCLine(d, line) != [] && MapRPCLine(d, line)[0].typ == "agent.run.end") <==> d.typeOf(line) == Some("agent_end")
  {
    if d.typeOf(line) == Some("message_update") && d.assistant(line).Some? {
      NoAssistantRunEnd(d.assistant(line).value);
    }
  }

  lemma NoAssistantRunEnd(sub: string)
    ensures AssistantEvent(sub) != Some("agent.run.end")
  {
  }
}
